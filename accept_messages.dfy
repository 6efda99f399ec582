/**
 * /api/accept-messages (src/app/api/accept-messages/route.ts). GET reads the
 * session user's `isAcceptingMessages`. POST issues
 * `updateOne({ _id }, { acceptMessages })` for the session user: the update
 * names the key `acceptMessages`, not `isAcceptingMessages`, and `updateOne`
 * always yields a result object, so POST reports success whenever there is a
 * session. `PostIntended` is the handler with both slips corrected.
 */
module AcceptMessagesRoute {
  import opened Wrappers
  import opened Users

  datatype Response = Unauthorized | UserNotFound | Updated | Accepting(flag: bool)

  datatype Effect = Effect(response: Response, users: seq<User>)

  /** The POST handler as written. */
  function Post(users: seq<User>, session: Option<UserId>, value: bool): (e: Effect)
    ensures session.None? ==> e == Effect(Unauthorized, users)
    ensures session.Some? ==> e.response == Updated
    // only the session user's record is touched, and only its `acceptMessages` key
    ensures |e.users| == |users|
    ensures forall j :: 0 <= j < |users| ==>
      e.users[j] == if session.Some? && IsFirstMatch(users, ById(session.value), j)
                    then users[j].(acceptMessages := Some(value)) else users[j]
  {
    match session
    case None => Effect(Unauthorized, users)
    case Some(id) =>
      match FindOne(users, ById(id))
      case None => Effect(Updated, users)
      case Some(k) => Effect(Updated, users[k := users[k].(acceptMessages := Some(value))])
  }

  /** The GET handler: the stored flag of the session user. */
  function Get(users: seq<User>, session: Option<UserId>): (r: Response)
    ensures session.None? <==> r == Unauthorized
    ensures session.Some? ==> (r == UserNotFound <==> forall i :: 0 <= i < |users| ==> users[i].id != session.value)
    ensures forall k: nat :: session.Some? && IsFirstMatch(users, ById(session.value), k) ==>
      r == Accepting(users[k].isAcceptingMessages)
  {
    match session
    case None => Unauthorized
    case Some(id) =>
      match FindOne(users, ById(id))
      case None => UserNotFound
      case Some(k) => Accepting(users[k].isAcceptingMessages)
  }

  /** As written, no POST changes what any later GET reports. */
  lemma PostNotSeenByGet(users: seq<User>, session: Option<UserId>, value: bool, reader: Option<UserId>)
    ensures Get(Post(users, session, value).users, reader) == Get(users, reader)
  {
  }

  /** As written, a POST for an id no record has still reports success. */
  lemma PostMissingUserReportsUpdated(users: seq<User>, id: UserId, value: bool)
    requires forall i :: 0 <= i < |users| ==> users[i].id != id
    ensures Post(users, Some(id), value) == Effect(Updated, users)
  {
  }

  /** The POST handler as evidently intended: it sets `isAcceptingMessages` and reports a missing user. */
  function PostIntended(users: seq<User>, session: Option<UserId>, value: bool): (e: Effect)
    ensures session.None? ==> e == Effect(Unauthorized, users)
    ensures session.Some? ==>
      (e.response == UserNotFound <==> forall i :: 0 <= i < |users| ==> users[i].id != session.value)
    ensures session.Some? && e.response != UserNotFound ==> e.response == Updated
    // only the session user's record changes, and only its `isAcceptingMessages`
    ensures |e.users| == |users|
    ensures forall j :: 0 <= j < |users| ==>
      e.users[j] == if session.Some? && IsFirstMatch(users, ById(session.value), j)
                    then users[j].(isAcceptingMessages := value) else users[j]
  {
    match session
    case None => Effect(Unauthorized, users)
    case Some(id) =>
      match FindOne(users, ById(id))
      case None => Effect(UserNotFound, users)
      case Some(k) => Effect(Updated, users[k := users[k].(isAcceptingMessages := value)])
  }

  /** With the correction, a POST for an existing user succeeds and a later GET reports the posted value. */
  lemma {:induction false} PostIntendedSeenByGet(users: seq<User>, id: UserId, value: bool)
    requires exists i :: 0 <= i < |users| && users[i].id == id
    ensures var e := PostIntended(users, Some(id), value);
      e.response == Updated && Get(e.users, Some(id)) == Accepting(value)
  {
    var e := PostIntended(users, Some(id), value);
    var k := FindOne(users, ById(id)).value;
    assert IsFirstMatch(e.users, ById(id), k);
  }

  /** The acceptance POST keeps the store well formed and changes no verified flag. */
  lemma PostPreservesWellFormed(users: seq<User>, session: Option<UserId>, value: bool)
    requires WellFormed(users)
    ensures var e := Post(users, session, value);
      WellFormed(e.users) && KeepsVerified(users, e.users) && KeepsVerified(e.users, users)
  {
  }
}
