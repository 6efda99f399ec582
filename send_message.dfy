/**
 * POST /api/send-message (src/app/api/send-message/route.ts): an anonymous
 * visitor's message. The first record with the username is looked up
 * whatever its verified flag; if it accepts messages, the content is
 * appended, as given and without a length check, stamped with `now`.
 */
module SendMessageRoute {
  import opened Users

  datatype Outcome = MessageSent | UserNotFound | NotAccepting

  datatype Effect = Effect(outcome: Outcome, users: seq<User>)

  function Post(users: seq<User>, username: string, content: string, now: int): (e: Effect)
    ensures e.outcome == UserNotFound <==> forall i :: 0 <= i < |users| ==> users[i].username != username
    ensures e.outcome != MessageSent ==> e.users == users
    ensures forall k: nat :: IsFirstMatch(users, ByUsername(username), k) ==>
      && (e.outcome == NotAccepting <==> !users[k].isAcceptingMessages)
      && (e.outcome == MessageSent ==>
            && |e.users| == |users|
            && e.users[k] == users[k].(messages := users[k].messages + [Message(content, now)])
            && forall j :: 0 <= j < |users| && j != k ==> e.users[j] == users[j])
  {
    match FindOne(users, ByUsername(username))
    case None => Effect(UserNotFound, users)
    case Some(k) =>
      if !users[k].isAcceptingMessages then Effect(NotAccepting, users)
      else
        var u := users[k].(messages := users[k].messages + [Message(content, now)]);
        Effect(MessageSent, users[k := u])
  }

  /** Sending keeps the store well formed and leaves every flag, id, name and email as it was. */
  lemma PostPreservesWellFormed(users: seq<User>, username: string, content: string, now: int)
    requires WellFormed(users)
    ensures var e := Post(users, username, content, now);
      && WellFormed(e.users) && KeepsVerified(users, e.users) && |e.users| == |users|
      && forall j :: 0 <= j < |users| ==> e.users[j] == users[j].(messages := e.users[j].messages)
  {
  }
}
