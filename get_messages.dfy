/**
 * GET /api/get-messages (src/app/api/get-messages/route.ts): the session
 * user's messages, newest first. The aggregation (match the user, unwind the
 * messages, sort on `createdAt` descending, group them back) is modelled as
 * sorting that user's message sequence.
 */
module GetMessagesRoute {
  import opened Wrappers
  import opened Users

  /** No message comes before a newer one. Messages with equal timestamps may come in any order. */
  predicate NewestFirst(ms: seq<Message>)
  {
    forall i, j :: 0 <= i < j < |ms| ==> ms[i].createdAt >= ms[j].createdAt
  }

  /** Places m into a newest-first sequence. */
  function Insert(m: Message, ms: seq<Message>): (r: seq<Message>)
    requires NewestFirst(ms)
    ensures NewestFirst(r)
    ensures multiset(r) == multiset(ms) + multiset{m}
  {
    if ms == [] || m.createdAt >= ms[0].createdAt then [m] + ms
    else
      var rest := Insert(m, ms[1..]);
      assert ms == [ms[0]] + ms[1..];
      PrependNewest(ms[0], rest, ms[1..], m);
      [ms[0]] + rest
  }

  /** A message no older than every element of a newest-first sequence may lead it. */
  lemma PrependNewest(head: Message, rest: seq<Message>, tail: seq<Message>, m: Message)
    requires NewestFirst(rest) && NewestFirst([head] + tail)
    requires multiset(rest) == multiset(tail) + multiset{m}
    requires m.createdAt <= head.createdAt
    ensures NewestFirst([head] + rest)
  {
    forall j | 0 <= j < |rest|
      ensures rest[j].createdAt <= head.createdAt
    {
      var x := rest[j];
      assert x in multiset(rest);
      if x != m {
        assert x in multiset(tail);
        var p :| 0 <= p < |tail| && tail[p] == x;
        assert ([head] + tail)[0] == head && ([head] + tail)[p + 1] == x;
      }
    }
    var s := [head] + rest;
    forall i, j | 0 <= i < j < |s| ensures s[i].createdAt >= s[j].createdAt {
      assert s[j] == rest[j - 1];
      if i > 0 {
        assert s[i] == rest[i - 1];
      }
    }
  }

  /** The `$sort: { "messages.createdAt": -1 }` stage applied to one user's messages. */
  function SortNewestFirst(ms: seq<Message>): (r: seq<Message>)
    ensures NewestFirst(r)
    ensures multiset(r) == multiset(ms)
  {
    if ms == [] then []
    else
      assert ms == [ms[0]] + ms[1..];
      Insert(ms[0], SortNewestFirst(ms[1..]))
  }

  /** Inserting a message older than everything already listed puts it last. */
  lemma {:induction false} InsertOldest(m: Message, ms: seq<Message>)
    requires NewestFirst(ms)
    requires forall x :: x in ms ==> x.createdAt > m.createdAt
    ensures Insert(m, ms) == ms + [m]
  {
    if ms != [] {
      InsertOldest(m, ms[1..]);
    }
  }

  function Reverse(ms: seq<Message>): (r: seq<Message>)
    ensures multiset(r) == multiset(ms)
  {
    if ms == [] then []
    else
      assert ms == [ms[0]] + ms[1..];
      Reverse(ms[1..]) + [ms[0]]
  }

  /** Messages received at strictly increasing times are listed in reverse order of arrival. */
  lemma {:induction false} ArrivalOrderReversed(ms: seq<Message>)
    requires forall i, j :: 0 <= i < j < |ms| ==> ms[i].createdAt < ms[j].createdAt
    ensures SortNewestFirst(ms) == Reverse(ms)
  {
    if ms != [] {
      var rest := ms[1..];
      ArrivalOrderReversed(rest);
      forall x | x in SortNewestFirst(rest)
        ensures x.createdAt > ms[0].createdAt
      {
        assert x in multiset(SortNewestFirst(rest));
        assert x in rest;
      }
      InsertOldest(ms[0], SortNewestFirst(rest));
    }
  }

  /** A message newer than all others is listed first. */
  lemma NewestListedFirst(ms: seq<Message>, m: Message)
    requires forall x :: x in ms ==> x.createdAt < m.createdAt
    ensures SortNewestFirst(ms + [m]) != [] && SortNewestFirst(ms + [m])[0] == m
  {
    var r := SortNewestFirst(ms + [m]);
    assert m in multiset(r);
    var j :| 0 <= j < |r| && r[j] == m;
    assert r[0] in multiset(ms + [m]);
    assert r[0].createdAt >= r[j].createdAt;
  }

  datatype Response = Unauthorized | UserNotFound | Messages(messages: seq<Message>)

  /**
   * The GET handler: no session is Unauthorized before the store is read; a
   * session id no record has is UserNotFound; otherwise that user's messages,
   * newest first, an empty list when they have none.
   */
  function Get(users: seq<User>, session: Option<UserId>): (r: Response)
    ensures session.None? <==> r == Unauthorized
    ensures session.Some? ==> (r == UserNotFound <==> forall i :: 0 <= i < |users| ==> users[i].id != session.value)
    ensures forall k: nat :: session.Some? && IsFirstMatch(users, ById(session.value), k) ==>
      r.Messages? && multiset(r.messages) == multiset(users[k].messages) && NewestFirst(r.messages)
  {
    match session
    case None => Unauthorized
    case Some(id) =>
      match FindOne(users, ById(id))
      case None => UserNotFound
      case Some(k) => Messages(SortNewestFirst(users[k].messages))
  }
}
