/**
 * Properties that span several routes: what a visitor's message looks like in
 * the owner's inbox, and how registration and verification meet.
 */
module Flows {
  import opened Wrappers
  import opened Users
  import opened VerifyCodes
  import SignUpRoute
  import VerifyCodeRoute
  import SendMessageRoute
  import GetMessagesRoute

  /** A message sent later than every message already received is the first one the owner's inbox lists. */
  lemma NewMessageListedFirst(users: seq<User>, username: string, content: string, now: int, k: nat)
    requires WellFormed(users)
    requires IsFirstMatch(users, ByUsername(username), k) && users[k].isAcceptingMessages
    requires forall m :: m in users[k].messages ==> m.createdAt < now
    ensures var e := SendMessageRoute.Post(users, username, content, now);
      && e.outcome == SendMessageRoute.MessageSent
      && var inbox := GetMessagesRoute.Get(e.users, Some(users[k].id));
         inbox.Messages? && inbox.messages != [] && inbox.messages[0] == Message(content, now)
  {
    var e := SendMessageRoute.Post(users, username, content, now);
    SendMessageRoute.PostPreservesWellFormed(users, username, content, now);
    IdIsFirstMatch(e.users, k);
    GetMessagesRoute.NewestListedFirst(users[k].messages, Message(content, now));
  }

  /**
   * A first registration under a username no record holds yet can be
   * verified with the mailed code until the code expires.
   */
  lemma FreshRegistrationVerifies(users: seq<User>, freshId: UserId, req: SignUpRoute.Request, code: SixDigit,
                                  hash: string -> string, now: int, delivered: bool, later: int)
    requires SignUpRoute.Registers(users, req)
    requires forall i :: 0 <= i < |users| ==> users[i].username != req.username
    requires later <= now + SignUpRoute.CodeLifetime
    ensures var e := SignUpRoute.Post(users, freshId, req, code, hash, now, delivered);
      e.mail.Some? &&
      VerifyCodeRoute.Post(e.users, req.username, e.mail.value.code, later).outcome == VerifyCodeRoute.Verified
  {
    var e := SignUpRoute.Post(users, freshId, req, code, hash, now, delivered);
    assert IsFirstMatch(e.users, ByUsername(req.username), |users|);
  }

  /**
   * Verification looks at the first record with the username, so when an
   * older unverified record holds the username with another code, a new
   * registration's mailed code is answered "Invalid code".
   */
  lemma OlderUnverifiedHolderAnswers(users: seq<User>, freshId: UserId, req: SignUpRoute.Request, code: SixDigit,
                                     hash: string -> string, now: int, delivered: bool, later: int, j: nat)
    requires SignUpRoute.Registers(users, req)
    requires IsFirstMatch(users, ByUsername(req.username), j) && users[j].verifyCode != CodeString(code)
    ensures var e := SignUpRoute.Post(users, freshId, req, code, hash, now, delivered);
      e.mail.Some? &&
      VerifyCodeRoute.Post(e.users, req.username, e.mail.value.code, later).outcome == VerifyCodeRoute.InvalidCode
  {
    var e := SignUpRoute.Post(users, freshId, req, code, hash, now, delivered);
    assert IsFirstMatch(e.users, ByUsername(req.username), j);
  }

  /**
   * As written, re-registering an unverified email under a username no
   * record holds keeps the old username: the code is mailed for the new
   * name, and verifying that name finds no user.
   */
  lemma ReregistrationKeepsOldUsername(users: seq<User>, freshId: UserId, req: SignUpRoute.Request, code: SixDigit,
                                       hash: string -> string, now: int, delivered: bool, later: int, k: nat)
    requires SignUpRoute.Reregisters(users, req, k)
    requires forall i :: 0 <= i < |users| ==> users[i].username != req.username
    ensures var e := SignUpRoute.Post(users, freshId, req, code, hash, now, delivered);
      && e.mail == Some(SignUpRoute.Mail(req.email, req.username, CodeString(code)))
      && VerifyCodeRoute.Post(e.users, req.username, e.mail.value.code, later).outcome == VerifyCodeRoute.UserNotFound
  {
  }

  /**
   * With the correction, the same re-registration verifies with the mailed
   * code until it expires. The correction does not help when an older
   * unverified record already holds the new name (`OlderUnverifiedHolderAnswers`).
   */
  lemma ReregistrationIntendedVerifies(users: seq<User>, freshId: UserId, req: SignUpRoute.Request, code: SixDigit,
                                       hash: string -> string, now: int, delivered: bool, later: int, k: nat)
    requires SignUpRoute.Reregisters(users, req, k)
    requires forall i :: 0 <= i < |users| ==> users[i].username != req.username
    requires later <= now + SignUpRoute.CodeLifetime
    ensures var e := SignUpRoute.PostIntended(users, freshId, req, code, hash, now, delivered);
      && e.mail == Some(SignUpRoute.Mail(req.email, req.username, CodeString(code)))
      && VerifyCodeRoute.Post(e.users, req.username, e.mail.value.code, later).outcome == VerifyCodeRoute.Verified
  {
    var e := SignUpRoute.PostIntended(users, freshId, req, code, hash, now, delivered);
    assert IsFirstMatch(e.users, ByUsername(req.username), k);
  }
}
