/**
 * The user collection as the routes change it in place: one object holding
 * the records and the id the next inserted record receives. Each method is
 * one route's write path, run as a single atomic step, and is proved to do
 * exactly what the route's step function in its own module describes.
 */
module UserStore {
  import opened Wrappers
  import opened Users
  import opened VerifyCodes
  import SignUpRoute
  import VerifyCodeRoute
  import SendMessageRoute
  import AcceptMessagesRoute

  class Store {
    var users: seq<User>
    /** Stands for the database's id generator: every stored id is below it. */
    var nextId: nat

    ghost predicate Valid()
      reads this
    {
      WellFormed(users) && forall i :: 0 <= i < |users| ==> users[i].id < nextId
    }

    constructor ()
      ensures Valid() && users == []
    {
      users := [];
      nextId := 0;
    }

    /** POST /api/sign-up. */
    method SignUp(req: SignUpRoute.Request, code: SixDigit, hash: string -> string, now: int, delivered: bool)
      returns (outcome: SignUpRoute.Outcome, mail: Option<SignUpRoute.Mail>)
      requires Valid()
      modifies this
      ensures Valid() && KeepsVerified(old(users), users)
      ensures SignUpRoute.Post(old(users), old(nextId), req, code, hash, now, delivered)
              == SignUpRoute.Effect(outcome, users, mail)
    {
      if FindOne(users, VerifiedByUsername(req.username)).Some? {
        return SignUpRoute.UsernameTaken, None;
      }
      var stored := CodeString(code);
      var found := FindOne(users, ByEmail(req.email));
      if found.Some? {
        var k := found.value;
        if users[k].isVerified {
          return SignUpRoute.EmailTaken, None;
        }
        users := users[k := users[k].(password := hash(req.password), verifyCode := stored,
                                      verifyCodeExpiry := now + SignUpRoute.CodeLifetime)];
      } else {
        users := users + [User(nextId, req.username, req.email, hash(req.password), stored,
                               now + SignUpRoute.CodeLifetime, false, true, [], None)];
        nextId := nextId + 1;
      }
      mail := Some(SignUpRoute.Mail(req.email, req.username, stored));
      outcome := if delivered then SignUpRoute.VerificationEmailSent else SignUpRoute.EmailFailed;
      SignUpRoute.PostPreservesWellFormed(old(users), old(nextId), req, code, hash, now, delivered);
    }

    /** POST /api/verify-code. */
    method VerifyCode(username: string, code: string, now: int) returns (outcome: VerifyCodeRoute.Outcome)
      requires Valid()
      modifies this
      ensures Valid() && nextId == old(nextId) && KeepsVerified(old(users), users)
      ensures VerifyCodeRoute.Post(old(users), username, code, now) == VerifyCodeRoute.Effect(outcome, users)
    {
      VerifyCodeRoute.PostPreservesWellFormed(users, username, code, now);
      var found := FindOne(users, ByUsername(username));
      if found.None? {
        return VerifyCodeRoute.UserNotFound;
      }
      var k := found.value;
      if users[k].verifyCode != code {
        return VerifyCodeRoute.InvalidCode;
      }
      if users[k].verifyCodeExpiry < now {
        return VerifyCodeRoute.CodeExpired;
      }
      users := users[k := users[k].(isVerified := true)];
      outcome := VerifyCodeRoute.Verified;
    }

    /** POST /api/send-message. */
    method SendMessage(username: string, content: string, now: int) returns (outcome: SendMessageRoute.Outcome)
      requires Valid()
      modifies this
      ensures Valid() && nextId == old(nextId) && KeepsVerified(old(users), users)
      ensures SendMessageRoute.Post(old(users), username, content, now) == SendMessageRoute.Effect(outcome, users)
    {
      SendMessageRoute.PostPreservesWellFormed(users, username, content, now);
      var found := FindOne(users, ByUsername(username));
      if found.None? {
        return SendMessageRoute.UserNotFound;
      }
      var k := found.value;
      if !users[k].isAcceptingMessages {
        return SendMessageRoute.NotAccepting;
      }
      users := users[k := users[k].(messages := users[k].messages + [Message(content, now)])];
      outcome := SendMessageRoute.MessageSent;
    }

    /** POST /api/accept-messages, as written. */
    method AcceptMessages(session: Option<UserId>, value: bool) returns (response: AcceptMessagesRoute.Response)
      requires Valid()
      modifies this
      ensures Valid() && nextId == old(nextId) && KeepsVerified(old(users), users)
      ensures AcceptMessagesRoute.Post(old(users), session, value) == AcceptMessagesRoute.Effect(response, users)
    {
      AcceptMessagesRoute.PostPreservesWellFormed(users, session, value);
      if session.None? {
        return AcceptMessagesRoute.Unauthorized;
      }
      var found := FindOne(users, ById(session.value));
      if found.Some? {
        var k := found.value;
        users := users[k := users[k].(acceptMessages := Some(value))];
      }
      response := AcceptMessagesRoute.Updated;
    }
  }
}
