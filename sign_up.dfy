/**
 * POST /api/sign-up (src/app/api/sign-up/route.ts): registration. A username
 * held by a verified user or an email held by a verified user is refused;
 * an unverified record with the email gets a fresh password hash, code and
 * expiry; otherwise a new unverified record is appended. The code is then
 * mailed, and the reply reports whether the mail went out; the store change
 * stays either way.
 *
 * Inputs the route takes from its environment are parameters: the random
 * draw `code`, bcrypt as `hash`, the clock `now` in milliseconds, the new
 * record's id `freshId`, and the mail service's verdict `delivered`.
 */
module SignUpRoute {
  import opened Wrappers
  import opened Users
  import opened VerifyCodes

  /** One hour in milliseconds: how long a code stays valid. */
  const CodeLifetime := 3600000

  datatype Request = Request(username: string, email: string, password: string)

  datatype Outcome = VerificationEmailSent | UsernameTaken | EmailTaken | EmailFailed

  /** The call to the mail service: recipient, username shown and code. */
  datatype Mail = Mail(to: string, username: string, code: string)

  datatype Effect = Effect(outcome: Outcome, users: seq<User>, mail: Option<Mail>)

  /** Record k is the unverified record the request re-registers. */
  predicate Reregisters(users: seq<User>, req: Request, k: nat)
  {
    !VerifiedHolder(users, req.username) && IsFirstMatch(users, ByEmail(req.email), k) && !users[k].isVerified
  }

  /** No record has the request's email and no verified record its username: a new record is created. */
  predicate Registers(users: seq<User>, req: Request)
  {
    !VerifiedHolder(users, req.username) && forall i :: 0 <= i < |users| ==> users[i].email != req.email
  }

  function Post(users: seq<User>, freshId: UserId, req: Request, code: SixDigit,
                hash: string -> string, now: int, delivered: bool): (e: Effect)
    // the username check comes first
    ensures e.outcome == UsernameTaken <==> VerifiedHolder(users, req.username)
    ensures e.outcome == EmailTaken <==>
      !VerifiedHolder(users, req.username) &&
      exists k: nat :: IsFirstMatch(users, ByEmail(req.email), k) && users[k].isVerified
    // a refusal changes nothing and mails nothing
    ensures e.mail.None? <==> e.outcome == UsernameTaken || e.outcome == EmailTaken
    ensures e.mail.None? ==> e.users == users
    // the mailed code is the stored one; success is exactly delivery
    ensures e.mail.Some? ==> e.mail.value == Mail(req.email, req.username, CodeString(code))
    ensures e.mail.Some? ==> (e.outcome == VerificationEmailSent <==> delivered)
    // re-registration of an unverified email
    ensures forall k: nat :: Reregisters(users, req, k) ==>
      |e.users| == |users| &&
      e.users[k] == users[k].(password := hash(req.password), verifyCode := CodeString(code),
                              verifyCodeExpiry := now + CodeLifetime) &&
      forall j :: 0 <= j < |users| && j != k ==> e.users[j] == users[j]
    // first registration of the email
    ensures Registers(users, req) ==>
      e.users == users + [User(freshId, req.username, req.email, hash(req.password), CodeString(code),
                               now + CodeLifetime, false, true, [], None)]
  {
    if FindOne(users, VerifiedByUsername(req.username)).Some? then
      Effect(UsernameTaken, users, None)
    else
      var stored := CodeString(code);
      var mail := Mail(req.email, req.username, stored);
      var outcome := if delivered then VerificationEmailSent else EmailFailed;
      match FindOne(users, ByEmail(req.email))
      case Some(k) =>
        if users[k].isVerified then Effect(EmailTaken, users, None)
        else
          var u := users[k].(password := hash(req.password), verifyCode := stored,
                             verifyCodeExpiry := now + CodeLifetime);
          Effect(outcome, users[k := u], Some(mail))
      case None =>
        var u := User(freshId, req.username, req.email, hash(req.password), stored,
                      now + CodeLifetime, false, true, [], None);
        Effect(outcome, users + [u], Some(mail))
  }

  /** Whenever a code is mailed, an unverified record with that email holds it, valid for one hour. */
  lemma MailedCodeIsStored(users: seq<User>, freshId: UserId, req: Request, code: SixDigit,
                           hash: string -> string, now: int, delivered: bool)
    ensures var e := Post(users, freshId, req, code, hash, now, delivered);
      e.mail.Some? ==>
        |e.mail.value.code| == 6 &&
        exists k :: 0 <= k < |e.users| && e.users[k].email == e.mail.value.to && !e.users[k].isVerified &&
          e.users[k].verifyCode == e.mail.value.code && e.users[k].verifyCodeExpiry == now + CodeLifetime
  {
    var e := Post(users, freshId, req, code, hash, now, delivered);
    if e.mail.Some? {
      match FindOne(users, ByEmail(req.email))
      case Some(k) =>
        assert Reregisters(users, req, k);
      case None =>
        assert Registers(users, req);
        assert e.users[|users|].email == req.email;
    }
  }

  /** In a well-formed store "Email already exists" means exactly that a verified record has the email. */
  lemma EmailTakenByVerified(users: seq<User>, freshId: UserId, req: Request, code: SixDigit,
                             hash: string -> string, now: int, delivered: bool)
    requires WellFormed(users)
    ensures Post(users, freshId, req, code, hash, now, delivered).outcome == EmailTaken <==>
      !VerifiedHolder(users, req.username) &&
      exists i :: 0 <= i < |users| && users[i].email == req.email && users[i].isVerified
  {
  }

  /** Registration keeps the store well formed and never resets a verified flag, given a fresh id. */
  lemma PostPreservesWellFormed(users: seq<User>, freshId: UserId, req: Request, code: SixDigit,
                                hash: string -> string, now: int, delivered: bool)
    requires WellFormed(users)
    requires forall i :: 0 <= i < |users| ==> users[i].id != freshId
    ensures var e := Post(users, freshId, req, code, hash, now, delivered);
      WellFormed(e.users) && KeepsVerified(users, e.users) &&
      forall j :: |users| <= j < |e.users| ==> e.users[j].id == freshId
  {
  }

  /**
   * Registration as evidently intended: re-registering an unverified email
   * also stores the username the code is mailed under (the sign-up page sends
   * the user on to verify that username).
   */
  function PostIntended(users: seq<User>, freshId: UserId, req: Request, code: SixDigit,
                        hash: string -> string, now: int, delivered: bool): (e: Effect)
    ensures e.mail.Some? ==>
      exists k :: 0 <= k < |e.users| && e.users[k].username == e.mail.value.username &&
        e.users[k].email == e.mail.value.to && e.users[k].verifyCode == e.mail.value.code
  {
    var e := Post(users, freshId, req, code, hash, now, delivered);
    if e.mail.None? then e
    else match FindOne(users, ByEmail(req.email))
      case Some(k) =>
        assert Reregisters(users, req, k);
        var fixed := e.(users := e.users[k := e.users[k].(username := req.username)]);
        assert fixed.users[k].verifyCode == fixed.mail.value.code;
        fixed
      case None =>
        assert Registers(users, req);
        assert e.users[|users|].username == req.username;
        e
  }
}
