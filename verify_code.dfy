/**
 * POST /api/verify-code (src/app/api/verify-code/route.ts): the first record
 * with the (already URL-decoded) username is looked up whatever its verified
 * flag; the submitted code must equal the stored one exactly; the code is
 * expired only when its expiry lies strictly before `now`; then the record
 * becomes verified. The code and expiry are left in place.
 */
module VerifyCodeRoute {
  import opened Users

  datatype Outcome = Verified | UserNotFound | InvalidCode | CodeExpired

  datatype Effect = Effect(outcome: Outcome, users: seq<User>)

  function Post(users: seq<User>, username: string, code: string, now: int): (e: Effect)
    ensures e.outcome == UserNotFound <==> forall i :: 0 <= i < |users| ==> users[i].username != username
    ensures e.outcome != Verified ==> e.users == users
    ensures forall k: nat :: IsFirstMatch(users, ByUsername(username), k) ==>
      // the code is compared before the expiry
      && (e.outcome == InvalidCode <==> users[k].verifyCode != code)
      && (e.outcome == CodeExpired <==> users[k].verifyCode == code && users[k].verifyCodeExpiry < now)
      && (e.outcome == Verified <==> users[k].verifyCode == code && now <= users[k].verifyCodeExpiry)
      && (e.outcome == Verified ==> e.users == users[k := users[k].(isVerified := true)])
  {
    match FindOne(users, ByUsername(username))
    case None => Effect(UserNotFound, users)
    case Some(k) =>
      if users[k].verifyCode != code then Effect(InvalidCode, users)
      else if users[k].verifyCodeExpiry < now then Effect(CodeExpired, users)
      else Effect(Verified, users[k := users[k].(isVerified := true)])
  }

  /**
   * Repeating a successful verification, with the same code and at any time
   * up to the expiry, succeeds again and changes nothing more.
   */
  lemma {:induction false} VerifyIdempotent(users: seq<User>, username: string, code: string, now: int, later: int)
    requires Post(users, username, code, now).outcome == Verified
    requires forall k: nat :: IsFirstMatch(users, ByUsername(username), k) ==> later <= users[k].verifyCodeExpiry
    ensures var e := Post(users, username, code, now);
      Post(e.users, username, code, later) == e
  {
    var e := Post(users, username, code, now);
    var k := FindOne(users, ByUsername(username)).value;
    assert IsFirstMatch(e.users, ByUsername(username), k);
    assert e.users[k := e.users[k].(isVerified := true)] == e.users;
  }

  /** Verification keeps the store well formed and only ever sets the verified flag. */
  lemma PostPreservesWellFormed(users: seq<User>, username: string, code: string, now: int)
    requires WellFormed(users)
    ensures var e := Post(users, username, code, now);
      WellFormed(e.users) && KeepsVerified(users, e.users) && |e.users| == |users|
  {
  }
}
