/**
 * The user collection the routes read and write, with the `findOne`/`findById`
 * lookups they issue. The collection is a sequence in insertion order; a
 * lookup returns the first record that matches its filter.
 */
module Users {
  import opened Wrappers

  /** The document id (`_id`) of a user record. */
  type UserId = nat

  /** One received message; `createdAt` is the server clock in milliseconds. */
  datatype Message = Message(content: string, createdAt: int)

  /**
   * A user record. `acceptMessages` is the key the acceptance POST writes
   * (src/app/api/accept-messages/route.ts:19); no route reads it.
   */
  datatype User = User(
    id: UserId,
    username: string,
    email: string,
    password: string,
    verifyCode: string,
    verifyCodeExpiry: int,
    isVerified: bool,
    isAcceptingMessages: bool,
    messages: seq<Message>,
    acceptMessages: Option<bool>)

  /** The filter documents the routes pass to `findOne` and `findById`. */
  datatype Query =
    | ByUsername(username: string)
    | VerifiedByUsername(name: string)
    | ByEmail(email: string)
    | ById(id: UserId)

  predicate Matches(u: User, q: Query)
  {
    match q
    case ByUsername(n) => u.username == n
    case VerifiedByUsername(n) => u.username == n && u.isVerified
    case ByEmail(e) => u.email == e
    case ById(id) => u.id == id
  }

  /** Record k is the first one that matches q. */
  predicate IsFirstMatch(users: seq<User>, q: Query, k: nat)
  {
    k < |users| && Matches(users[k], q) && forall j :: 0 <= j < k ==> !Matches(users[j], q)
  }

  /** `findOne(q)`: the index of the first matching record, or None when no record matches. */
  function FindOne(users: seq<User>, q: Query): (r: Option<nat>)
    ensures r.Some? ==> IsFirstMatch(users, q, r.value)
    ensures r.None? ==> forall i :: 0 <= i < |users| ==> !Matches(users[i], q)
  {
    if users == [] then None
    else if Matches(users[0], q) then Some(0)
    else match FindOne(users[1..], q)
      case None => None
      case Some(k) => Some(k + 1)
  }

  /** Some verified record has this username. */
  predicate VerifiedHolder(users: seq<User>, name: string)
  {
    exists i :: 0 <= i < |users| && users[i].isVerified && users[i].username == name
  }

  /**
   * The invariant every reachable collection keeps: ids are distinct, emails
   * are distinct, and among the records sharing a username only the first
   * can be verified.
   */
  predicate WellFormed(users: seq<User>)
  {
    && (forall i, j :: 0 <= i < j < |users| ==> users[i].id != users[j].id)
    && (forall i, j :: 0 <= i < j < |users| ==> users[i].email != users[j].email)
    && (forall i, j :: 0 <= i < j < |users| && users[i].username == users[j].username ==> !users[j].isVerified)
  }

  /** In a well-formed collection a username has at most one verified holder. */
  lemma AtMostOneVerifiedHolder(users: seq<User>, i: nat, j: nat)
    requires WellFormed(users)
    requires i < |users| && j < |users| && users[i].username == users[j].username
    requires users[i].isVerified && users[j].isVerified
    ensures i == j
  {
  }

  /** In a well-formed collection the record with a given id is its first match. */
  lemma IdIsFirstMatch(users: seq<User>, k: nat)
    requires WellFormed(users) && k < |users|
    ensures IsFirstMatch(users, ById(users[k].id), k)
  {
  }

  /** `isVerified` is never reset: b keeps a's records in place and none of them loses its verified flag. */
  predicate KeepsVerified(a: seq<User>, b: seq<User>)
  {
    |a| <= |b| && forall i :: 0 <= i < |a| ==> b[i].id == a[i].id && (a[i].isVerified ==> b[i].isVerified)
  }
}
