/**
 * GET /api/unique-username (src/app/api/unique-username/route.ts): the
 * `username` query parameter is validated with `usernameValidation` before
 * any lookup; a valid name is taken only when a verified record holds it.
 */
module UniqueUsernameRoute {
  import opened Wrappers
  import opened Users
  import opened Schemas

  /** zod's issue for a parameter that is absent (`searchParams.get` gives null). */
  const NotAString := "Expected string, received null"

  datatype Response = Invalid(issues: seq<string>) | UsernameTaken | UsernameUnique

  function Get(users: seq<User>, username: Option<string>): (r: Response)
    ensures username.None? ==> r == Invalid([NotAString])
    // validation comes first and does not depend on the store
    ensures username.Some? ==>
      (r.Invalid? <==> !UsernameValid(username.value)) &&
      (r.Invalid? ==> r.issues == UsernameIssues(username.value))
    ensures r == UsernameTaken <==> username.Some? && UsernameValid(username.value) && VerifiedHolder(users, username.value)
    ensures r == UsernameUnique <==> username.Some? && UsernameValid(username.value) && !VerifiedHolder(users, username.value)
  {
    match username
    case None => Invalid([NotAString])
    case Some(name) =>
      var issues := UsernameIssues(name);
      if issues != [] then Invalid(issues)
      else if FindOne(users, VerifiedByUsername(name)).Some? then UsernameTaken
      else UsernameUnique
  }
}
