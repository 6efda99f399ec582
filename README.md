# Anon Messenger: the user and message store, verified in Dafny

This project models the server side of Anon Messenger. Users register
with a username, an email and a password, and confirm the email with a
six-digit code. Each user gets a public link through which anonymous
visitors send them messages. A user can list their messages, newest
first, and can switch off message intake.

The database is modelled as a sequence of user records in insertion
order. A `findOne` or `findById` returns the first record that matches its
filter (`Users.FindOne`). Each route handler becomes two things:

- a pure step function in its own module (`SignUpRoute.Post`,
  `VerifyCodeRoute.Post`, …) whose contract states the outcome and the new
  store;
- for the routes that write, a method of the class `UserStore.Store` that
  updates the records in place and is proved equal to the step function.

Every write keeps the store invariant `Users.WellFormed`:

- ids are distinct;
- emails are distinct;
- among the records that share a username, only the first can be verified.

It follows that a username has at most one verified holder.

Inputs that come from the environment are parameters:

- the clock `now`, in milliseconds;
- the random draw behind the code, an integer in 100000..999999;
- bcrypt, as a function `hash`;
- the mail service's verdict, `delivered`;
- the next-auth session, as an optional user id;
- zod's email check, as a predicate `isEmail`;
- the id a new record receives (`Store.nextId`).

String lengths in the schemas count UTF-16 code units, as JavaScript's
`string.length` does (`Schemas.Utf16Length`).

Two behaviours of the code are worth stating outright:
- A code whose expiry equals `now` is still accepted, because the test is
  `expiry < now`.
- send-message stores the content without a length check. The 1–500 limit
  is only enforced by the client form's schema.

## Model

| member | source | states |
|---|---|---|
| `Schemas.Utf16Length` | src/schemas/signUpSchema.ts:5-6 | the length zod compares lies between the number of characters and twice that |
| `Schemas.BmpLength` | src/schemas/signUpSchema.ts:5-6 | on text without astral characters that length is the number of characters |
| `Schemas.UsernameIssues` | src/schemas/signUpSchema.ts:3-7 | `usernameValidation` reports no issue exactly when the name has 2 to 50 characters, all from `[A-Za-z0-9_]` |
| `Schemas.UsernameRejections` | src/schemas/signUpSchema.ts:5-7 | the empty name, one-character names and names containing any other character (`-`, a space) are refused |
| `Schemas.PasswordIssues` | src/schemas/signUpSchema.ts:13-16 | a password passes exactly when its length is 6 to 50 |
| `Schemas.PasswordAnyCharacters` | src/schemas/signUpSchema.ts:13-16 | for text without characters beyond U+FFFF, passing is exactly having 6 to 50 characters, whatever they are; a character beyond U+FFFF counts as two |
| `Schemas.SignUpIssues` | src/schemas/signUpSchema.ts:18-22 | the sign-up object passes exactly when each of its three fields passes |
| `Schemas.ContentIssues` | src/schemas/messageSchema.ts:4-7 | message content passes exactly when its length is 1 to 500 |
| `Schemas.ContentBounds` | src/schemas/messageSchema.ts:6-7 | for text without characters beyond U+FFFF: empty content is refused, 500 characters pass and 501 do not, whatever the characters; a character beyond U+FFFF counts as two |
| `VerifyCodes.DecimalString` | src/app/api/sign-up/route.ts:20 | `toString` yields decimal digits with no leading zero |
| `VerifyCodes.ParseDecimalString` | src/app/api/sign-up/route.ts:20 | reading the rendered digits back gives the number |
| `VerifyCodes.DecimalStringLength` | src/app/api/sign-up/route.ts:20 | a number with k + 1 digits renders as k + 1 characters |
| `VerifyCodes.CodeString` | src/app/api/sign-up/route.ts:20 | the code is six digits, not starting with 0, that denote the drawn number |
| `VerifyCodes.CodeStringInjective` | src/app/api/sign-up/route.ts:20 | different draws give different codes |
| `Users.FindOne` | src/app/api/verify-code/route.ts:9 | `findOne` yields the first matching record, or nothing when no record matches |
| `Users.AtMostOneVerifiedHolder` | src/app/api/sign-up/route.ts:10-17 | in a well-formed store two verified records never share a username |
| `SignUpRoute.Post` | src/app/api/sign-up/route.ts:9-54 | a verified owner of the username gives "Username already exists" before the email is looked up. Otherwise a verified first owner of the email gives "Email already exists". Both refusals leave the store unchanged and send no mail. An unverified owner of the email gets a new password hash, code and expiry, and none of its other fields change. With no owner of the email, exactly one unverified, accepting, empty record is appended. The expiry is now + 3600000 in both branches. The mailed code is the stored one. The reply is success exactly when the mail is delivered, and the store change is kept either way. |
| `SignUpRoute.MailedCodeIsStored` | src/app/api/sign-up/route.ts:20-49 | whenever a code is mailed, an unverified record with that email holds exactly that six-digit code, valid for one hour |
| `SignUpRoute.EmailTakenByVerified` | src/app/api/sign-up/route.ts:19-23 | in a well-formed store "Email already exists" means that some verified record has the email |
| `SignUpRoute.PostPreservesWellFormed` | src/app/api/sign-up/route.ts:10-46 | registration keeps the store invariant, keeps every existing record in place and never clears a verified flag |
| `SignUpRoute.PostIntended` | src/app/api/sign-up/route.ts:24-30 | corrected registration: the record holding the mailed code carries the username it is mailed under |
| `VerifyCodeRoute.Post` | src/app/api/verify-code/route.ts:8-23 | "User not found" exactly when no record has the username, whatever their verified flags. The code is compared by exact equality before the expiry is checked. "Code expired" exactly when the codes match and expiry < now. Success exactly when they match and now <= expiry, and then only that record's `isVerified` becomes true. Every failure leaves the store unchanged. |
| `VerifyCodeRoute.VerifyIdempotent` | src/app/api/verify-code/route.ts:14-23 | repeating a successful verification with the same code at any time up to the expiry succeeds again and changes nothing |
| `VerifyCodeRoute.PostPreservesWellFormed` | src/app/api/verify-code/route.ts:21-22 | verification keeps the store invariant and only ever sets the verified flag |
| `SendMessageRoute.Post` | src/app/api/send-message/route.ts:7-19 | "User not found" exactly when no record has the username, whatever their verified flags. A user not accepting messages gets "not accepting" and nothing changes. Otherwise exactly one message, with the content as given and `createdAt = now`, is appended after the existing ones. No other field and no other record changes. |
| `SendMessageRoute.PostPreservesWellFormed` | src/app/api/send-message/route.ts:16-18 | sending keeps the store invariant and changes nothing but one message list |
| `GetMessagesRoute.Insert` | src/app/api/get-messages/route.ts:20 | inserting into a newest-first list keeps it newest first and adds exactly that message |
| `GetMessagesRoute.SortNewestFirst` | src/app/api/get-messages/route.ts:19-26 | the listed messages are a permutation of the stored ones, ordered by `createdAt` non-increasing |
| `GetMessagesRoute.ArrivalOrderReversed` | src/app/api/get-messages/route.ts:20 | messages received at strictly increasing times are listed in reverse order of arrival |
| `GetMessagesRoute.NewestListedFirst` | src/app/api/get-messages/route.ts:20 | a message newer than all the others is listed first |
| `GetMessagesRoute.Get` | src/app/api/get-messages/route.ts:10-32 | no session gives Unauthorized without reading the store. An unknown id gives "User not found". A known user, even one with no messages, gets all their messages, newest first. |
| `AcceptMessagesRoute.Post` | src/app/api/accept-messages/route.ts:10-23 | no session gives Unauthorized and no change. With a session the reply is always success. Only the session user's record changes, and only in its `acceptMessages` key. |
| `AcceptMessagesRoute.Get` | src/app/api/accept-messages/route.ts:33-45 | no session gives Unauthorized, an unknown id gives "User not found", and otherwise the stored `isAcceptingMessages` |
| `AcceptMessagesRoute.PostNotSeenByGet` | src/app/api/accept-messages/route.ts:19 | no POST, as written, changes what any GET reports |
| `AcceptMessagesRoute.PostMissingUserReportsUpdated` | src/app/api/accept-messages/route.ts:19-23 | a POST for an id no record has still reports success |
| `AcceptMessagesRoute.PostIntended` | src/app/api/accept-messages/route.ts:19-21 | corrected POST: "User not found" exactly when no record has the id, and success otherwise. Only the session user's record changes, and only in `isAcceptingMessages`, which takes the posted value |
| `AcceptMessagesRoute.PostIntendedSeenByGet` | src/app/api/accept-messages/route.ts:41-45 | with the correction, a POST for an existing user reports success, and a later GET reports the posted value |
| `AcceptMessagesRoute.PostPreservesWellFormed` | src/app/api/accept-messages/route.ts:19 | the POST keeps the store invariant and touches no verified flag |
| `UniqueUsernameRoute.Get` | src/app/api/unique-username/route.ts:13-30 | a missing or invalid name gets zod's issues, independent of the store. Otherwise "Username already exists" exactly when a verified record holds the name; unverified holders do not count. "Username is unique" exactly when the name is valid and no verified record holds it. |
| `Flows.NewMessageListedFirst` | src/app/api/send-message/route.ts:16-18 | a message accepted later than every earlier one is the first one the owner's inbox lists |
| `Flows.FreshRegistrationVerifies` | src/app/api/sign-up/route.ts:31-46 | a first registration under an unused username can be verified with the mailed code until it expires |
| `Flows.OlderUnverifiedHolderAnswers` | src/app/api/verify-code/route.ts:9-16 | when an older unverified record holds the username with another code, a new registration's mailed code is answered "Invalid code" |
| `Flows.ReregistrationKeepsOldUsername` | src/app/api/sign-up/route.ts:24-30 | re-registering an unverified email under a username no record holds mails the code for that name, and verifying it finds no user |
| `Flows.ReregistrationIntendedVerifies` | src/app/api/sign-up/route.ts:24-30 | with the correction, that re-registration verifies with the mailed code until it expires |
| `UserStore.Store.SignUp` | src/app/api/sign-up/route.ts:10-54 | the in-place registration does exactly what `SignUpRoute.Post` describes, keeps the invariant and the id generator ahead of every id |
| `UserStore.Store.VerifyCode` | src/app/api/verify-code/route.ts:9-23 | the in-place verification does exactly what `VerifyCodeRoute.Post` describes |
| `UserStore.Store.SendMessage` | src/app/api/send-message/route.ts:9-19 | the in-place `messages.push` does exactly what `SendMessageRoute.Post` describes |
| `UserStore.Store.AcceptMessages` | src/app/api/accept-messages/route.ts:12-23 | the in-place `updateOne` does exactly what `AcceptMessagesRoute.Post` describes |

## Findings

| source | as written | input that shows it | evidently intended | confidence | as-written member | corrected member |
|---|---|---|---|---|---|---|
| src/app/api/accept-messages/route.ts:19 | the update writes the key `acceptMessages`, so `isAcceptingMessages` never changes | POST `{acceptMessages: false}`, then GET: still `true`, and send-message still accepts | update `isAcceptingMessages` | high; not executed | `AcceptMessagesRoute.PostNotSeenByGet` | `AcceptMessagesRoute.PostIntendedSeenByGet` |
| src/app/api/accept-messages/route.ts:19-22 | `updateOne` always returns a result object, so the "User not found" branch is dead | a session whose id no record has: POST reports success | report "User not found" when no record matched | high; not executed | `AcceptMessagesRoute.PostMissingUserReportsUpdated` | `AcceptMessagesRoute.PostIntended` |
| src/app/api/sign-up/route.ts:24-30 | re-registering an unverified email keeps the old username, yet the code is mailed under the new one | sign up ("alice", a@example.com), then ("bob", a@example.com); verify "bob" with the mailed code: "User not found" | store the new username with the new code | medium; not executed | `Flows.ReregistrationKeepsOldUsername` | `Flows.ReregistrationIntendedVerifies` |

The `UserStore.Store` methods model the handlers as written. The corrected
definitions (`SignUpRoute.PostIntended`, `AcceptMessagesRoute.PostIntended`)
sit beside the as-written ones. The lemmas above compare the two.

## Left out

- Message deletion (src/app/api/delete-message/[messageid]/route.ts) is not part of this model.
- The email format check `.email()` is defined inside zod, not in this repository; it is the parameter `isEmail`.
- bcrypt is the function parameter `hash`. Its random salt is not modelled: the same password always hashes alike here.
- `Math.random` is floating point. The model takes its integer result, 100000..999999, as the input `code`.
- `Date.now`, `new Date()` and `setHours` are a single input `now` in milliseconds. A new record's expiry is taken as now + 3600000. A local-time `setHours` across a daylight-saving change can differ; that is not modelled.
- `decodeURIComponent` is left out: the username arrives decoded.
- next-auth is an optional user id. A malformed id passed to `ObjectId` is not modelled.
- Database connection, thrown errors (the 500 replies), HTTP status codes and JSON parsing are left out. A non-string `code` in the request body is not modelled.
- The failure text of the mail service is not carried: a failed delivery is the outcome `EmailFailed`.
- Mongo's natural order is taken to be insertion order. The order that `$sort` gives messages with equal `createdAt` is not specified; the model fixes one.
- Message subdocument ids are not modelled; nothing in these routes reads them.
- The user schema is assumed to have no unique index on `username`, no trimming or lowercasing of `username` or `email`, and no validator on message `content` that would make `save()` fail.
- Whether mongoose keeps the key `acceptMessages` depends on the user schema, and src/model/user.model.ts is not part of this model. The model records the key. Either way `isAcceptingMessages` is unchanged.
- The issue text for an absent `username` query parameter (`UniqueUsernameRoute.NotAString`) is zod's default wording for a null value. zod's own source is not part of this model.
- Concurrency and per-document atomicity: every route is one atomic step.
- `SignUpRoute.PostIntended`: its contract states only the property the correction restores (the mailed username names the record that holds the code), not the whole new store.
