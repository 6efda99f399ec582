/**
 * The zod schemas of the sign-up form and the message form
 * (src/schemas/signUpSchema.ts, src/schemas/messageSchema.ts).
 *
 * zod runs every check of a string schema and reports one issue per failed
 * check, in declaration order; `.min` and `.max` compare JavaScript's
 * `string.length`, which counts UTF-16 code units.
 */
module Schemas {

  /** UTF-16 code units needed for one character: two outside the Basic Multilingual Plane. */
  function Utf16Units(c: char): nat
  {
    if c as int >= 0x1_0000 then 2 else 1
  }

  /** JavaScript's `string.length` of `s`. */
  function Utf16Length(s: string): (n: nat)
    ensures |s| <= n <= 2 * |s|
  {
    if s == [] then 0 else Utf16Units(s[0]) + Utf16Length(s[1..])
  }

  /** Every character lies in the Basic Multilingual Plane. */
  predicate IsBmp(s: string)
  {
    forall i :: 0 <= i < |s| ==> s[i] as int < 0x1_0000
  }

  /** On Basic Multilingual Plane text `string.length` is the number of characters. */
  lemma {:induction false} BmpLength(s: string)
    requires IsBmp(s)
    ensures Utf16Length(s) == |s|
  {
    if s != [] {
      assert IsBmp(s[1..]) by {
        forall i | 0 <= i < |s[1..]| ensures s[1..][i] as int < 0x1_0000 {
          assert s[1..][i] == s[i + 1];
        }
      }
      BmpLength(s[1..]);
    }
  }

  // ----- username -----------------------------------------------------------

  const UsernameTooShort := "Name must be at least 2 characters long"
  const UsernameTooLong := "Name must be at most 50 characters long"
  const UsernameSpecialCharacters := "Username should not contain special characters"

  /** A character of the class `[a-zA-Z0-9_]`. */
  predicate IsWordChar(c: char)
  {
    'a' <= c <= 'z' || 'A' <= c <= 'Z' || '0' <= c <= '9' || c == '_'
  }

  /** The regular expression `^[a-zA-Z0-9_]+$`. */
  predicate MatchesUsernamePattern(s: string)
  {
    |s| >= 1 && forall i :: 0 <= i < |s| ==> IsWordChar(s[i])
  }

  /** The usernames the application accepts: 2 to 50 characters, each a letter, a digit or `_`. */
  predicate UsernameValid(s: string)
  {
    2 <= |s| <= 50 && forall i :: 0 <= i < |s| ==> IsWordChar(s[i])
  }

  /** The issues `usernameValidation` reports for `s`, in the order of its checks. */
  function UsernameIssues(s: string): (r: seq<string>)
    ensures r == [] <==> UsernameValid(s)
  {
    PatternLength(s);
    (if Utf16Length(s) < 2 then [UsernameTooShort] else [])
    + (if Utf16Length(s) > 50 then [UsernameTooLong] else [])
    + (if MatchesUsernamePattern(s) then [] else [UsernameSpecialCharacters])
  }

  /** A name that matches the pattern is ASCII, so its `string.length` is its number of characters. */
  lemma PatternLength(s: string)
    ensures MatchesUsernamePattern(s) ==> Utf16Length(s) == |s|
  {
  }

  /** The empty name, one-character names and names with a character outside `[A-Za-z0-9_]` are refused. */
  lemma UsernameRejections(s: string, i: nat)
    requires |s| < 2 || (i < |s| && !IsWordChar(s[i]))
    ensures UsernameIssues(s) != []
  {
  }

  // ----- password -----------------------------------------------------------

  const PasswordTooShort := "Password must be at least 6 characters long"
  const PasswordTooLong := "Password must be at most 50 characters long"

  /** The issues `passwordValidation` reports for `s`. */
  function PasswordIssues(s: string): (r: seq<string>)
    ensures r == [] <==> 6 <= Utf16Length(s) <= 50
  {
    (if Utf16Length(s) < 6 then [PasswordTooShort] else [])
    + (if Utf16Length(s) > 50 then [PasswordTooLong] else [])
  }

  /** No character class applies to passwords: any Basic Multilingual Plane text of 6 to 50 characters passes. */
  lemma PasswordAnyCharacters(s: string)
    requires IsBmp(s)
    ensures PasswordIssues(s) == [] <==> 6 <= |s| <= 50
  {
    BmpLength(s);
  }

  // ----- the sign-up object -------------------------------------------------

  const InvalidEmail := "Invalid email"

  datatype Field = UsernameField | EmailField | PasswordField

  /** One entry of zod's error report: the field it concerns and its message. */
  datatype Issue = Issue(field: Field, message: string)

  function Tagged(f: Field, messages: seq<string>): (r: seq<Issue>)
    ensures |r| == |messages|
  {
    seq(|messages|, i requires 0 <= i < |messages| => Issue(f, messages[i]))
  }

  /**
   * The issues `signUpSchema` reports: those of each field, in field order.
   * The email check is zod's built-in `.email()`, passed in as `isEmail`.
   */
  function SignUpIssues(username: string, email: string, password: string, isEmail: string -> bool): (r: seq<Issue>)
    ensures r == [] <==> UsernameValid(username) && isEmail(email) && 6 <= Utf16Length(password) <= 50
  {
    Tagged(UsernameField, UsernameIssues(username))
    + (if isEmail(email) then [] else [Issue(EmailField, InvalidEmail)])
    + Tagged(PasswordField, PasswordIssues(password))
  }

  // ----- message content ----------------------------------------------------

  const ContentTooShort := "Message must be at least 1 characters long."
  const ContentTooLong := "Message must be at most 500 characters long."

  /** The issues `messageSchema` reports for the content of a message. */
  function ContentIssues(content: string): (r: seq<string>)
    ensures r == [] <==> 1 <= Utf16Length(content) <= 500
  {
    (if Utf16Length(content) < 1 then [ContentTooShort] else [])
    + (if Utf16Length(content) > 500 then [ContentTooLong] else [])
  }

  /** The empty message is refused; 500 characters pass and 501 do not, whatever the characters. */
  lemma ContentBounds(content: string)
    requires IsBmp(content)
    ensures content == [] ==> ContentIssues(content) != []
    ensures |content| == 500 ==> ContentIssues(content) == []
    ensures |content| == 501 ==> ContentIssues(content) != []
  {
    BmpLength(content);
  }
}
