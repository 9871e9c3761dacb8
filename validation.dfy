/** The `validateAuthInput` middleware that runs before both the login and
    the signup handler: three checks, in a fixed order, each with its own
    400 message. */
module Validation {
  import opened Wrappers

  const StatusBadRequest: nat := 400
  const MinPasswordLength: nat := 8

  const MsgRequired := "Email and password are required"
  const MsgEmailFormat := "Invalid email format"
  const MsgPasswordLength := "Password must be at least 8 characters"

  /** The characters ECMAScript's `\s` class matches: its WhiteSpace and
      LineTerminator code points. */
  predicate IsSpace(c: char) {
    c == '\t' || c == '\n' || c == '\U{000B}' || c == '\U{000C}' || c == '\r' || c == ' '
    || c == '\U{00A0}' || c == '\U{1680}' || ('\U{2000}' <= c <= '\U{200A}')
    || c == '\U{2028}' || c == '\U{2029}' || c == '\U{202F}' || c == '\U{205F}'
    || c == '\U{3000}' || c == '\U{FEFF}'
  }

  /** One character of the class `[^\s@]`. */
  predicate Plain(c: char) {
    !IsSpace(c) && c != '@'
  }

  /** Every character of `s` is in `[^\s@]`. */
  predicate AllPlain(s: string) {
    forall k :: 0 <= k < |s| ==> Plain(s[k])
  }

  /** The pattern `^[^\s@]+@[^\s@]+\.[^\s@]+$`, read as the concatenation it
      is: a non-empty plain run `s[..i]`, the `@` at `i`, a non-empty plain
      run `s[i+1..j]`, a `.` at `j`, and a non-empty plain run `s[j+1..]`. */
  predicate EmailPattern(s: string) {
    exists i, j :: 0 < i && i + 1 < j < |s| - 1 && s[i] == '@' && s[j] == '.'
      && AllPlain(s[..i]) && AllPlain(s[i+1..j]) && AllPlain(s[j+1..])
  }

  /** The same language described by where its characters may be: exactly
      one `@`, which is not the first character; no whitespace and no other
      `@` anywhere; and, after the `@`, a `.` that is neither the first nor
      the last character of the domain. */
  predicate EmailShape(s: string) {
    exists a :: 0 < a < |s| && s[a] == '@'
      && (forall k :: 0 <= k < |s| && k != a ==> Plain(s[k]))
      && (exists d :: a + 1 < d < |s| - 1 && s[d] == '.')
  }

  /** The `[^\s@]` runs of the pattern match exactly the strings of that shape. */
  lemma EmailPatternIff(s: string)
    ensures EmailPattern(s) <==> EmailShape(s)
  {
  }

  /** `String.prototype.length`: the number of UTF-16 code units, one for a
      code point up to U+FFFF and two (a surrogate pair) above it. */
  function Utf16Length(s: string): (n: nat)
    ensures |s| <= n <= 2 * |s|
    ensures (forall k :: 0 <= k < |s| ==> s[k] <= '\U{FFFF}') ==> n == |s|
  {
    if s == [] then 0
    else
      assert forall k :: 0 <= k < |s| - 1 ==> s[1..][k] == s[k + 1];
      (if s[0] <= '\U{FFFF}' then 1 else 2) + Utf16Length(s[1..])
  }

  /** JavaScript truthiness of a request body field: sent, and not `""`. */
  predicate Truthy(field: Option<string>) {
    field.Some? && field.value != ""
  }

  /** What the middleware decides: pass the credentials on to the handler,
      or answer with a status and a message. */
  datatype Verdict = Admit(email: string, password: string) | Reject(status: nat, message: string)

  /** `validateAuthInput`: the first failing check decides the message; only
      a request passing all three reaches a handler. */
  function Validate(email: Option<string>, password: Option<string>): (v: Verdict)
    // a missing or empty field is reported before anything else is looked at
    ensures !Truthy(email) || !Truthy(password) ==> v == Reject(StatusBadRequest, MsgRequired)
    // a malformed email is reported whatever the password is
    ensures (Truthy(email) && Truthy(password) && !EmailPattern(email.value))
              ==> v == Reject(StatusBadRequest, MsgEmailFormat)
    ensures (Truthy(email) && Truthy(password) && EmailPattern(email.value)
             && Utf16Length(password.value) < MinPasswordLength)
              ==> v == Reject(StatusBadRequest, MsgPasswordLength)
    ensures v.Admit? <==> Truthy(email) && Truthy(password) && EmailShape(email.value)
                          && Utf16Length(password.value) >= MinPasswordLength
    ensures v.Admit? ==> email == Some(v.email) && password == Some(v.password)
  {
    if !Truthy(email) || !Truthy(password) then Reject(StatusBadRequest, MsgRequired)
    else if !EmailPattern(email.value) then
      EmailPatternIff(email.value);
      Reject(StatusBadRequest, MsgEmailFormat)
    else if Utf16Length(password.value) < MinPasswordLength then Reject(StatusBadRequest, MsgPasswordLength)
    else
      EmailPatternIff(email.value);
      Admit(email.value, password.value)
  }

  /** `a@b.com`, the email of the worked example, matches the pattern. */
  lemma ExampleEmailMatches()
    ensures EmailPattern("a@b.com")
  {
    var s := "a@b.com";
    assert s[..1] == "a" && s[2..3] == "b" && s[4..] == "com";
    assert 0 < 1 && 1 + 1 < 3 < |s| - 1 && s[1] == '@' && s[3] == '.'
      && AllPlain(s[..1]) && AllPlain(s[1+1..3]) && AllPlain(s[3+1..]);
  }

  /** A string without `@` never matches the pattern. */
  lemma NoAtNoMatch(s: string)
    requires forall k :: 0 <= k < |s| ==> s[k] != '@'
    ensures !EmailPattern(s)
  {
  }

  /** `a@b.com` with any password of at least eight code units is admitted. */
  lemma ExampleEmailAdmits(password: string)
    requires Utf16Length(password) >= MinPasswordLength
    ensures Validate(Some("a@b.com"), Some(password)) == Admit("a@b.com", password)
  {
    ExampleEmailMatches();
  }

  /** `not-an-email` is reported as a format problem, whatever the password. */
  lemma ExampleEmailRejected(password: string)
    requires password != ""
    ensures Validate(Some("not-an-email"), Some(password)) == Reject(StatusBadRequest, MsgEmailFormat)
  {
    NoAtNoMatch("not-an-email");
  }
}
