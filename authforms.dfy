/** The client-side form schemas of client/src/pages/auth-page.tsx as predicates.
    zod's `.email()` check is the parameter `isEmail`. */
module AuthForms {
  import opened Hex
  import Email

  type EmailCheck = string -> bool

  const MinPasswordLength: nat := 6
  const MinUsernameLength: nat := 3

  predicate IsLower(c: char) { 'a' <= c <= 'z' }
  predicate IsUpper(c: char) { 'A' <= c <= 'Z' }

  /** The characters a JavaScript regular expression's `.` does not match. */
  predicate IsLineTerminator(c: char) {
    c == '\n' || c == '\r' || c == '\U{2028}' || c == '\U{2029}'
  }

  /** The longest prefix without a line terminator: what `^.*` can reach. */
  function FirstLine(s: string): (r: string)
    ensures r <= s
    ensures forall i :: 0 <= i < |r| ==> !IsLineTerminator(r[i])
    ensures |r| < |s| ==> IsLineTerminator(s[|r|])
  {
    if s == [] || IsLineTerminator(s[0]) then [] else [s[0]] + FirstLine(s[1..])
  }

  predicate HasLower(s: string) { exists i :: 0 <= i < |s| && IsLower(s[i]) }
  predicate HasUpper(s: string) { exists i :: 0 <= i < |s| && IsUpper(s[i]) }
  predicate HasDigit(s: string) { exists i :: 0 <= i < |s| && IsDecimalChar(s[i]) }

  /** `z.string().min(6)` on the login password. */
  predicate LoginPasswordValid(password: string) {
    |password| >= MinPasswordLength
  }

  /** `z.string().min(3)` on the username. */
  predicate UsernameValid(username: string) {
    |username| >= MinUsernameLength
  }

  /** `.min(6).regex(/^(?=.*[a-z])(?=.*[A-Z])(?=.*\d)/)`: each lookahead starts at the
      beginning and `.` stops at a line break, so the three kinds of character must
      all occur on the first line. */
  predicate RegisterPasswordValid(password: string) {
    var line := FirstLine(password);
    |password| >= MinPasswordLength && HasLower(line) && HasUpper(line) && HasDigit(line)
  }

  /** `z.string().length(6)` on the verification code. */
  predicate CodeValid(code: string) {
    |code| == Email.CodeLength
  }

  predicate LoginFormValid(isEmail: EmailCheck, email: string, password: string) {
    isEmail(email) && LoginPasswordValid(password)
  }

  predicate RegisterFormValid(isEmail: EmailCheck, email: string, username: string, password: string) {
    isEmail(email) && UsernameValid(username) && RegisterPasswordValid(password)
  }

  predicate VerifyFormValid(code: string) {
    CodeValid(code)
  }

  /** Every password the register form accepts, the login form accepts. */
  lemma RegisterPasswordIsLoginPassword(password: string)
    ensures RegisterPasswordValid(password) ==> LoginPasswordValid(password)
  {
  }

  /** Every registration the form accepts has a password the login form accepts. */
  lemma RegisterFormImpliesLoginForm(isEmail: EmailCheck, email: string, username: string, password: string)
    ensures RegisterFormValid(isEmail, email, username, password) ==> LoginFormValid(isEmail, email, password)
  {
  }

  /** Every code the server issues passes the verify form. */
  lemma IssuedCodePassesVerifyForm(random: seq<byte>)
    requires |random| == Email.CodeBytes
    ensures VerifyFormValid(Email.GenerateVerificationCode(random))
  {
  }

  /** On a password without line breaks the regex means: at least one lower-case
      letter, one upper-case letter and one digit somewhere. */
  lemma RegisterPasswordOneLine(password: string)
    requires forall i :: 0 <= i < |password| ==> !IsLineTerminator(password[i])
    ensures RegisterPasswordValid(password)
      <==> |password| >= MinPasswordLength && HasLower(password) && HasUpper(password) && HasDigit(password)
  {
    assert FirstLine(password) == password;
  }

  /** A line break hides what follows it from the lookaheads: this password has all
      three kinds of character but not on its first line. */
  lemma RegisterPasswordLineBreak()
    ensures HasLower("abcdef\nA1") && HasUpper("abcdef\nA1") && HasDigit("abcdef\nA1")
    ensures !RegisterPasswordValid("abcdef\nA1")
  {
    var p := "abcdef\nA1";
    assert IsUpper(p[7]) && IsDecimalChar(p[8]) && IsLower(p[0]);
    var line := FirstLine(p);
    assert IsLineTerminator(p[6]);
    assert !HasUpper(line) by {
      forall i | 0 <= i < |line| ensures !IsUpper(line[i]) {
        assert line[i] == p[i];
      }
    }
  }
}
