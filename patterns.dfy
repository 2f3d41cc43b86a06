/**
 * The regular expressions the front-end forms test, each as a predicate
 * over the string: the e-mail shape `^\S+@\S+\.\S+$`, the mobile number
 * `^0(7[0-9]{8})$`, the loose phone number `^[+\d][\d\s()-]{6,}$`, the
 * password character classes `(?=.*[a-z])`, `(?=.*[A-Z])`, `(?=.*\d)`,
 * `(?=.*[@$!%*?&])`, and the OTP shapes `^\d*$` and `^\d{6}$`.
 */
module Patterns {
  import opened Wrappers
  import opened Text

  // ---------------------------------------------------------------- e-mail

  /** `^\S+@\S+\.\S+$`: no white space, and an `@` after at least one
      character, followed after at least one more character by a `.` that
      has at least one character after it. */
  ghost predicate EmailShape(s: string) {
    NoSpace(s) &&
    exists a: nat, d: nat :: 1 <= a && a + 1 < d && d + 1 < |s| && s[a] == '@' && s[d] == '.'
  }

  /** The first index at or after `from` holding `c`, if any. */
  function IndexFrom(s: string, c: char, from: nat): (r: Option<nat>)
    ensures r.Some? ==> from <= r.value < |s| && s[r.value] == c
    ensures r.Some? ==> forall k | from <= k < r.value :: s[k] != c
    ensures r.None? ==> forall k | from <= k < |s| :: s[k] != c
    decreases |s| - from
  {
    if from >= |s| then None
    else if s[from] == c then Some(from)
    else IndexFrom(s, c, from + 1)
  }

  /** The executable test: take the first `@` after the first character and
      look for a `.` with a character on each side after it. */
  function IsEmail(s: string): (b: bool)
    ensures b <==> EmailShape(s)
  {
    match IndexFrom(s, '@', 1)
    case None =>
      assert forall a: nat | 1 <= a < |s| :: s[a] != '@';
      false
    case Some(a) =>
      EmailFromFirstAt(s, a);
      NoSpace(s) && a + 2 <= |s| - 1 && '.' in s[a + 2..|s| - 1]
  }

  /** With `a` the first `@` after the first character, the shape holds
      exactly when a `.` lies strictly inside `s[a + 1..|s| - 1]`. */
  lemma EmailFromFirstAt(s: string, a: nat)
    requires 1 <= a < |s| && s[a] == '@'
    requires forall k | 1 <= k < a :: s[k] != '@'
    ensures EmailShape(s) <==> NoSpace(s) && a + 2 <= |s| - 1 && '.' in s[a + 2..|s| - 1]
  {
    if NoSpace(s) && a + 2 <= |s| - 1 && '.' in s[a + 2..|s| - 1] {
      var k :| 0 <= k < |s[a + 2..|s| - 1]| && s[a + 2..|s| - 1][k] == '.';
      assert s[a + 2 + k] == '.';
    }
    if EmailShape(s) {
      var a', d :| 1 <= a' && a' + 1 < d && d + 1 < |s| && s[a'] == '@' && s[d] == '.';
      assert a <= a';
      assert s[a + 2..|s| - 1][d - (a + 2)] == '.';
    }
  }

  // ---------------------------------------------------------------- phones

  /** `^0(7[0-9]{8})$`: exactly ten ASCII digits, starting with `07`. */
  predicate IsMobile(s: string) {
    |s| == 10 && s[0] == '0' && s[1] == '7' && AllDigits(s[2..])
  }

  /** A character `[\d\s()-]` matches. */
  predicate PhoneBodyChar(c: char) {
    IsDigit(c) || IsSpace(c) || c == '(' || c == ')' || c == '-'
  }

  /** `^[+\d][\d\s()-]{6,}$`: a `+` or digit, then at least six digits,
      white space, parentheses or dashes. */
  predicate IsLoosePhone(s: string) {
    |s| >= 7 && (s[0] == '+' || IsDigit(s[0]))
    && forall i | 1 <= i < |s| :: PhoneBodyChar(s[i])
  }

  /** Every mobile number is also a loose phone number. */
  lemma MobileIsLoosePhone(s: string)
    requires IsMobile(s)
    ensures IsLoosePhone(s)
  {
    forall i | 1 <= i < |s| ensures PhoneBodyChar(s[i]) {
      if i >= 2 {
        assert s[i] == s[2..][i - 2];
      }
    }
  }

  // -------------------------------------------------------- password classes

  predicate IsLowerAscii(c: char) { 'a' <= c <= 'z' }
  predicate IsUpperAscii(c: char) { 'A' <= c <= 'Z' }
  predicate IsSpecial(c: char) {
    c == '@' || c == '$' || c == '!' || c == '%' || c == '*' || c == '?' || c == '&'
  }

  /** `(?=.*[a-z])`: some lower-case ASCII letter occurs. */
  predicate HasLower(s: string) { exists i | 0 <= i < |s| :: IsLowerAscii(s[i]) }
  /** `(?=.*[A-Z])`: some upper-case ASCII letter occurs. */
  predicate HasUpper(s: string) { exists i | 0 <= i < |s| :: IsUpperAscii(s[i]) }
  /** `(?=.*\d)`: some ASCII digit occurs. */
  predicate HasDigit(s: string) { exists i | 0 <= i < |s| :: IsDigit(s[i]) }
  /** `(?=.*[@$!%*?&])`: one of the seven special characters occurs. */
  predicate HasSpecial(s: string) { exists i | 0 <= i < |s| :: IsSpecial(s[i]) }

  /** The password strength policy shared by registration, password change
      and password reset: eight characters and all four classes. */
  predicate StrongPassword(s: string) {
    |s| >= 8 && HasLower(s) && HasUpper(s) && HasDigit(s) && HasSpecial(s)
  }

  // ------------------------------------------------------------------- OTP

  /** `^\d*$`. */
  predicate OnlyDigits(s: string) { AllDigits(s) }

  /** `^\d{6}$`. */
  predicate SixDigits(s: string) { |s| == 6 && AllDigits(s) }
}
