/**
 * String operations the shop relies on, in the two flavours it uses them:
 * JavaScript's `trim`/`\s` in the front end and Java's `String.trim` in the
 * back end; plus ASCII case mapping, substring search, split/join and the
 * decimal rendering of integers (`${n}` in JavaScript, `"" + n` in Java).
 */
module Text {

  /** The characters ECMAScript's `\s` matches and `String.prototype.trim`
      removes: WhiteSpace and LineTerminator. */
  predicate IsSpace(c: char) {
    c == '\t' || c == '\n' || c == '\U{000B}' || c == '\U{000C}' || c == '\r' || c == ' '
    || c == '\U{00A0}' || c == '\U{1680}' || ('\U{2000}' <= c <= '\U{200A}')
    || c == '\U{2028}' || c == '\U{2029}' || c == '\U{202F}' || c == '\U{205F}'
    || c == '\U{3000}' || c == '\U{FEFF}'
  }

  /** The characters Java's `String.trim` removes: every code point up to U+0020. */
  predicate IsJavaTrimmed(c: char) {
    c <= ' '
  }

  /** Which `trim` is meant: JavaScript's or Java's. */
  datatype Flavour = Js | Java

  /** The characters a `trim` of the given flavour removes. */
  predicate Dropped(fl: Flavour, c: char) {
    match fl
    case Js => IsSpace(c)
    case Java => IsJavaTrimmed(c)
  }

  /** Every character of `s` is removed by a `trim` of flavour `fl`. */
  predicate AllBy(s: string, fl: Flavour) {
    forall i | 0 <= i < |s| :: Dropped(fl, s[i])
  }

  /** No character of `s` is a JavaScript white-space character (`\S+`). */
  predicate NoSpace(s: string) {
    forall i | 0 <= i < |s| :: !IsSpace(s[i])
  }

  /** Removes the leading characters `trim` drops. */
  function StripStart(s: string, fl: Flavour): string {
    if s != [] && Dropped(fl, s[0]) then StripStart(s[1..], fl) else s
  }

  /** Removes the trailing characters `trim` drops. */
  function StripEnd(s: string, fl: Flavour): string {
    if s != [] && Dropped(fl, s[|s| - 1]) then StripEnd(s[..|s| - 1], fl) else s
  }

  /** Removes the characters `trim` drops at both ends. */
  function Strip(s: string, fl: Flavour): string {
    StripEnd(StripStart(s, fl), fl)
  }

  /** JavaScript `s.trim()`. */
  function Trim(s: string): string {
    Strip(s, Js)
  }

  /** Java `s.trim()`. */
  function JavaTrim(s: string): string {
    Strip(s, Java)
  }

  /** Stripping the start keeps a suffix whose cut-off part is all dropped
      characters and whose first character is kept. */
  lemma {:induction false} StripStartFacts(s: string, fl: Flavour)
    ensures var r := StripStart(s, fl);
      |r| <= |s| && r == s[|s| - |r|..] && AllBy(s[..|s| - |r|], fl)
      && (r != [] ==> !Dropped(fl, r[0]))
  {
    if s != [] && Dropped(fl, s[0]) {
      var r := StripStart(s[1..], fl);
      StripStartFacts(s[1..], fl);
      assert s[..|s| - |r|] == [s[0]] + s[1..][..|s| - 1 - |r|];
    }
  }

  /** Stripping the end keeps a prefix whose cut-off part is all dropped
      characters and whose last character is kept. */
  lemma {:induction false} StripEndFacts(s: string, fl: Flavour)
    ensures var r := StripEnd(s, fl);
      |r| <= |s| && r == s[..|r|] && AllBy(s[|r|..], fl)
      && (r != [] ==> !Dropped(fl, r[|r| - 1]))
  {
    if s != [] && Dropped(fl, s[|s| - 1]) {
      var r := StripEnd(s[..|s| - 1], fl);
      StripEndFacts(s[..|s| - 1], fl);
      assert s[|r|..] == s[..|s| - 1][|r|..] + [s[|s| - 1]];
    }
  }

  /** Stripping yields a slice of the input whose cut-off ends consist only of
      dropped characters and whose own ends are kept characters. */
  lemma StripIsCore(s: string, fl: Flavour)
    ensures var r := Strip(s, fl);
      exists i :: 0 <= i <= i + |r| <= |s| && r == s[i..i + |r|]
        && AllBy(s[..i], fl) && AllBy(s[i + |r|..], fl)
    ensures var r := Strip(s, fl); r != [] ==> !Dropped(fl, r[0]) && !Dropped(fl, r[|r| - 1])
  {
    var t := StripStart(s, fl);
    var r := StripEnd(t, fl);
    StripStartFacts(s, fl);
    StripEndFacts(t, fl);
    var i := |s| - |t|;
    assert r == s[i..i + |r|];
    assert s[i + |r|..] == t[|r|..];
    if r != [] {
      assert r[0] == t[0];
    }
  }

  /** The result is empty exactly when every character is dropped. */
  lemma StripEmptyIffAll(s: string, fl: Flavour)
    ensures Strip(s, fl) == [] <==> AllBy(s, fl)
  {
    var t := StripStart(s, fl);
    var r := StripEnd(t, fl);
    StripStartFacts(s, fl);
    StripEndFacts(t, fl);
    if r == [] {
      assert t[|r|..] == t;
      assert t == [];
      assert s[..|s| - |t|] == s;
    }
    if AllBy(s, fl) && s != [] {
      assert t == [] by {
        assert t == s[|s| - |t|..];
      }
    }
  }

  /** Stripping twice is stripping once. */
  lemma StripIdempotent(s: string, fl: Flavour)
    ensures Strip(Strip(s, fl), fl) == Strip(s, fl)
  {
    var r := Strip(s, fl);
    StripIsCore(s, fl);
    StripUnchanged(r, fl);
  }

  /** A string with kept characters at both ends is its own stripping. */
  lemma StripUnchanged(s: string, fl: Flavour)
    requires s != [] ==> !Dropped(fl, s[0]) && !Dropped(fl, s[|s| - 1])
    ensures Strip(s, fl) == s
  {
    assert StripStart(s, fl) == s;
  }

  /** `s.trim() === ""` exactly when `s` is all JavaScript white space. */
  lemma TrimEmptyIffBlank(s: string)
    ensures Trim(s) == [] <==> AllBy(s, Js)
  {
    StripEmptyIffAll(s, Js);
  }

  /** JavaScript's `trim` is idempotent. */
  lemma TrimIdempotent(s: string)
    ensures Trim(Trim(s)) == Trim(s)
  {
    StripIdempotent(s, Js);
  }

  /** Java's `trim` is idempotent. */
  lemma JavaTrimIdempotent(s: string)
    ensures JavaTrim(JavaTrim(s)) == JavaTrim(s)
  {
    StripIdempotent(s, Java);
  }

  /** The trimmed text is never longer than the input. */
  lemma TrimShorter(s: string)
    ensures |Trim(s)| <= |s|
  {
    StripStartFacts(s, Js);
    StripEndFacts(StripStart(s, Js), Js);
  }

  // ---------------------------------------------------------------- case

  /** `toLowerCase` of one ASCII character; other characters are kept. */
  function LowerChar(c: char): (d: char)
    ensures !('A' <= d <= 'Z')
    ensures 'a' <= d <= 'z' <==> 'A' <= c <= 'Z' || 'a' <= c <= 'z'
  {
    if 'A' <= c <= 'Z' then (c as int + 32) as char else c
  }

  /** `toUpperCase` of one ASCII character; other characters are kept. */
  function UpperChar(c: char): (d: char)
    ensures !('a' <= d <= 'z')
    ensures 'A' <= d <= 'Z' <==> 'A' <= c <= 'Z' || 'a' <= c <= 'z'
  {
    if 'a' <= c <= 'z' then (c as int - 32) as char else c
  }

  /** `s.toLowerCase()` over ASCII letters. */
  function Lower(s: string): (r: string)
    ensures |r| == |s|
    ensures forall i | 0 <= i < |s| :: r[i] == LowerChar(s[i])
  {
    seq(|s|, i requires 0 <= i < |s| => LowerChar(s[i]))
  }

  /** `s.toUpperCase()` over ASCII letters. */
  function Upper(s: string): (r: string)
    ensures |r| == |s|
    ensures forall i | 0 <= i < |s| :: r[i] == UpperChar(s[i])
  {
    seq(|s|, i requires 0 <= i < |s| => UpperChar(s[i]))
  }

  /** Lower-casing twice is lower-casing once. */
  lemma LowerIdempotent(s: string)
    ensures Lower(Lower(s)) == Lower(s)
  {
    forall i | 0 <= i < |s| ensures Lower(Lower(s))[i] == Lower(s)[i] {
      var c := s[i];
      if 'A' <= c <= 'Z' {
        assert LowerChar(c) == (c as int + 32) as char;
      }
    }
  }

  // ---------------------------------------------------------- substrings

  /** `needle` occurs in `hay` starting at index `i`. */
  predicate OccursAt(hay: string, needle: string, i: nat) {
    i + |needle| <= |hay| && hay[i..i + |needle|] == needle
  }

  /** `hay` contains `needle` somewhere. */
  ghost predicate Contains(hay: string, needle: string) {
    exists i: nat :: OccursAt(hay, needle, i)
  }

  /** `hay.includes(needle)`: the search the list filters run. */
  function Includes(hay: string, needle: string): (b: bool)
    ensures b <==> Contains(hay, needle)
  {
    if needle <= hay then
      assert OccursAt(hay, needle, 0);
      true
    else if hay == [] then
      false
    else
      ContainsShift(hay, needle);
      Includes(hay[1..], needle)
  }

  /** Past a non-matching first position, `hay` contains `needle` exactly when
      its tail does. */
  lemma ContainsShift(hay: string, needle: string)
    requires hay != [] && !(needle <= hay)
    ensures Contains(hay, needle) <==> Contains(hay[1..], needle)
  {
    if Contains(hay[1..], needle) {
      var i: nat :| OccursAt(hay[1..], needle, i);
      assert hay[i + 1..i + 1 + |needle|] == hay[1..][i..i + |needle|];
      assert OccursAt(hay, needle, i + 1);
    }
    if Contains(hay, needle) {
      var i: nat :| OccursAt(hay, needle, i);
      assert i != 0;
      assert hay[1..][i - 1..i - 1 + |needle|] == hay[i..i + |needle|];
      assert OccursAt(hay[1..], needle, i - 1);
    }
  }

  /** Every string includes the empty string. */
  lemma IncludesEmpty(hay: string)
    ensures Includes(hay, "")
  {
    assert OccursAt(hay, "", 0);
  }

  /** A string contained in a substring of `hay` is contained in `hay`. */
  lemma ContainsTrans(hay: string, mid: string, needle: string)
    requires Contains(hay, mid) && Contains(mid, needle)
    ensures Contains(hay, needle)
  {
    var i: nat :| OccursAt(hay, mid, i);
    var j: nat :| OccursAt(mid, needle, j);
    var found := hay[i + j..i + j + |needle|];
    forall t | 0 <= t < |needle| ensures found[t] == needle[t] {
      assert found[t] == hay[i..i + |mid|][j + t];
      assert needle[t] == mid[j..j + |needle|][t];
    }
    assert found == needle;
    assert OccursAt(hay, needle, i + j);
  }

  /** Lower-casing keeps an occurrence. */
  lemma LowerContains(hay: string, needle: string)
    requires Contains(hay, needle)
    ensures Contains(Lower(hay), Lower(needle))
  {
    var i: nat :| OccursAt(hay, needle, i);
    assert Lower(hay)[i..i + |needle|] == Lower(needle);
    assert OccursAt(Lower(hay), Lower(needle), i);
  }

  /** Each joined part occurs in the joined string. */
  lemma {:induction false} JoinContains(parts: seq<string>, sep: string, k: nat)
    requires k < |parts|
    ensures Contains(Join(parts, sep), parts[k])
  {
    var j := Join(parts, sep);
    if |parts| == 1 {
      assert OccursAt(j, parts[k], 0);
    } else if k == 0 {
      assert j[..|parts[0]|] == parts[0];
      assert OccursAt(j, parts[0], 0);
    } else {
      var rest := Join(parts[1..], sep);
      JoinContains(parts[1..], sep, k - 1);
      var off := |parts[0] + sep|;
      assert j == parts[0] + sep + rest;
      assert j[off..] == rest;
      assert OccursAt(j, rest, off);
      ContainsTrans(j, rest, parts[k]);
    }
  }

  // ---------------------------------------------------------- split, join

  /** `parts.join(sep)`. */
  function Join(parts: seq<string>, sep: string): string {
    if |parts| == 0 then ""
    else if |parts| == 1 then parts[0]
    else parts[0] + sep + Join(parts[1..], sep)
  }

  /** `s.split(sep)` for a one-character separator: the maximal runs between
      separators, empty runs included. */
  function Split(s: string, sep: char): (parts: seq<string>)
    ensures |parts| >= 1
    ensures forall p | p in parts :: sep !in p
  {
    if s == [] then [""]
    else
      var rest := Split(s[1..], sep);
      if s[0] == sep then [""] + rest
      else [[s[0]] + rest[0]] + rest[1..]
  }

  /** Joining the pieces of a split with the separator gives back the string. */
  lemma {:induction false} SplitJoin(s: string, sep: char)
    ensures Join(Split(s, sep), [sep]) == s
  {
    if s != [] {
      var rest := Split(s[1..], sep);
      SplitJoin(s[1..], sep);
      if s[0] == sep {
        assert Split(s, sep)[1..] == rest;
      } else {
        var parts := Split(s, sep);
        assert parts[1..] == rest[1..];
        if |rest| == 1 {
          assert Join(parts, [sep]) == [s[0]] + rest[0];
        } else {
          assert Join(rest, [sep]) == rest[0] + [sep] + Join(rest[1..], [sep]);
        }
      }
    }
  }

  /** A string without the separator is a single piece. */
  lemma {:induction false} SplitNoSeparator(s: string, sep: char)
    requires sep !in s
    ensures Split(s, sep) == [s]
  {
    if s != [] {
      SplitNoSeparator(s[1..], sep);
      assert [s[0]] + s[1..] == s;
    }
  }

  /** A separator after a separator-free prefix ends the first piece. */
  lemma {:induction false} SplitAt(a: string, sep: char, b: string)
    requires sep !in a
    ensures Split(a + [sep] + b, sep) == [a] + Split(b, sep)
  {
    if a != [] {
      assert (a + [sep] + b)[1..] == a[1..] + [sep] + b;
      SplitAt(a[1..], sep, b);
      assert [a[0]] + a[1..] == a;
    } else {
      assert (a + [sep] + b)[0] == sep;
      assert (a + [sep] + b)[1..] == b;
    }
  }

  /** The non-empty strings of `parts`, in order: `.filter(Boolean)`. */
  function NonEmpty(parts: seq<string>): (r: seq<string>)
    ensures forall p | p in r :: p != [] && p in parts
    ensures |r| <= |parts|
  {
    if parts == [] then []
    else if parts[0] == [] then NonEmpty(parts[1..])
    else [parts[0]] + NonEmpty(parts[1..])
  }

  /** The words of `s`: the non-empty pieces between single spaces. */
  function Words(s: string): (r: seq<string>)
    ensures forall w | w in r :: w != [] && ' ' !in w
  {
    NonEmpty(Split(s, ' '))
  }

  // ---------------------------------------------------- decimal rendering

  predicate IsDigit(c: char) {
    '0' <= c <= '9'
  }

  predicate AllDigits(s: string) {
    forall i | 0 <= i < |s| :: IsDigit(s[i])
  }

  function DigitChar(d: nat): (c: char)
    requires d < 10
    ensures IsDigit(c) && c as int - '0' as int == d
  {
    ('0' as int + d) as char
  }

  /** The number a string of decimal digits denotes. */
  function DecimalValue(s: string): nat
    requires AllDigits(s)
  {
    if s == [] then 0 else 10 * DecimalValue(s[..|s| - 1]) + (s[|s| - 1] as int - '0' as int)
  }

  /** The shortest decimal rendering of a natural number. */
  function NatToDecimal(n: nat): (r: string)
    ensures |r| >= 1 && AllDigits(r)
  {
    if n < 10 then [DigitChar(n)] else NatToDecimal(n / 10) + [DigitChar(n % 10)]
  }

  /** The rendering of an integer, with a leading `-` when negative. */
  function IntToDecimal(n: int): string {
    if n < 0 then "-" + NatToDecimal(-n) else NatToDecimal(n)
  }

  /** Reading a rendered number gives the number back. */
  lemma {:induction false} DecimalRoundTrip(n: nat)
    ensures DecimalValue(NatToDecimal(n)) == n
  {
    if n >= 10 {
      var r := NatToDecimal(n);
      DecimalRoundTrip(n / 10);
      assert r[..|r| - 1] == NatToDecimal(n / 10);
    }
  }

  /** A rendering starts with `-` exactly when the number is negative. */
  lemma SignChar(n: int)
    ensures IntToDecimal(n)[0] == '-' <==> n < 0
  {
    if n >= 0 {
      assert IsDigit(NatToDecimal(n)[0]);
    }
  }

  /** Different natural numbers render differently. */
  lemma NatToDecimalInjective(a: nat, b: nat)
    ensures NatToDecimal(a) == NatToDecimal(b) ==> a == b
  {
    DecimalRoundTrip(a);
    DecimalRoundTrip(b);
  }

  /** A negative and a non-negative number never render alike. */
  lemma SignSeparates(a: int, b: int)
    requires a < 0 <= b
    ensures IntToDecimal(a) != IntToDecimal(b)
  {
    SignChar(a);
    SignChar(b);
  }

  /** Different integers render differently. */
  lemma IntToDecimalInjective(a: int, b: int)
    ensures IntToDecimal(a) == IntToDecimal(b) ==> a == b
  {
    if a < 0 && b < 0 {
      NatToDecimalInjective(-a, -b);
      if IntToDecimal(a) == IntToDecimal(b) {
        assert NatToDecimal(-a) == IntToDecimal(a)[1..];
        assert NatToDecimal(-b) == IntToDecimal(b)[1..];
      }
    } else if a >= 0 && b >= 0 {
      NatToDecimalInjective(a, b);
    } else if a < 0 {
      SignSeparates(a, b);
    } else {
      SignSeparates(b, a);
    }
  }
}
