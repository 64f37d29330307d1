/** Strings the way the Rails code reads them: blankness, decimal numerals and ordering. */
module Text {
  import opened Wrappers

  /** The characters of Ruby's `[[:space:]]`, the class behind `blank?`. */
  predicate IsSpace(c: char) {
    || c in " \t\n\r\U{B}\U{C}\U{85}\U{A0}\U{1680}\U{2028}\U{2029}\U{202F}\U{205F}\U{3000}"
    || '\U{2000}' <= c <= '\U{200A}'
  }

  predicate Blank(s: string) {
    forall i | 0 <= i < |s| :: IsSpace(s[i])
  }

  /** `value.to_s.presence` on an optional string. */
  function Presence(s: Option<string>): Option<string> {
    if s.Some? && !Blank(s.value) then s else None
  }

  // ----- `String#strip`

  /** What `strip` removes at either end: whitespace and NUL. */
  predicate Strippable(c: char) { c in "\0\t\n\r \U{B}\U{C}" }

  function StripLeft(s: string): string { if s != [] && Strippable(s[0]) then StripLeft(s[1..]) else s }

  function StripRight(s: string): string { if s != [] && Strippable(s[|s| - 1]) then StripRight(s[..|s| - 1]) else s }

  function Strip(s: string): string { StripRight(StripLeft(s)) }

  predicate Contains(s: string, part: string) {
    exists i | 0 <= i <= |s| :: part <= s[i..]
  }

  // ----- decimal numerals

  predicate IsDigit(c: char) { '0' <= c <= '9' }

  function DigitChar(d: nat): char
    requires d < 10
  {
    '0' + d as char
  }

  function DigitValue(c: char): nat
    requires IsDigit(c)
  {
    (c - '0') as nat
  }

  function Digits(n: nat): (s: string)
    ensures s != [] && forall i | 0 <= i < |s| :: IsDigit(s[i])
  {
    if n < 10 then [DigitChar(n)] else Digits(n / 10) + [DigitChar(n % 10)]
  }

  function ReadDigits(s: string): nat
    requires forall i | 0 <= i < |s| :: IsDigit(s[i])
  {
    if s == [] then 0 else 10 * ReadDigits(s[..|s| - 1]) + DigitValue(s[|s| - 1])
  }

  lemma {:induction false} ReadDigitsOfDigits(n: nat)
    ensures ReadDigits(Digits(n)) == n
  {
    if n >= 10 {
      ReadDigitsOfDigits(n / 10);
      assert Digits(n)[..|Digits(n)| - 1] == Digits(n / 10);
    }
  }

  // ----- splitting at a separator

  /** Two strings joined at a separator their left halves do not contain are equal only
      when both halves are. */
  lemma {:induction false} SplitAtFirst(a: string, b: string, a': string, b': string, sep: char)
    requires sep !in a && sep !in a'
    requires a + [sep] + b == a' + [sep] + b'
    ensures a == a' && b == b'
  {
    var w := a + [sep] + b;
    assert w[|a|] == sep && w[|a'|] == sep;
    assert forall i | 0 <= i < |a| :: w[i] == a[i];
    assert forall i | 0 <= i < |a'| :: w[i] == a'[i];
    assert |a| == |a'|;
    assert a == w[..|a|] && a' == w[..|a'|];
    assert b == w[|a| + 1..] && b' == w[|a'| + 1..];
  }

  /** The same at the last separator, when the right halves do not contain it. */
  lemma {:induction false} SplitAtLast(a: string, b: string, a': string, b': string, sep: char)
    requires sep !in b && sep !in b'
    requires a + [sep] + b == a' + [sep] + b'
    ensures a == a' && b == b'
  {
    var w := a + [sep] + b;
    assert w[|a|] == sep && w[|a'|] == sep;
    assert forall i | |a| < i < |w| :: w[i] == b[i - |a| - 1];
    assert forall i | |a'| < i < |w| :: w[i] == b'[i - |a'| - 1];
    assert |a| == |a'|;
    assert a == w[..|a|] && a' == w[..|a'|];
    assert b == w[|a| + 1..] && b' == w[|a'| + 1..];
  }

  // ----- ordering

  /** Ruby's `<=` on strings: lexicographic by code point. */
  predicate StringLeq(s: string, t: string)
    decreases |s|
  {
    || s == []
    || (t != [] && (s[0] < t[0] || (s[0] == t[0] && StringLeq(s[1..], t[1..]))))
  }

  lemma {:induction false} StringLeqTotal(s: string, t: string)
    ensures StringLeq(s, t) || StringLeq(t, s)
    decreases |s|
  {
    if s != [] && t != [] && s[0] == t[0] {
      StringLeqTotal(s[1..], t[1..]);
    }
  }

  lemma {:induction false} StringLeqAntisymmetric(s: string, t: string)
    requires StringLeq(s, t) && StringLeq(t, s)
    ensures s == t
    decreases |s|
  {
    if s != [] && t != [] {
      StringLeqAntisymmetric(s[1..], t[1..]);
      assert s == [s[0]] + s[1..] && t == [t[0]] + t[1..];
    }
  }

  lemma {:induction false} StringLeqTransitive(s: string, t: string, u: string)
    requires StringLeq(s, t) && StringLeq(t, u)
    ensures StringLeq(s, u)
    decreases |s|
  {
    if s != [] && t != [] && u != [] && s[0] == t[0] == u[0] {
      StringLeqTransitive(s[1..], t[1..], u[1..]);
    }
  }
}
