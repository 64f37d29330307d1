/** What the readings of strings mean. */
module TextFacts {
  import opened Wrappers
  import opened Text

  /** Whitespace as `blank?` knows it, by code point. */
  lemma SpacesListed(c: char)
    ensures IsSpace(c) <==>
      || 9 <= c as int <= 13 || c as int == 0x20 || c as int == 0x85 || c as int == 0xA0 || c as int == 0x1680
      || 0x2000 <= c as int <= 0x200A || c as int == 0x2028 || c as int == 0x2029 || c as int == 0x202F
      || c as int == 0x205F || c as int == 0x3000
  {
  }

  /** `strip` also takes NUL away, and of whitespace only that of ASCII. */
  lemma StrippableListed(c: char)
    ensures Strippable(c) <==> c as int == 0 || 9 <= c as int <= 13 || c as int == 0x20
  {
  }

  /** A value is present iff it has a character that is not whitespace. */
  lemma PresentIff(s: string)
    ensures Presence(None) == None
    ensures Presence(Some(s)) == (if exists i :: 0 <= i < |s| && !IsSpace(s[i]) then Some(s) else None)
  {
    hide IsSpace;
  }

  /** Stripping leaves what is between the first and the last character that stay. */
  lemma StripTrims(s: string) returns (from: nat, to: nat)
    ensures from <= to <= |s| && Strip(s) == s[from..to]
    ensures forall i | 0 <= i < |s| && !(from <= i < to) :: Strippable(s[i])
    ensures from < to ==> !Strippable(s[from]) && !Strippable(s[to - 1])
  {
    from := LeftTrims(s);
    var rest := s[from..];
    var n := RightTrims(rest);
    to := from + n;
    assert rest[..n] == s[from..to];
    assert forall i | to <= i < |s| :: s[i] == rest[i - from];
  }

  lemma {:induction false} LeftTrims(s: string) returns (n: nat)
    ensures n <= |s| && StripLeft(s) == s[n..]
    ensures forall i | 0 <= i < n :: Strippable(s[i])
    ensures n < |s| ==> !Strippable(s[n])
  {
    n := 0;
    if s != [] && Strippable(s[0]) {
      var k := LeftTrims(s[1..]);
      n := k + 1;
      assert s[1..][k..] == s[n..];
      assert forall i | 0 < i < n :: s[i] == s[1..][i - 1];
    }
  }

  lemma {:induction false} RightTrims(s: string) returns (n: nat)
    ensures n <= |s| && StripRight(s) == s[..n]
    ensures forall i | n <= i < |s| :: Strippable(s[i])
    ensures n > 0 ==> !Strippable(s[n - 1])
  {
    n := |s|;
    if s != [] && Strippable(s[|s| - 1]) {
      var init := s[..|s| - 1];
      n := RightTrims(init);
      assert init[..n] == s[..n];
      assert forall i | n <= i < |init| :: s[i] == init[i];
    }
  }

  /** One string contains another iff it has it between a front and a back. */
  lemma ContainsIff(s: string, part: string)
    ensures Contains(s, part) <==> exists front, back :: s == front + part + back
  {
    if Contains(s, part) {
      var i :| 0 <= i <= |s| && part <= s[i..];
      assert s == s[..i] + part + s[i..][|part|..];
    }
    if front, back :| s == front + part + back {
      assert s[|front|..] == part + back;
      assert part <= s[|front|..];
    }
  }

  /** Strings are compared at their first difference; a beginning comes before what it begins. */
  lemma {:induction false} FirstDifference(p: string, a: char, b: char, x: string, y: string)
    ensures StringLeq(p, p + x)
    ensures a < b ==> StringLeq(p + [a] + x, p + [b] + y) && !StringLeq(p + [b] + y, p + [a] + x)
    ensures !StringLeq(p + [a] + x, p)
    decreases |p|
  {
    var s, t := p + [a] + x, p + [b] + y;
    if p != [] {
      FirstDifference(p[1..], a, b, x, y);
      assert s[1..] == p[1..] + [a] + x && t[1..] == p[1..] + [b] + y && (p + x)[1..] == p[1..] + x;
    }
  }

  /** A number is written digit by digit, without leading zeros. */
  lemma DigitsWritten(n: nat, d: nat)
    requires d < 10
    ensures Digits(d) == ["0123456789"[d]]
    ensures n > 0 ==> Digits(10 * n + d) == Digits(n) + ["0123456789"[d]]
  {
    assert DigitChar(d) == "0123456789"[d];
  }
}
