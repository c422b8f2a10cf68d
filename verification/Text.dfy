/** The string operations the modelled code leans on: `strip`, `lower`, decimal numerals. */
module Text {

  /** What `str.strip()` removes, restricted to ASCII. */
  predicate IsSpace(c: char) {
    c == ' ' || '\t' <= c <= '\r' || '\U{1C}' <= c <= '\U{1F}'
  }

  function LStrip(s: string): string {
    if s != "" && IsSpace(s[0]) then LStrip(s[1..]) else s
  }

  function RStrip(s: string): string {
    if s != "" && IsSpace(s[|s| - 1]) then RStrip(s[..|s| - 1]) else s
  }

  function Strip(s: string): string {
    RStrip(LStrip(s))
  }

  predicate Trimmed(s: string) {
    s == "" || (!IsSpace(s[0]) && !IsSpace(s[|s| - 1]))
  }

  lemma {:induction false} LStripIsSuffix(s: string)
    ensures var r := LStrip(s);
      |r| <= |s| && s[|s| - |r|..] == r && (r != "" ==> !IsSpace(r[0]))
  {
    if s != "" && IsSpace(s[0]) {
      LStripIsSuffix(s[1..]);
    }
  }

  lemma {:induction false} RStripIsPrefix(s: string)
    ensures var r := RStrip(s);
      r <= s && (r != "" ==> !IsSpace(r[|r| - 1]))
  {
    if s != "" && IsSpace(s[|s| - 1]) {
      RStripIsPrefix(s[..|s| - 1]);
    }
  }

  /** Stripping always trims, and leaves a string alone exactly when it was trimmed. */
  lemma {:induction false} StripTrims(s: string)
    ensures Trimmed(Strip(s))
    ensures Strip(s) == s <==> Trimmed(s)
    ensures |Strip(s)| <= |s|
  {
    var l, r := LStrip(s), Strip(s);
    LStripIsSuffix(s);
    RStripIsPrefix(l);
    if r != "" {
      assert r[0] == l[0];
    }
    if Trimmed(s) {
      assert l == s && r == s;
    }
  }

  function LowerChar(c: char): char {
    if 'A' <= c <= 'Z' then (c as int + 32) as char else c
  }

  function Lower(s: string): (r: string)
    ensures |r| == |s|
  {
    if s == "" then "" else [LowerChar(s[0])] + Lower(s[1..])
  }

  function DigitChar(d: nat): char
    requires d < 10
  {
    ('0' as int + d) as char
  }

  predicate IsDigit(c: char) {
    '0' <= c <= '9'
  }

  predicate AllDigits(s: string) {
    s != "" && forall i :: 0 <= i < |s| ==> IsDigit(s[i])
  }

  function Decimal(n: nat): (s: string)
    ensures AllDigits(s)
  {
    if n < 10 then [DigitChar(n)] else Decimal(n / 10) + [DigitChar(n % 10)]
  }

  /** Python's `int` on a string of ASCII digits. */
  function Numeral(s: string): nat
    requires forall i :: 0 <= i < |s| ==> IsDigit(s[i])
  {
    if s == "" then 0
    else
      var last := s[|s| - 1];
      assert IsDigit(last);
      10 * Numeral(s[..|s| - 1]) + (last as int - '0' as int)
  }

  lemma {:induction false} NumeralAppend(s: string, c: char)
    requires forall i :: 0 <= i < |s| ==> IsDigit(s[i])
    requires IsDigit(c)
    ensures Numeral(s + [c]) == 10 * Numeral(s) + (c as int - '0' as int)
  {
    assert (s + [c])[..|s|] == s;
  }

  lemma {:induction false} NumeralOfDecimal(n: nat)
    ensures Numeral(Decimal(n)) == n
  {
    if n < 10 {
      NumeralAppend("", DigitChar(n));
      assert "" + [DigitChar(n)] == [DigitChar(n)];
    } else {
      NumeralOfDecimal(n / 10);
      NumeralAppend(Decimal(n / 10), DigitChar(n % 10));
    }
  }

  /** Capital letters become small ones, in their places; nothing else changes. */
  lemma {:induction false} LowerReads(s: string, i: nat)
    requires i < |s|
    ensures |Lower(s)| == |s|
    ensures 'A' <= s[i] <= 'Z' ==> Lower(s)[i] as int == s[i] as int + 32
    ensures !('A' <= s[i] <= 'Z') ==> Lower(s)[i] == s[i]
  {
    if i > 0 {
      LowerReads(s[1..], i - 1);
    }
  }

  /** Stripping takes off spaces, tabs, line ends and the four separators, at both ends and nowhere
      else. */
  lemma {:induction false} StripReads(s: string) returns (a: string, b: string)
    ensures s == a + Strip(s) + b
    ensures forall i :: 0 <= i < |a| ==> Blank(a[i])
    ensures forall i :: 0 <= i < |b| ==> Blank(b[i])
    ensures Strip(s) != "" ==> !Blank(Strip(s)[0]) && !Blank(Strip(s)[|Strip(s)| - 1])
  {
    StripTrims(s);
    a := LeftOver(s);
    b := RightOver(LStrip(s));
    assert s == a + (Strip(s) + b);
    if Strip(s) != "" {
      SpaceIsBlank(Strip(s)[0]);
      SpaceIsBlank(Strip(s)[|Strip(s)| - 1]);
    }
  }

  predicate Blank(c: char) {
    c as int in {9, 10, 11, 12, 13, 28, 29, 30, 31, 32}
  }

  lemma {:induction false} SpaceIsBlank(c: char)
    ensures IsSpace(c) <==> Blank(c)
  {
  }

  lemma {:induction false} LeftOver(s: string) returns (a: string)
    ensures s == a + LStrip(s) && forall i :: 0 <= i < |a| ==> Blank(a[i])
  {
    if s != "" && IsSpace(s[0]) {
      var rest := LeftOver(s[1..]);
      SpaceIsBlank(s[0]);
      a := [s[0]] + rest;
    } else {
      a := "";
    }
  }

  lemma {:induction false} RightOver(s: string) returns (b: string)
    ensures s == RStrip(s) + b && forall i :: 0 <= i < |b| ==> Blank(b[i])
  {
    if s != "" && IsSpace(s[|s| - 1]) {
      var n := |s| - 1;
      var rest := RightOver(s[..n]);
      SpaceIsBlank(s[n]);
      b := rest + [s[n]];
    } else {
      b := "";
    }
  }
}
