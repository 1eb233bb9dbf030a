/** String helpers the organizer relies on: ASCII case mapping, suffix and
    substring tests, the stem/extension split of a bare file name, and the
    decimal rendering of the collision counter. */
module Names {

  /** ASCII lower-case mapping of one character; other characters are kept. */
  function LowerChar(c: char): char
  {
    if 'A' <= c <= 'Z' then (c as int + 32) as char else c
  }

  /** ASCII upper-case mapping of one character; other characters are kept. */
  function UpperChar(c: char): char
  {
    if 'a' <= c <= 'z' then (c as int - 32) as char else c
  }

  /** Lower-casing of a whole string, restricted to ASCII letters. */
  function Lower(s: string): (r: string)
    ensures |r| == |s|
    ensures forall i :: 0 <= i < |s| ==> r[i] == LowerChar(s[i])
  {
    seq(|s|, i requires 0 <= i < |s| => LowerChar(s[i]))
  }

  /** Upper-casing of a whole string, restricted to ASCII letters. */
  function Upper(s: string): (r: string)
    ensures |r| == |s|
    ensures forall i :: 0 <= i < |s| ==> r[i] == UpperChar(s[i])
  {
    seq(|s|, i requires 0 <= i < |s| => UpperChar(s[i]))
  }

  /** Lower-casing forgets any earlier upper-casing: the two spellings of a
      name agree once lower-cased. */
  lemma LowerUpper(s: string)
    ensures Lower(Upper(s)) == Lower(s)
  {
    assert forall i :: 0 <= i < |s| ==> LowerChar(UpperChar(s[i])) == LowerChar(s[i]);
  }

  /** Upper-casing forgets any earlier lower-casing. */
  lemma UpperLower(s: string)
    ensures Upper(Lower(s)) == Upper(s)
  {
    assert forall i :: 0 <= i < |s| ==> UpperChar(LowerChar(s[i])) == UpperChar(s[i]);
  }

  /** Lower-casing twice is lower-casing once. */
  lemma LowerTwice(s: string)
    ensures Lower(Lower(s)) == Lower(s)
  {
    assert forall i :: 0 <= i < |s| ==> LowerChar(LowerChar(s[i])) == LowerChar(s[i]);
  }

  /** Upper-casing twice is upper-casing once. */
  lemma UpperTwice(s: string)
    ensures Upper(Upper(s)) == Upper(s)
  {
    assert forall i :: 0 <= i < |s| ==> UpperChar(UpperChar(s[i])) == UpperChar(s[i]);
  }

  /** `s` ends with `suffix`. */
  predicate EndsWith(s: string, suffix: string)
  {
    |suffix| <= |s| && s[|s| - |suffix|..] == suffix
  }

  /** `sub` occurs in `s` starting at position `i`. */
  predicate OccursAt(s: string, sub: string, i: int)
  {
    0 <= i <= |s| - |sub| && s[i..i + |sub|] == sub
  }

  /** Substring test: `sub` occurs at some position of `s`. */
  predicate Contains(s: string, sub: string)
  {
    exists i | 0 <= i <= |s| - |sub| :: OccursAt(s, sub, i)
  }

  /** Two suffixes of one string: the shorter is a suffix of the longer. */
  lemma SuffixOfSuffix(s: string, a: string, b: string)
    requires EndsWith(s, a) && EndsWith(s, b) && |a| <= |b|
    ensures EndsWith(b, a)
  {
    assert b[|b| - |a|..] == s[|s| - |a|..];
  }

  /** Index of the last '.' of `s`, or -1 when there is none. */
  function LastDot(s: string): (i: int)
    ensures -1 <= i < |s|
    ensures 0 <= i ==> s[i] == '.'
    ensures forall j :: i < j < |s| ==> s[j] != '.'
  {
    if |s| == 0 then -1
    else if s[|s| - 1] == '.' then |s| - 1
    else LastDot(s[..|s| - 1])
  }

  predicate AllDots(s: string)
  {
    forall i :: 0 <= i < |s| ==> s[i] == '.'
  }

  /** Python's `splitext` on a bare name (no directory separator): the
      extension starts at the last '.', unless everything before that dot is
      dots as well (".bashrc", "..x"), in which case there is no extension. */
  function SplitExt(name: string): (r: (string, string))
    ensures r.0 + r.1 == name
    ensures r.1 == [] || (r.1[0] == '.' && forall j :: 1 <= j < |r.1| ==> r.1[j] != '.')
    ensures r.1 != [] ==> !AllDots(r.0)
    ensures r.1 == [] ==> forall j :: 0 <= j < |name| && name[j] == '.' ==> AllDots(name[..j])
  {
    var d := LastDot(name);
    if d < 0 || AllDots(name[..d]) then (name, [])
    else (name[..d], name[d..])
  }

  function Digit(d: nat): char
    requires d < 10
  {
    ('0' as int + d) as char
  }

  predicate IsDigit(c: char)
  {
    '0' <= c <= '9'
  }

  /** The decimal rendering of a counter: its digits, most significant first. */
  function NatToString(n: nat): (s: string)
    ensures |s| >= 1
    ensures forall i :: 0 <= i < |s| ==> IsDigit(s[i])
    ensures n >= 10 ==> s[0] != '0'
  {
    if n < 10 then [Digit(n)] else NatToString(n / 10) + [Digit(n % 10)]
  }

  function DigitValue(c: char): (v: nat)
    requires IsDigit(c)
    ensures v < 10
  {
    c as int - '0' as int
  }

  /** The number a string of decimal digits denotes. */
  function DigitsValue(s: string): nat
    requires forall i :: 0 <= i < |s| ==> IsDigit(s[i])
  {
    if |s| == 0 then 0
    else DigitsValue(s[..|s| - 1]) * 10 + DigitValue(s[|s| - 1])
  }

  /** Reading the rendered counter back gives the counter. */
  lemma {:induction false} NatToStringRoundTrip(n: nat)
    ensures DigitsValue(NatToString(n)) == n
  {
    if n >= 10 {
      var s := NatToString(n);
      assert s[..|s| - 1] == NatToString(n / 10);
      NatToStringRoundTrip(n / 10);
    }
  }

  /** Distinct counters render differently. */
  lemma NatToStringInjective(j: nat, k: nat)
    requires NatToString(j) == NatToString(k)
    ensures j == k
  {
    NatToStringRoundTrip(j);
    NatToStringRoundTrip(k);
  }

  /** The k-th collision candidate: the stem, then the counter in
      parentheses, then the extension. */
  function Candidate(stem: string, k: nat, ext: string): string
  {
    stem + "(" + NatToString(k) + ")" + ext
  }

  /** A candidate keeps the stem in front and the extension at the end,
      with the parenthesised counter, at least three characters, between
      them. */
  lemma CandidateShape(stem: string, k: nat, ext: string)
    ensures var r := Candidate(stem, k, ext);
      |r| >= |stem| + |ext| + 3 &&
      r[..|stem|] == stem && r[|stem|] == '(' &&
      r[|r| - |ext|..] == ext && r[|r| - |ext| - 1] == ')'
  {
  }

  /** Distinct counters give distinct candidates, whatever the stem and
      extension: the digits end at the first ')' after the stem. */
  lemma CandidateInjective(stem: string, ext: string, j: nat, k: nat)
    requires Candidate(stem, j, ext) == Candidate(stem, k, ext)
    ensures j == k
  {
    var a, b := NatToString(j), NatToString(k);
    var x, y := Candidate(stem, j, ext), Candidate(stem, k, ext);
    var p := |stem| + 1;
    assert x[p..] == a + ")" + ext;
    assert y[p..] == b + ")" + ext;
    var ta, tb := a + ")" + ext, b + ")" + ext;
    assert ta == tb;
    assert |a| == |b|;
    assert a == ta[..|a|];
    assert b == tb[..|b|];
    NatToStringInjective(j, k);
  }
}
