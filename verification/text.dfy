/** The handful of Python string operations the order service relies on. */
module Text {

  /** The characters for which Python's str.isspace() holds; str.strip() removes exactly these. */
  predicate IsSpace(c: char) {
    || c == ' ' || c == '\t' || c == '\n' || c == '\r' || c == '\U{0B}' || c == '\U{0C}'
    || ('\U{1C}' <= c <= '\U{1F}')
    || c == '\U{85}' || c == '\U{A0}' || c == '\U{1680}'
    || ('\U{2000}' <= c <= '\U{200A}')
    || c == '\U{2028}' || c == '\U{2029}' || c == '\U{202F}' || c == '\U{205F}' || c == '\U{3000}'
  }

  predicate AllSpace(s: string) {
    forall i :: 0 <= i < |s| ==> IsSpace(s[i])
  }

  /** Every character of s in [lo, hi) is whitespace. */
  predicate SpaceBetween(s: string, lo: nat, hi: nat)
    requires lo <= hi <= |s|
  {
    forall k :: lo <= k < hi ==> IsSpace(s[k])
  }

  /** s[i..j] is s with a run of whitespace taken off each end, and nothing more. */
  predicate StripsAt(s: string, i: nat, j: nat) {
    && i <= j <= |s|
    && SpaceBetween(s, 0, i)
    && SpaceBetween(s, j, |s|)
    && (i < j ==> !IsSpace(s[i]) && !IsSpace(s[j - 1]))
  }

  /** t is what stripping whitespace from both ends of s leaves. */
  ghost predicate IsStripOf(s: string, t: string) {
    exists i: nat, j: nat :: StripsAt(s, i, j) && t == s[i..j]
  }

  /** The first index at or after i that does not hold whitespace, or |s|. */
  function SkipSpace(s: string, i: nat): (j: nat)
    requires i <= |s|
    ensures i <= j <= |s| && SpaceBetween(s, i, j)
    ensures j < |s| ==> !IsSpace(s[j])
    decreases |s| - i
  {
    if i < |s| && IsSpace(s[i]) then SkipSpace(s, i + 1) else i
  }

  /** The smallest m >= lo such that s[m..j] is all whitespace, stepping back from j. */
  function SkipSpaceBack(s: string, lo: nat, j: nat): (m: nat)
    requires lo <= j <= |s|
    ensures lo <= m <= j && SpaceBetween(s, m, j)
    ensures lo < m ==> !IsSpace(s[m - 1])
    decreases j
  {
    if lo < j && IsSpace(s[j - 1]) then SkipSpaceBack(s, lo, j - 1) else j
  }

  /** Python's s.strip() with no argument. */
  function Strip(s: string): (t: string)
    ensures IsStripOf(s, t)
    ensures t == [] <==> AllSpace(s)
  {
    var i := SkipSpace(s, 0);
    var j := SkipSpaceBack(s, i, |s|);
    assert i < |s| ==> i < j;
    assert StripsAt(s, i, j);
    s[i..j]
  }

  /** A non-empty strip starts at the first and ends after the last non-whitespace character. */
  lemma StripsAtUnique(s: string, i1: nat, j1: nat, i2: nat, j2: nat)
    requires StripsAt(s, i1, j1) && StripsAt(s, i2, j2)
    ensures i1 < j1 && i2 < j2 ==> i1 == i2 && j1 == j2
    ensures i1 == j1 ==> i2 == j2
  {
  }

  /** Stripping is determined by its description: two strips of the same string are the same string. */
  lemma StripUnique(s: string, t1: string, t2: string)
    requires IsStripOf(s, t1) && IsStripOf(s, t2)
    ensures t1 == t2
  {
    var i1: nat, j1: nat :| StripsAt(s, i1, j1) && t1 == s[i1..j1];
    var i2: nat, j2: nat :| StripsAt(s, i2, j2) && t2 == s[i2..j2];
    StripsAtUnique(s, i1, j1, i2, j2);
    StripsAtUnique(s, i2, j2, i1, j1);
  }

  predicate IsDigit(c: char) {
    '0' <= c <= '9'
  }

  predicate AllDigits(s: string) {
    forall i :: 0 <= i < |s| ==> IsDigit(s[i])
  }

  function DigitValue(c: char): nat
    requires IsDigit(c)
  {
    c as int - '0' as int
  }

  /** The number a string of decimal digits denotes; the reference decoder for NatToString. */
  function DigitsValue(s: string): nat
    requires AllDigits(s)
  {
    if |s| == 0 then 0 else DigitsValue(s[..|s| - 1]) * 10 + DigitValue(s[|s| - 1])
  }

  function DigitChar(d: nat): (c: char)
    requires d < 10
    ensures IsDigit(c) && DigitValue(c) == d
  {
    ('0' as int + d) as char
  }

  /** Python's str() of a non-negative int: decimal digits without leading zeros. */
  function NatToString(n: nat): string
    decreases n
  {
    if n < 10 then [DigitChar(n)] else NatToString(n / 10) + [DigitChar(n % 10)]
  }

  /** NatToString writes digits only, never a leading zero, and they read back as the number. */
  lemma {:induction false} NatToStringDecodes(n: nat)
    ensures var s := NatToString(n);
            |s| >= 1 && AllDigits(s) && (s[0] == '0' ==> s == "0") && DigitsValue(s) == n
    decreases n
  {
    var s := NatToString(n);
    if n >= 10 {
      var prefix := NatToString(n / 10);
      NatToStringDecodes(n / 10);
      assert s == prefix + [DigitChar(n % 10)];
      assert s[..|s| - 1] == prefix;
      assert s[0] == prefix[0];
    }
  }

  /** Python's str() of an int, a minus sign in front of negative values. */
  function IntToString(n: int): string {
    if n < 0 then "-" + NatToString(-n) else NatToString(n)
  }

  /**
   * IntToString reads back as the number: digits alone for n >= 0, a minus sign and the digits of -n
   * otherwise, never with a leading zero except for "0" itself.
   */
  lemma IntToStringDecodes(n: int)
    ensures var s := IntToString(n);
            && (n >= 0 ==> AllDigits(s) && |s| >= 1 && (s[0] == '0' ==> s == "0") && DigitsValue(s) == n)
            && (n < 0 ==> |s| >= 2 && s[0] == '-' && s[1] != '0' && AllDigits(s[1..]) && DigitsValue(s[1..]) == -n)
  {
    if n < 0 {
      NatToStringDecodes(-n);
      assert IntToString(n)[1..] == NatToString(-n);
    } else {
      NatToStringDecodes(n);
    }
  }

  /** Python's sep.join(parts). */
  function Join(sep: string, parts: seq<string>): string {
    if |parts| == 0 then ""
    else if |parts| == 1 then parts[0]
    else parts[0] + sep + Join(sep, parts[1..])
  }

  /** Joining two non-empty lists of parts is joining each and putting the separator between. */
  lemma {:induction false} JoinConcat(sep: string, a: seq<string>, b: seq<string>)
    requires |a| > 0 && |b| > 0
    ensures Join(sep, a + b) == Join(sep, a) + sep + Join(sep, b)
  {
    if |a| == 1 {
      assert (a + b)[1..] == b;
    } else {
      assert (a + b)[1..] == a[1..] + b;
      JoinConcat(sep, a[1..], b);
    }
  }

  /** sep occurs in s starting at index i. */
  predicate OccursAt(s: string, sep: string, i: nat) {
    i + |sep| <= |s| && s[i..i + |sep|] == sep
  }

  /** The first element of Python's s.split(sep): s up to the first occurrence of sep, or all of s. */
  function FirstPiece(s: string, sep: string): (r: string)
    requires sep != []
    ensures |r| <= |s| && r == s[..|r|]
    ensures forall i :: 0 <= i < |r| ==> !OccursAt(s, sep, i)
    ensures r == s || OccursAt(s, sep, |r|)
  {
    FirstPieceFrom(s, sep, 0)
  }

  function FirstPieceFrom(s: string, sep: string, from: nat): (r: string)
    requires sep != [] && from <= |s|
    requires forall i :: 0 <= i < from ==> !OccursAt(s, sep, i)
    ensures |r| <= |s| && r == s[..|r|]
    ensures forall i :: 0 <= i < |r| ==> !OccursAt(s, sep, i)
    ensures r == s || OccursAt(s, sep, |r|)
    decreases |s| - from
  {
    if from == |s| then s
    else if OccursAt(s, sep, from) then s[..from]
    else FirstPieceFrom(s, sep, from + 1)
  }
}
