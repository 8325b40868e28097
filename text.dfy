/**
 * Character and string helpers from Go's standard library as main.go uses
 * them: decimal digits (strconv), zero-padded decimals (time.Format),
 * strings.Trim / strings.TrimSpace and strings.ToLower.
 */
module Text {

  predicate IsDigit(c: char) { '0' <= c <= '9' }

  predicate AllDigits(s: string) { forall i :: 0 <= i < |s| ==> IsDigit(s[i]) }

  /** s has no occurrence of c. */
  predicate Lacks(s: string, c: char) { forall i :: 0 <= i < |s| ==> s[i] != c }

  lemma LacksConcat(a: string, b: string, c: char)
    requires Lacks(a, c) && Lacks(b, c)
    ensures Lacks(a + b, c)
  {
    assert forall i :: 0 <= i < |b| ==> (a + b)[|a| + i] == b[i];
  }

  lemma AllDigitsConcat(a: string, b: string)
    requires AllDigits(a) && AllDigits(b)
    ensures AllDigits(a + b)
  {
    assert forall i :: 0 <= i < |b| ==> (a + b)[|a| + i] == b[i];
  }

  function DigitValue(c: char): (v: nat)
    requires IsDigit(c)
    ensures v < 10
  {
    (c as int - '0' as int) as nat
  }

  function DigitChar(v: nat): (c: char)
    requires v < 10
    ensures IsDigit(c) && DigitValue(c) == v
  {
    ('0' as int + v) as char
  }

  function Pow10(k: nat): (p: nat)
    ensures p >= 1
  {
    if k == 0 then 1 else 10 * Pow10(k - 1)
  }

  /** The value of a run of decimal digits, most significant first. */
  function Num(s: string): (n: nat)
    requires AllDigits(s)
    ensures n < Pow10(|s|)
  {
    if s == [] then 0 else Num(s[..|s| - 1]) * 10 + DigitValue(s[|s| - 1])
  }

  lemma NumAppend(s: string, c: char)
    requires AllDigits(s) && IsDigit(c)
    ensures AllDigits(s + [c]) && Num(s + [c]) == Num(s) * 10 + DigitValue(c)
  {
    assert (s + [c])[..|s|] == s;
  }

  /** Reading from the most significant digit: the leading digit weighs 10^(|s|-1). */
  lemma {:induction false} NumLeading(s: string)
    requires |s| >= 1 && AllDigits(s)
    ensures Num(s) == DigitValue(s[0]) * Pow10(|s| - 1) + Num(s[1..])
    decreases |s|
  {
    if |s| > 1 {
      var p, last := s[..|s| - 1], s[|s| - 1];
      NumLeading(p);
      assert s[1..] == p[1..] + [last];
      NumAppend(p[1..], last);
      Regroup(DigitValue(s[0]), Pow10(|s| - 2), Num(p[1..]), DigitValue(last));
    } else {
      assert s[1..] == [];
    }
  }

  lemma Regroup(a: int, p: int, b: int, d: int)
    ensures (a * p + b) * 10 + d == a * (10 * p) + (b * 10 + d)
  {
  }

  /**
   * n in decimal, left-padded with zeros to at least `width` digits: the
   * appendInt helper behind time.Format's "2006", "01", "02", ... fields.
   */
  function Decimal(n: nat, width: nat): (r: string)
    decreases n, width
    ensures |r| >= 1 && |r| >= width
    ensures AllDigits(r) && Num(r) == n
  {
    if n < 10 && width <= 1 then [DigitChar(n)]
    else
      var prefix := Decimal(n / 10, if width > 0 then width - 1 else 0);
      NumAppend(prefix, DigitChar(n % 10));
      prefix + [DigitChar(n % 10)]
  }

  /** A value below 10^width is printed with exactly `width` digits. */
  lemma {:induction false} DecimalWidth(n: nat, width: nat)
    requires 1 <= width && n < Pow10(width)
    ensures |Decimal(n, width)| == width
    decreases width
  {
    if n < 10 && width <= 1 {
    } else {
      assert width >= 2;
      DecimalWidth(n / 10, width - 1);
    }
  }

  /** Reading a run of digits and printing it back at the same width gives the run. */
  lemma {:induction false} DecimalOfNum(s: string)
    requires |s| >= 1 && AllDigits(s)
    ensures Decimal(Num(s), |s|) == s
    decreases |s|
  {
    var p, c := s[..|s| - 1], s[|s| - 1];
    assert Num(s) == Num(p) * 10 + DigitValue(c);
    assert DigitChar(DigitValue(c)) == c;
    assert s == p + [c];
    if |s| == 1 {
      assert Decimal(Num(s), 1) == [c];
    } else {
      DecimalOfNum(p);
      DecimalAppend(Num(p), |p|, DigitValue(c));
      assert Decimal(Num(s), |s|) == p + [c];
    }
  }

  /** Printing a*10 + d at one more digit of width appends d's digit to the printing of a. */
  lemma DecimalAppend(a: nat, w: nat, d: nat)
    requires w >= 1 && d < 10
    ensures Decimal(a * 10 + d, w + 1) == Decimal(a, w) + [DigitChar(d)]
  {
    ShiftDigit(a, d);
  }

  lemma ShiftDigit(a: nat, d: nat)
    requires d < 10
    ensures (a * 10 + d) / 10 == a && (a * 10 + d) % 10 == d
  {
  }

  // ---------------------------------------------------------------------
  // Trimming

  /**
   * The index of the first character at or after i that `cut` keeps, or |s|
   * when there is none: the scan strings.TrimLeftFunc does.
   */
  function KeptFrom(s: string, cut: char -> bool, i: nat): (n: nat)
    requires i <= |s|
    ensures i <= n <= |s|
    ensures forall k :: i <= k < n ==> cut(s[k])
    ensures n < |s| ==> !cut(s[n])
    decreases |s| - i
  {
    if i < |s| && cut(s[i]) then KeptFrom(s, cut, i + 1) else i
  }

  /**
   * One past the last character before j that `cut` keeps, or 0 when there
   * is none: the scan strings.TrimRightFunc does.
   */
  function KeptUntil(s: string, cut: char -> bool, j: nat): (n: nat)
    requires j <= |s|
    ensures n <= j
    ensures forall k :: n <= k < j ==> cut(s[k])
    ensures n > 0 ==> !cut(s[n - 1])
  {
    if j > 0 && cut(s[j - 1]) then KeptUntil(s, cut, j - 1) else j
  }

  /** strings.TrimLeftFunc: s without its longest prefix of characters satisfying `cut`. */
  function TrimStart(s: string, cut: char -> bool): string
  {
    s[KeptFrom(s, cut, 0)..]
  }

  /** strings.TrimRightFunc: s without its longest suffix of characters satisfying `cut`. */
  function TrimEnd(s: string, cut: char -> bool): string
  {
    s[..KeptUntil(s, cut, |s|)]
  }

  /** strings.TrimSuffix: s without `suffix` when s ends with it, s itself otherwise. */
  function TrimSuffix(s: string, suffix: string): (r: string)
    ensures |suffix| <= |s| && s[|s| - |suffix|..] == suffix ==> r + suffix == s
    ensures !(|suffix| <= |s| && s[|s| - |suffix|..] == suffix) ==> r == s
  {
    if |suffix| <= |s| && s[|s| - |suffix|..] == suffix then s[..|s| - |suffix|] else s
  }

  lemma SliceOfSuffix(s: string, i: nat, n: nat)
    requires i + n <= |s|
    ensures s[i..][..n] == s[i..i + n]
    ensures forall k :: i <= k < |s| ==> s[i..][k - i] == s[k]
  {
  }

  /**
   * strings.Trim / strings.TrimFunc: the slice of s left once every leading
   * and every trailing character satisfying `cut` is removed, and nothing else.
   */
  function Trim(s: string, cut: char -> bool): (r: string)
    ensures var i := KeptFrom(s, cut, 0);
      && i + |r| <= |s|
      && r == s[i..i + |r|]
      && (forall k :: 0 <= k < i ==> cut(s[k]))
      && (forall k :: i + |r| <= k < |s| ==> cut(s[k]))
    ensures r == [] || (!cut(r[0]) && !cut(r[|r| - 1]))
  {
    var i := KeptFrom(s, cut, 0);
    var t := s[i..];
    var j := KeptUntil(t, cut, |t|);
    SliceOfSuffix(s, i, j);
    TrimEnd(TrimStart(s, cut), cut)
  }

  /**
   * Trimming is exact: whatever sits between a run of cut characters on the
   * left and one on the right, and itself begins and ends with a kept
   * character, is what Trim returns.
   */
  lemma TrimPadded(p: string, x: string, q: string, cut: char -> bool)
    requires forall k :: 0 <= k < |p| ==> cut(p[k])
    requires forall k :: 0 <= k < |q| ==> cut(q[k])
    requires x != [] && !cut(x[0]) && !cut(x[|x| - 1])
    ensures Trim(p + x + q, cut) == x
  {
    var s := p + x + q;
    var r := Trim(s, cut);
    var i := KeptFrom(s, cut, 0);
    assert forall k :: 0 <= k < |p| ==> s[k] == p[k];
    assert forall k :: 0 <= k < |q| ==> s[|p| + |x| + k] == q[k];
    assert s[|p|] == x[0] && s[|p| + |x| - 1] == x[|x| - 1];
    assert i == |p|;
    assert |r| >= |x|;
    assert r[|r| - 1] == s[|p| + |r| - 1];
    assert |r| == |x|;
    assert s[|p|..|p| + |x|] == x;
  }

  /** A string that begins and ends with a kept character is left as it is. */
  lemma TrimmedAlready(s: string, cut: char -> bool)
    requires s != [] && !cut(s[0]) && !cut(s[|s| - 1])
    ensures Trim(s, cut) == s
  {
    assert KeptFrom(s, cut, 0) == 0;
  }

  /** unicode.IsSpace, the test strings.TrimSpace trims by. */
  predicate IsSpace(c: char)
  {
    || c == ' ' || c == '\t' || c == '\n' || c == '\r' || c == '\U{000B}' || c == '\U{000C}'
    || c == '\U{0085}' || c == '\U{00A0}' || c == '\U{1680}'
    || ('\U{2000}' <= c <= '\U{200A}')
    || c == '\U{2028}' || c == '\U{2029}' || c == '\U{202F}' || c == '\U{205F}' || c == '\U{3000}'
  }

  /** strings.TrimSpace: s without its leading and trailing white space. */
  function TrimSpace(s: string): string
  {
    Trim(s, IsSpace)
  }

  /**
   * TrimSpace removes exactly the leading and the trailing white space: what
   * is left is a slice of s that neither begins nor ends with white space.
   */
  lemma TrimSpaceExact(s: string)
    ensures var r, i := TrimSpace(s), KeptFrom(s, IsSpace, 0);
      && i + |r| <= |s| && r == s[i..i + |r|]
      && (forall k :: 0 <= k < i ==> IsSpace(s[k]))
      && (forall k :: i + |r| <= k < |s| ==> IsSpace(s[k]))
      && (r == [] || (!IsSpace(r[0]) && !IsSpace(r[|r| - 1])))
  {
  }

  // ---------------------------------------------------------------------
  // Case

  function LowerChar(c: char): (d: char)
  {
    if 'A' <= c <= 'Z' then (c as int - 'A' as int + 'a' as int) as char else c
  }

  /** strings.ToLower, on the ASCII letters. */
  function ToLower(s: string): (r: string)
    ensures |r| == |s|
    ensures forall i :: 0 <= i < |s| ==> r[i] == LowerChar(s[i])
  {
    seq(|s|, i requires 0 <= i < |s| => LowerChar(s[i]))
  }
}
