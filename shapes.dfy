/**
 * The regular expressions in main.go (`mmexport(1\d{9})`, `\d{8}_\d{6}`,
 * `\d{4}-\d{2}-\d{2} \d{2}\.\d{2}\.\d{2}`) and the time layouts all describe
 * fixed-length windows: a sequence of character classes, each a single
 * literal character or one ASCII digit (`\d`). Finding the leftmost match
 * of such a regexp is finding the smallest index where the window fits.
 */
module Shapes {
  import opened Wrappers
  import opened Text

  datatype CharClass = AnyDigit | Exactly(c: char)

  type Shape = seq<CharClass>

  predicate Fits(c: char, k: CharClass)
  {
    match k
    case AnyDigit => IsDigit(c)
    case Exactly(d) => c == d
  }

  function Literal(t: string): (sh: Shape)
    ensures |sh| == |t|
    ensures forall j :: 0 <= j < |t| ==> sh[j] == Exactly(t[j])
  {
    seq(|t|, j requires 0 <= j < |t| => Exactly(t[j]))
  }

  function DigitRun(n: nat): (sh: Shape)
    ensures |sh| == n
    ensures forall j :: 0 <= j < n ==> sh[j] == AnyDigit
  {
    seq(n, _ => AnyDigit)
  }

  /** The window of s starting at k has the shape `sh`. */
  predicate MatchesAt(s: string, k: nat, sh: Shape)
  {
    k + |sh| <= |s| && forall j :: 0 <= j < |sh| ==> Fits(s[k + j], sh[j])
  }

  /**
   * The leftmost index at or after `from` where `sh` matches, or None when
   * there is none (regexp.FindStringSubmatch on a fixed-length pattern).
   */
  function Leftmost(s: string, sh: Shape, from: nat): (r: Option<nat>)
    decreases |s| - from
    ensures r.Some? ==> from <= r.value && MatchesAt(s, r.value, sh)
    ensures r.Some? ==> forall k :: from <= k < r.value ==> !MatchesAt(s, k, sh)
    ensures r.None? ==> forall k :: from <= k ==> !MatchesAt(s, k, sh)
  {
    if from + |sh| > |s| then None
    else if MatchesAt(s, from, sh) then Some(from)
    else Leftmost(s, sh, from + 1)
  }

  /** A window whose characters all fit their class: the digit positions hold digits. */
  lemma DigitsInWindow(s: string, k: nat, sh: Shape, pos: nat, width: nat)
    requires MatchesAt(s, k, sh)
    requires pos + width <= |sh| && forall j :: pos <= j < pos + width ==> sh[j] == AnyDigit
    ensures AllDigits(s[k + pos..k + pos + width])
  {
    var w := s[k + pos..k + pos + width];
    forall i | 0 <= i < |w|
      ensures IsDigit(w[i])
    {
      assert w[i] == s[k + (pos + i)];
      assert Fits(s[k + (pos + i)], sh[pos + i]);
    }
  }
}
