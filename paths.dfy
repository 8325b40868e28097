/**
 * Slash-separated paths as main.go handles them through Go's path/filepath
 * on a Unix host: Ext, Base, Join, the directory part, and main.go's own
 * getFileExtension.
 */
module Paths {
  import opened Text

  /** Index of the last '/' in p, or -1 when there is none. */
  function LastSlash(p: string): (i: int)
    ensures -1 <= i < |p|
    ensures i >= 0 ==> p[i] == '/'
    ensures forall k :: i < k < |p| ==> p[k] != '/'
  {
    if p == [] then -1
    else if p[|p| - 1] == '/' then |p| - 1
    else LastSlash(p[..|p| - 1])
  }

  /** The directory part of p, up to and including its last '/'. */
  function DirPrefix(p: string): string { p[..LastSlash(p) + 1] }

  /** The text after the last '/' of p. */
  function FinalElement(p: string): (e: string)
    ensures p == DirPrefix(p) + e
    ensures Lacks(e, '/')
  {
    var i := LastSlash(p) + 1;
    AfterLastSlash(p);
    assert p == p[..i] + p[i..];
    p[i..]
  }

  lemma AfterLastSlash(p: string)
    ensures Lacks(p[LastSlash(p) + 1..], '/')
  {
    var e := p[LastSlash(p) + 1..];
    assert Lacks(e, '/');
  }

  lemma FinalElementAppend(p: string, c: char)
    requires c != '/'
    ensures LastSlash(p + [c]) == LastSlash(p)
    ensures DirPrefix(p + [c]) == DirPrefix(p)
    ensures FinalElement(p + [c]) == FinalElement(p) + [c]
  {
    assert (p + [c])[..|p|] == p;
  }

  /**
   * Where filepath.Ext's suffix starts: the last '.' after the last '/', or
   * |p| when the final element has no '.'.
   */
  function ExtStart(p: string): (i: nat)
    ensures i <= |p|
    ensures i < |p| ==> p[i] == '.' && LastSlash(p) < i
    ensures forall k :: i < k < |p| ==> p[k] != '.' && p[k] != '/'
    ensures i == |p| ==> forall k :: LastSlash(p) < k < |p| ==> p[k] != '.'
  {
    if p == [] then 0
    else if p[|p| - 1] == '/' then |p|
    else if p[|p| - 1] == '.' then |p| - 1
    else
      var q := p[..|p| - 1];
      assert LastSlash(p) == LastSlash(q);
      var j := ExtStart(q);
      if j == |q| then |p| else j
  }

  /**
   * filepath.Ext: the suffix of p that starts at the last '.' of its final
   * element, or "" when the final element has no '.'.
   */
  function Ext(p: string): (e: string)
    ensures e == "" <==> Lacks(FinalElement(p), '.')
    ensures e != "" ==> e[0] == '.' && Lacks(e[1..], '.') && Lacks(e, '/')
  {
    ExtInFinalElement(p);
    p[ExtStart(p)..]
  }

  lemma ExtInFinalElement(p: string)
    ensures p[ExtStart(p)..] == "" <==> Lacks(FinalElement(p), '.')
  {
    var i := ExtStart(p);
    var f := FinalElement(p);
    assert forall k :: 0 <= k < |f| ==> f[k] == p[LastSlash(p) + 1 + k];
    assert i < |p| ==> f[i - LastSlash(p) - 1] == '.';
  }

  /** Appending text without a '.' to a path whose final element has none leaves it with none. */
  lemma {:induction false} ExtStaysEmpty(p: string, t: string)
    requires ExtStart(p) == |p| && Lacks(t, '.')
    ensures ExtStart(p + t) == |p + t|
    decreases |t|
  {
    if t != [] {
      var u, c := t[..|t| - 1], t[|t| - 1];
      assert p + t == (p + u) + [c];
      assert (p + t)[..|p + t| - 1] == p + u;
      assert c == t[|t| - 1] && c != '.';
      ExtStaysEmpty(p, u);
    } else {
      assert p + t == p;
    }
  }

  /** A dot-led suffix with no further '.' or '/' is the extension of anything it ends. */
  lemma ExtOfSuffix(x: string, e: string)
    requires e != [] && e[0] == '.' && Lacks(e[1..], '.') && Lacks(e, '/')
    ensures ExtStart(x + e) == |x| && Ext(x + e) == e
  {
    var p := x + e;
    var i := ExtStart(p);
    assert p[|x|] == '.';
    assert forall k :: |x| < k < |p| ==> p[k] == e[1..][k - |x| - 1] && p[k] == e[k - |x|];
    assert i == |x|;
    assert p[|x|..] == e;
  }

  /** Appending text with no '/' does not change the directory part. */
  lemma {:induction false} DirPrefixAppend(p: string, t: string)
    requires Lacks(t, '/')
    ensures DirPrefix(p + t) == DirPrefix(p)
    decreases |t|
  {
    if t != [] {
      var u, c := t[..|t| - 1], t[|t| - 1];
      assert p + t == (p + u) + [c];
      assert c == t[|t| - 1] && c != '/';
      DirPrefixAppend(p, u);
      FinalElementAppend(p + u, c);
    } else {
      assert p + t == p;
    }
  }

  predicate IsSlash(c: char) { c == '/' }

  /**
   * filepath.Base: the last element of p once trailing slashes are removed;
   * "." for the empty path and "/" for a path of slashes only.
   */
  function Base(p: string): (b: string)
    ensures b != ""
    ensures p == "" ==> b == "."
    ensures p != "" && TrimEnd(p, IsSlash) == "" ==> b == "/"
    ensures p != "" && p[|p| - 1] != '/' ==> b == FinalElement(p)
  {
    if p == "" then "."
    else
      var q := TrimEnd(p, IsSlash);
      if p[|p| - 1] != '/' then
        NoTrailingSlash(p);
        FinalElement(p)
      else if q == "" then "/"
      else FinalElement(q)
  }

  /** Without a trailing '/', trimming the trailing slashes changes nothing. */
  lemma NoTrailingSlash(p: string)
    requires p != [] && p[|p| - 1] != '/'
    ensures TrimEnd(p, IsSlash) == p
  {
    assert KeptUntil(p, IsSlash, |p|) == |p|;
  }

  /** A path that does not end in '/' is its directory part followed by its base. */
  lemma DirPrefixAndBase(p: string)
    requires p != "" && p[|p| - 1] != '/'
    ensures p == DirPrefix(p) + Base(p) && Lacks(Base(p), '/')
  {
  }

  /** filepath.Join: the non-empty elements, separated by '/'. */
  function Join(elems: seq<string>): (r: string)
    ensures r == "" <==> forall i :: 0 <= i < |elems| ==> elems[i] == ""
  {
    if elems == [] then ""
    else
      var head := Join(elems[..|elems| - 1]);
      var last := elems[|elems| - 1];
      if last == "" then head
      else if head == "" then last
      else head + "/" + last
  }

  lemma JoinTwo(a: string, b: string)
    ensures Join([a, b]) == if a == "" then b else if b == "" then a else a + "/" + b
  {
    assert [a, b][..1] == [a];
    assert [a][..0] == [];
  }

  /** The segments main.go joins: an optional leading segment, then three non-empty ones. */
  lemma JoinFour(a: string, b: string, c: string, d: string)
    requires b != "" && c != "" && d != ""
    ensures Join([a, b, c, d]) == (if a == "" then "" else a + "/") + b + "/" + c + "/" + d
    ensures Join([b, c, d]) == b + "/" + c + "/" + d
  {
    JoinTwo(a, b);
    assert [a, b, c][..2] == [a, b];
    assert Join([a, b, c]) == Join([a, b]) + "/" + c;
    assert [a, b, c, d][..3] == [a, b, c];
    JoinTwo(b, c);
    assert [b, c, d][..2] == [b, c];
  }

  /** strings.TrimPrefix(filepath.Ext(p), "."): the extension without its dot. */
  function ExtName(p: string): (name: string)
    ensures Lacks(name, '.') && Lacks(name, '/')
    ensures name == "" <==> Lacks(FinalElement(p), '.') || p[|p| - 1] == '.'
    ensures name != "" ==> |name| < |p| && p[|p| - |name| - 1] == '.' && name == p[|p| - |name|..]
  {
    ExtInFinalElement(p);
    if ExtStart(p) < |p| then p[ExtStart(p) + 1..] else ""
  }

  /** Lower-casing adds no '.' or '/' and leaves no upper-case letter. */
  lemma LowerKeeps(s: string)
    requires Lacks(s, '.') && Lacks(s, '/')
    ensures Lacks(ToLower(s), '.') && Lacks(ToLower(s), '/')
    ensures forall i :: 0 <= i < |s| ==> !('A' <= ToLower(s)[i] <= 'Z')
  {
  }

  /**
   * getFileExtension: the text after the last '.' of the final element,
   * without the dot, in lower case; "" when there is no such dot.
   */
  function FileExtension(p: string): (r: string)
    ensures Lacks(r, '.') && Lacks(r, '/')
    ensures forall i :: 0 <= i < |r| ==> !('A' <= r[i] <= 'Z')
    ensures r == "" <==> Lacks(FinalElement(p), '.') || p[|p| - 1] == '.'
    ensures r != "" ==> |r| < |p| && p[|p| - |r| - 1] == '.' && r == ToLower(p[|p| - |r|..])
  {
    var name := ExtName(p);
    LowerKeeps(name);
    ToLower(name)
  }
}
