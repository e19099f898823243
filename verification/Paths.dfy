/** Relative paths as strings and as lists of names, and the two routines on path
    strings that the status file depends on. */
module Paths {

  /** A file name: no slash, no terminator, 7-bit characters above 1. */
  predicate IsName(s: string) {
    s != "" && forall i :: 0 <= i < |s| ==> s[i] != '/' && 2 <= s[i] as int < 128
  }

  type Name = s: string | IsName(s) witness "a"

  type Path = seq<Name>

  function Join(p: Path): string {
    if p == [] then "" else if |p| == 1 then p[0] else p[0] + "/" + Join(p[1..])
  }

  function Parent(p: Path): Path
    requires p != []
  {
    p[..|p| - 1]
  }

  /** The names two paths share from the start. */
  function Common(p: Path, q: Path): (c: Path)
    ensures c <= p && c <= q
  {
    if p == [] || q == [] || p[0] != q[0] then [] else [p[0]] + Common(p[1..], q[1..])
  }

  lemma {:induction false} CommonLongest(p: Path, q: Path, c: Path)
    requires c <= p && c <= q
    ensures c <= Common(p, q)
  {
    if c != [] {
      CommonLongest(p[1..], q[1..], c[1..]);
      assert c == [c[0]] + c[1..];
    }
  }

  // ------------------------------------------------------ prefixes of a path

  lemma {:induction false} JoinSnoc(p: Path, x: Name)
    ensures Join(p + [x]) == if p == [] then x else Join(p) + "/" + x
  {
    if |p| > 1 {
      assert (p + [x])[1..] == p[1..] + [x];
      JoinSnoc(p[1..], x);
      assert p[0] + "/" + (Join(p[1..]) + "/" + x) == p[0] + "/" + Join(p[1..]) + "/" + x;
    } else if |p| == 1 {
      assert (p + [x])[1..] == [x];
    }
  }

  lemma {:induction false} JoinEmpty(p: Path)
    ensures (Join(p) == "") == (p == [])
    ensures p != [] ==> Join(p)[0] == p[0][0] && Join(p)[0] != '/'
  {
  }

  /** Appending names appends to the string, behind a slash. */
  lemma {:induction false} JoinPlus(p: Path, q: Path)
    requires p != [] && q != []
    ensures Join(p + q) == Join(p) + "/" + Join(q)
  {
    if |p| == 1 {
      assert (p + q)[1..] == q;
    } else {
      assert (p + q)[1..] == p[1..] + q;
      JoinPlus(p[1..], q);
      assert p[0] + "/" + (Join(p[1..]) + "/" + Join(q)) == p[0] + "/" + Join(p[1..]) + "/" + Join(q);
    }
  }

  /** A position at which a whole number of names ends. */
  predicate Boundary(s: string, j: nat) {
    j <= |s| && (j == 0 || j == |s| || s[j] == '/')
  }

  lemma {:induction false} PrefixBoundary(p: Path, k: nat)
    requires k <= |p|
    ensures Join(p[..k]) <= Join(p) && Boundary(Join(p), |Join(p[..k])|)
    ensures 0 < k < |p| ==> |Join(p[..k])| < |Join(p)| && Join(p)[|Join(p[..k])|] == '/'
  {
    if k == 0 {
      assert p[..0] == [];
    } else if k == |p| {
      assert p[..k] == p;
    } else {
      JoinPlus(p[..k], p[k..]);
      assert p[..k] + p[k..] == p;
    }
  }

  /** Every boundary of a path's string is where one of its prefixes ends. */
  lemma {:induction false} BoundaryPrefix(p: Path, j: nat) returns (k: nat)
    requires Boundary(Join(p), j)
    ensures k <= |p| && j == |Join(p[..k])|
  {
    if j == 0 {
      k := 0;
    } else if j == |Join(p)| {
      k := |p|;
      assert p[..k] == p;
    } else {
      FirstName(p);
      NameEnds(p[0], Join(p), j);
      var x, rest := p[0], Join(p[1..]);
      if j == |x| {
        k := 1;
        assert p[..1] == [x];
      } else {
        assert Join(p)[j] == rest[j - |x| - 1];
        JoinEmpty(p[1..]);
        var k1 := BoundaryPrefix(p[1..], j - |x| - 1);
        k := k1 + 1;
        assert p[..k] == [x] + p[1..][..k1];
        assert k1 > 0 by { assert p[1..][..0] == []; }
        JoinPlus([x], p[1..][..k1]);
      }
    }
  }

  /** A slash is never inside a name. */
  lemma NameEnds(x: Name, s: string, j: nat)
    requires x <= s && j < |s| && s[j] == '/'
    ensures j >= |x|
  {
    assert forall i :: 0 <= i < |x| ==> s[i] == x[i];
  }

  /** Different paths have different strings. */
  lemma {:induction false} JoinInjective(p: Path, q: Path)
    requires Join(p) == Join(q)
    ensures p == q
  {
    JoinEmpty(p);
    JoinEmpty(q);
    if p != [] {
      FirstName(p);
      FirstName(q);
      var s := Join(p);
      if |p| > 1 { NameEnds(q[0], s, |p[0]|); }
      if |q| > 1 { NameEnds(p[0], s, |q[0]|); }
      assert p[0] == s[..|p[0]|] == q[0];
      if |p| > 1 {
        assert Join(p[1..]) == s[|p[0]| + 1..];
        assert Join(q[1..]) == s[|q[0]| + 1..];
        JoinInjective(p[1..], q[1..]);
      }
      assert p == [p[0]] + p[1..] && q == [q[0]] + q[1..];
    }
  }

  lemma {:induction false} FirstName(p: Path)
    requires p != []
    ensures p[0] <= Join(p)
    ensures |p| == 1 <==> |Join(p)| == |p[0]|
    ensures |p| > 1 ==> Join(p)[|p[0]|] == '/' && Join(p) == p[0] + "/" + Join(p[1..])
  {
  }

  /** One path begins another exactly when its string does, up to a boundary. */
  lemma {:induction false} PrefixStrings(p: Path, q: Path)
    ensures p <= q <==> Join(p) <= Join(q) && Boundary(Join(q), |Join(p)|)
  {
    if p <= q {
      PrefixBoundary(q, |p|);
      assert q[..|p|] == p;
    } else if Join(p) <= Join(q) && Boundary(Join(q), |Join(p)|) {
      var k := BoundaryPrefix(q, |Join(p)|);
      PrefixBoundary(q, k);
      assert Join(q[..k]) == Join(q)[..|Join(p)|] == Join(p);
      JoinInjective(q[..k], p);
    }
  }

  lemma {:induction false} PrefixLength(p: Path, q: Path)
    requires p <= q
    ensures |Join(p)| <= |Join(q)| && (|Join(p)| == |Join(q)| <==> p == q)
  {
    PrefixStrings(p, q);
    if |Join(p)| == |Join(q)| {
      JoinInjective(p, q);
    }
  }

  // -------------------------------------------------------- commonpathlength

  predicate CommonBoundary(a: string, b: string, j: nat) {
    j <= |a| && j <= |b| && a[..j] == b[..j] && Boundary(a, j) && Boundary(b, j)
  }

  /** The longest common boundary of two strings that is at most `n`. */
  function CommonUpTo(a: string, b: string, n: nat): (r: nat)
    ensures r <= n && CommonBoundary(a, b, r) && forall j: nat :: CommonBoundary(a, b, j) && j <= n ==> j <= r
  {
    if n == 0 || CommonBoundary(a, b, n) then n else CommonUpTo(a, b, n - 1)
  }

  /** The longest common boundary of two strings. */
  function CommonLen(a: string, b: string): (r: nat)
    ensures CommonBoundary(a, b, r) && forall j: nat :: CommonBoundary(a, b, j) ==> j <= r
  {
    CommonUpTo(a, b, if |a| < |b| then |a| else |b|)
  }

  /** A string that does not begin with a slash. */
  predicate Relative(s: string) { s == "" || s[0] != '/' }

  /** How much of two paths is in common, in whole names. */
  method CommonPathLength(a: string, b: string) returns (r: nat)
    ensures Relative(a) ==> CommonBoundary(a, b, r) && forall j: nat :: CommonBoundary(a, b, j) ==> j <= r
    ensures Relative(a) ==> r == CommonLen(a, b)
  {
    hide CommonUpTo;
    var minlen := if |a| < |b| then |a| else |b|;
    var lastslash, i := 0, 0;
    while i < minlen
      invariant i <= minlen && lastslash <= i && a[..i] == b[..i]
      invariant Relative(a) ==> lastslash == 0 || (lastslash < i && a[lastslash] == '/')
      invariant forall j :: lastslash < j < i ==> a[j] != '/'
    {
      if a[i] != b[i] {
        assert forall j: nat :: CommonBoundary(a, b, j) && j > i ==> a[i] == a[..j][i] && b[i] == b[..j][i];
        return lastslash;
      }
      if a[i] == '/' {
        lastslash := if i == 0 then 1 else i;
      }
      i := i + 1;
    }
    if |a| > minlen {
      return if a[minlen] == '/' then minlen else lastslash;
    } else if |b| > minlen {
      return if b[minlen] == '/' then minlen else lastslash;
    }
    return minlen;
  }

  /** That is the length of the longest common directory prefix. */
  lemma {:induction false} CommonLength(p: Path, q: Path)
    ensures CommonLen(Join(p), Join(q)) == |Join(Common(p, q))|
  {
    hide CommonLen;
    var c, r := Common(p, q), CommonLen(Join(p), Join(q));
    PrefixStrings(c, p);
    PrefixStrings(c, q);
    assert Join(p)[..|Join(c)|] == Join(c) == Join(q)[..|Join(c)|];
    assert CommonBoundary(Join(p), Join(q), |Join(c)|);
    var k := BoundaryPrefix(p, r);
    var m := BoundaryPrefix(q, r);
    PrefixBoundary(p, k);
    PrefixBoundary(q, m);
    assert Join(p[..k]) == Join(p)[..r] == Join(q)[..r] == Join(q[..m]);
    JoinInjective(p[..k], q[..m]);
    CommonLongest(p, q, p[..k]);
    PrefixLength(p[..k], c);
  }

  // ------------------------------------------------------------------ pathcmp

  function Rank(s: string, i: nat): int {
    if i >= |s| then 0 else if s[i] == '/' then 1 else s[i] as int
  }

  /** What comparing two paths byte by byte gives, with '/' below all else. */
  function Compare(s: string, t: string): int
    decreases |s|
  {
    if s != "" && t != "" && Rank(s, 0) == Rank(t, 0) then Compare(s[1..], t[1..]) else Rank(s, 0) - Rank(t, 0)
  }

  /** No byte of the string stands for the terminator. */
  predicate Terminated(s: string) {
    forall i :: 0 <= i < |s| ==> 2 <= s[i] as int < 128
  }

  method PathCmp(s1: string, s2: string) returns (r: int)
    requires Terminated(s1) && Terminated(s2)
    ensures r == Compare(s1, s2)
  {
    var i := 0;
    var c1, c2 := Rank(s1, 0), Rank(s2, 0);
    while c1 == c2 && c1 != 0
      invariant i <= |s1| && i <= |s2| && c1 == Rank(s1, i) && c2 == Rank(s2, i)
      invariant Compare(s1, s2) == Compare(s1[i..], s2[i..])
      decreases |s1| - i
    {
      i := i + 1;
      c1, c2 := Rank(s1, i), Rank(s2, i);
      assert s1[i - 1..][1..] == s1[i..] && s2[i - 1..][1..] == s2[i..];
    }
    assert Rank(s1[i..], 0) == c1 && Rank(s2[i..], 0) == c2;
    r := c1 - c2;
  }
}
