/** What the header of a delta has to name, in terms of the revision numbers in the
    file: the first delta of each of its branches, and the delta that comes next. */
module RcsHeader {
  import opened Lines
  import opened RcsNum
  import opened RcsTree
  import opened RcsMeaning
  import opened RcsWalk

  /** Two revisions of one branch, or two of the trunk. */
  predicate Together(r: Rev, e: Rev) {
    |r| == |e| >= 2 && (|r| == 2 || r[..|r| - 1] == e[..|r| - 1])
  }

  /** `c` is the first revision on a branch of `d`. */
  ghost predicate StartsBranch(t: Tree, c: Rev, d: Rev) {
    && Placed(t, c) && |c| == |d| + 2 && c[..|d|] == d
    && forall e: Rev :: Placed(t, e) && Together(c, e) ==> Lex(c, e) <= 0
  }

  /** `n` is written behind `d`: on the trunk the next smaller revision, on a branch
      the next greater one. */
  ghost predicate Behind(t: Tree, n: Rev, d: Rev) {
    && Placed(t, n) && Together(n, d) && Later(d, n)
    && forall e: Rev :: Placed(t, e) && Together(e, d) && Later(d, e) ==> e == n || Later(n, e)
  }

  predicate Later(r: Rev, e: Rev) {
    if |r| == 2 then Lex(e, r) < 0 else Lex(e, r) > 0
  }

  /** Each branch is named once, by its first revision, in ascending order. */
  ghost predicate NamesBranches(t: Tree, d: Rev, cs: seq<Rev>) {
    && (forall c: Rev :: c in cs <==> StartsBranch(t, c, d))
    && (forall i, j :: 0 <= i < j < |cs| ==> Lex(cs[i], cs[j]) < 0)
  }

  ghost predicate NamesNext(t: Tree, d: Rev, next: Option<Rev>) {
    match next
    case Some(n) => Behind(t, n, d)
    case None => forall e: Rev :: Placed(t, e) && Together(e, d) ==> !Later(d, e)
  }

  // -------------------------------------------------------------------- branches

  lemma {:induction false} FirstStarts(t: Tree, d: Rev, b: Rev)
    requires WellFormed(t) && Placed(t, d) && b in BranchesOf(t, d)
    ensures |b| == |d| + 1 && DeltasOf(t, b) != [] && DeltasOf(t, b)[0] != []
    ensures b == Prefix(DeltasOf(t, b)[0]) && StartsBranch(t, DeltasOf(t, b)[0], d)
  {
    assert BranchesOk(t, d) && DeltasOk(t, b) && IsRev(d);
    var l := DeltasOf(t, b);
    var c := l[0];
    assert c in l && Placed(t, c) && Prefix(c) == b && Prefix(b) == d;
    assert c[..|d|] == b[..|d|] == d;
    forall e: Rev | Placed(t, e) && Together(c, e) ensures Lex(c, e) <= 0 {
      assert Prefix(e) == b && e in l;
      var j :| 0 <= j < |l| && l[j] == e;
      LexOrder(c, c, c);
      assert j > 0 ==> Before(Deltas, l[0], l[j]);
    }
  }

  lemma {:induction false} StartIsFirst(t: Tree, d: Rev, c: Rev)
    requires WellFormed(t) && Placed(t, d) && StartsBranch(t, c, d)
    ensures Prefix(c) in BranchesOf(t, d) && DeltasOf(t, Prefix(c)) != [] && DeltasOf(t, Prefix(c))[0] == c
  {
    var b := Prefix(c);
    assert TableOk(t) && IsRev(d) && IsRev(c) && Prefix(b) == d;
    assert Hangs(t, c) && BranchesOk(t, d) && DeltasOk(t, b);
    var l := DeltasOf(t, b);
    assert c in l;
    assert l[0] in l && Together(c, l[0]);
    var j :| 0 <= j < |l| && l[j] == c;
    LexOrder(c, l[0], c);
    assert j > 0 ==> Before(Deltas, l[0], l[j]);
  }

  /** Deltas of two branches of one delta compare as the branches do. */
  lemma {:induction false} LexAbove(a: Rev, b: Rev, x: nat, y: nat)
    requires |a| == |b| && Lex(a, b) != 0
    ensures Lex(a + [x], b + [y]) == Lex(a, b)
  {
    if a != [] {
      assert (a + [x])[1..] == a[1..] + [x] && (b + [y])[1..] == b[1..] + [y];
      if a[0] == b[0] { LexAbove(a[1..], b[1..], x, y); }
    }
  }

  lemma {:induction false} FirstsDescend(t: Tree, d: Rev, bs: seq<Rev>)
    requires WellFormed(t) && Placed(t, d)
    requires Sorted(Branches, bs) && forall b :: b in bs ==> b in BranchesOf(t, d)
    ensures |Firsts(t, bs)| == |bs|
    ensures forall i :: 0 <= i < |bs| ==> DeltasOf(t, bs[i]) != [] && Firsts(t, bs)[i] == DeltasOf(t, bs[i])[0]
    ensures forall i, j :: 0 <= i < j < |bs| ==> Lex(Firsts(t, bs)[j], Firsts(t, bs)[i]) < 0
  {
    if bs != [] {
      hide WellFormed, StartsBranch, Lex;
      FirstStarts(t, d, bs[0]);
      FirstsDescend(t, d, bs[1..]);
      var fs := Firsts(t, bs);
      forall i, j | 0 <= i < j < |bs| ensures Lex(fs[j], fs[i]) < 0 {
        if i > 0 {
          assert Lex(Firsts(t, bs[1..])[j - 1], Firsts(t, bs[1..])[i - 1]) < 0;
        } else {
          FirstBelow(t, d, bs[i], bs[j]);
          assert Before(Branches, bs[i], bs[j]);
        }
      }
    }
  }

  /** `cs` is `fs` turned round. */
  predicate Turned(fs: seq<Rev>, cs: seq<Rev>) {
    |cs| == |fs| && forall i :: 0 <= i < |cs| ==> cs[i] == fs[|fs| - 1 - i]
  }

  lemma {:induction false} TurnedHas(fs: seq<Rev>, cs: seq<Rev>, c: Rev)
    requires Turned(fs, cs)
    ensures c in cs <==> c in fs
  {
    if c in fs {
      var k :| 0 <= k < |fs| && fs[k] == c;
      assert cs[|fs| - 1 - k] == c;
    }
  }

  lemma {:induction false} TurnedAscends(fs: seq<Rev>, cs: seq<Rev>)
    requires Turned(fs, cs) && forall i, j :: 0 <= i < j < |fs| ==> Lex(fs[j], fs[i]) < 0
    ensures forall i, j :: 0 <= i < j < |cs| ==> Lex(cs[i], cs[j]) < 0
  {
    hide Lex;
    forall i, j | 0 <= i < j < |cs| ensures Lex(cs[i], cs[j]) < 0 {
      assert Lex(fs[|fs| - 1 - i], fs[|fs| - 1 - j]) < 0;
    }
  }

  lemma {:induction false} FirstIsStart(t: Tree, d: Rev, c: Rev)
    requires WellFormed(t) && Placed(t, d)
    ensures c in Firsts(t, BranchesOf(t, d)) <==> StartsBranch(t, c, d)
  {
    hide WellFormed, StartsBranch, Placed;
    FirstsOf(t, BranchesOf(t, d));
    if c in Firsts(t, BranchesOf(t, d)) {
      var b :| b in BranchesOf(t, d) && DeltasOf(t, b) != [] && DeltasOf(t, b)[0] == c;
      FirstStarts(t, d, b);
    }
    if StartsBranch(t, c, d) {
      StartIsFirst(t, d, c);
    }
  }

  /** The branches of a delta are named by the first deltas of their lists, turned
      round. */
  lemma {:induction false} BranchesNamed(t: Tree, d: Rev, cs: seq<Rev>)
    requires WellFormed(t) && Placed(t, d) && Turned(Firsts(t, BranchesOf(t, d)), cs)
    ensures NamesBranches(t, d, cs)
  {
    assert BranchesOk(t, d);
    hide WellFormed, StartsBranch, Lex, Turned, Firsts, Placed, BranchesOf, Sorted;
    FirstsDescend(t, d, BranchesOf(t, d));
    TurnedAscends(Firsts(t, BranchesOf(t, d)), cs);
    forall c: Rev ensures c in cs <==> StartsBranch(t, c, d) {
      TurnedHas(Firsts(t, BranchesOf(t, d)), cs, c);
      FirstIsStart(t, d, c);
    }
  }

  lemma {:induction false} FirstBelow(t: Tree, d: Rev, a: Rev, b: Rev)
    requires WellFormed(t) && Placed(t, d) && a in BranchesOf(t, d) && b in BranchesOf(t, d)
    ensures DeltasOf(t, a) != [] && DeltasOf(t, b) != []
    ensures Lex(a, b) > 0 ==> Lex(DeltasOf(t, b)[0], DeltasOf(t, a)[0]) < 0
  {
    hide WellFormed, StartsBranch, Lex;
    FirstStarts(t, d, a);
    FirstStarts(t, d, b);
    var p, q := DeltasOf(t, a)[0], DeltasOf(t, b)[0];
    if Lex(a, b) > 0 {
      assert p == a + [p[|p| - 1]] && q == b + [q[|q| - 1]];
      LexAbove(a, b, p[|p| - 1], q[|q| - 1]);
      LexOrder(p, q, p);
    }
  }

  // ------------------------------------------------------------------- the next one

  lemma {:induction false} InList(t: Tree, d: Rev, e: Rev)
    requires WellFormed(t) && Placed(t, d) && Listed(t, d)
    ensures e in ListOf(t, d) <==> Placed(t, e) && Together(e, d)
  {
    assert TableOk(t) && TrunkOk(t);
    if !IsTrunk(d) { assert DeltasOk(t, Prefix(d)); }
  }

  /** In a sorted list the neighbour is the next one. */
  lemma {:induction false} NextNamed(t: Tree, d: Rev)
    requires WellFormed(t) && Placed(t, d) && Listed(t, d)
    ensures NamesNext(t, d, Next(t, d))
  {
    hide WellFormed, Placed, IndexOf, Lex;
    ListSorted(t, d);
    var l := ListOf(t, d);
    var i := IndexOf(l, d);
    forall e: Rev | Placed(t, e) && Together(e, d)
      ensures e in l && (Later(d, e) ==> i + 1 < |l| && (e == l[i + 1] || Later(l[i + 1], e)))
    {
      InList(t, d, e);
      var j :| 0 <= j < |l| && l[j] == e;
      LexOrder(d, e, d);
      LexOrder(e, e, e);
      assert j < i ==> Before(if IsTrunk(d) then Trunk else Deltas, l[j], l[i]);
      assert j > i + 1 ==> Before(if IsTrunk(d) then Trunk else Deltas, l[i + 1], l[j]);
      if i + 1 < |l| {
        InList(t, d, l[i + 1]);
        LexOrder(l[i + 1], e, d);
      }
    }
    if i + 1 < |l| {
      InList(t, d, l[i + 1]);
      LexOrder(d, l[i + 1], d);
      assert Before(if IsTrunk(d) then Trunk else Deltas, l[i], l[i + 1]);
    }
  }
}
