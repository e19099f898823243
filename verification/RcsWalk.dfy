/** Walking the revision tree with an explicit stack: what one step keeps, and
    that the walk meets every delta exactly once, after its predecessor. */
module RcsWalk {
  import opened Lines
  import opened RcsNum
  import opened RcsTree
  import opened RcsMeaning

  predicate NoDup(l: seq<Rev>) {
    forall i, j :: 0 <= i < j < |l| ==> l[i] != l[j]
  }

  lemma NoDupAppend(a: seq<Rev>, b: seq<Rev>)
    requires NoDup(a) && NoDup(b) && forall x :: x in a ==> x !in b
    ensures NoDup(a + b)
  {
    var l := a + b;
    forall i, j | 0 <= i < j < |l| ensures l[i] != l[j] {
      if i < |a| <= j { assert a[i] in a && b[j - |a|] in b; }
    }
  }

  predicate PredIn(t: Tree, r: Rev, s: seq<Rev>) {
    Listed(t, r) && (Pred(t, r).Some? ==> Pred(t, r).value in s)
  }

  ghost predicate IsChild(t: Tree, c: Rev, d: Rev) {
    Placed(t, c) && Listed(t, c) && Pred(t, c) == Some(d)
  }

  /** `out` meets deltas once each, every one after its predecessor. */
  predicate Visits(t: Tree, out: seq<Rev>) {
    && NoDup(out)
    && forall i :: 0 <= i < |out| ==> Placed(t, out[i]) && PredIn(t, out[i], out[..i])
  }

  /** The state of a walk: `out` is done, `stack` waits. */
  ghost predicate Walk(t: Tree, out: seq<Rev>, stack: seq<Rev>) {
    && Visits(t, out)
    && NoDup(stack)
    && (forall x :: x in stack ==> x !in out && Placed(t, x) && PredIn(t, x, out))
    && (forall c, d :: d in out && IsChild(t, c, d) ==> c in out || c in stack)
    && (t.trunk != [] ==> t.trunk[0] in out || t.trunk[0] in stack)
  }

  lemma WalkStart(t: Tree)
    requires Complete(t)
    ensures Walk(t, [], [t.trunk[0]])
  {
    var r := t.trunk[0];
    assert r in t.trunk;
    PredPlaced(t, r);
    IndexBefore(t.trunk, r, 0);
  }

  lemma PredVisited(t: Tree, out: seq<Rev>, x: Rev)
    requires Visits(t, out)
    ensures x in out ==> PredIn(t, x, out)
  {
    if x in out {
      var i :| 0 <= i < |out| && out[i] == x;
      assert PredIn(t, out[i], out[..i]);
    }
  }

  lemma WalkStep(t: Tree, out: seq<Rev>, stack: seq<Rev>, kids: seq<Rev>)
    requires Walk(t, out, stack) && stack != []
    requires NoDup(kids) && forall c :: c in kids <==> IsChild(t, c, stack[0])
    ensures Walk(t, out + [stack[0]], kids + stack[1..])
  {
    hide Placed, Pred, Listed;
    var d := stack[0];
    var out1, stack1 := out + [d], kids + stack[1..];
    assert d in stack;
    forall i | 0 <= i < |out1| ensures Placed(t, out1[i]) && PredIn(t, out1[i], out1[..i]) {
      if i < |out| { assert out1[..i] == out[..i]; } else { assert out1[..i] == out; }
    }
    forall x | x in stack[1..] ensures x in stack && x != d { }
    assert d !in out;
    NoDupAppend(out, [d]);
    forall x | x in kids ensures x !in out && x !in stack && x != d {
      assert IsChild(t, x, d) && d !in out;
      assert x in stack ==> PredIn(t, x, out);
      PredVisited(t, out, x);
    }
    NoDupAppend(kids, stack[1..]);
    forall x | x in stack1 ensures x !in out1 && Placed(t, x) && PredIn(t, x, out1) {
      if x in kids { assert IsChild(t, x, d); } else { assert x in stack[1..]; assert PredIn(t, x, out); }
    }
    forall c, e | e in out1 && IsChild(t, c, e) ensures c in out1 || c in stack1 {
      if e == d { assert c in kids; } else { assert e in out; MovedOn(stack, c); }
    }
    if t.trunk != [] { MovedOn(stack, t.trunk[0]); }
  }

  lemma MovedOn(stack: seq<Rev>, x: Rev)
    requires stack != []
    ensures x in stack ==> x == stack[0] || x in stack[1..]
  {
  }

  /** When the stack is empty, every delta has been met. */
  lemma {:induction false} WalkEnd(t: Tree, out: seq<Rev>, r: Rev)
    requires Complete(t) && Walk(t, out, []) && Placed(t, r)
    ensures r in out
    decreases Depth(t, r)
  {
    PredPlaced(t, r);
    match Pred(t, r) {
      case Some(p) =>
        WalkEnd(t, out, p);
        assert IsChild(t, r, p);
      case None =>
        RootIsHead(t, r);
    }
  }

  lemma {:induction false} DistinctFit(l: seq<Rev>, s: set<Rev>)
    requires NoDup(l) && forall x :: x in l ==> x in s
    ensures |l| <= |s|
  {
    if l != [] {
      DistinctFit(l[1..], s - {l[0]});
    }
  }

  // ----------------------------------------------------------------- children

  function Firsts(t: Tree, bs: seq<Rev>): seq<Rev> {
    if bs == [] then []
    else (if DeltasOf(t, bs[0]) == [] then [] else [DeltasOf(t, bs[0])[0]]) + Firsts(t, bs[1..])
  }

  function NextList(t: Tree, d: Rev): seq<Rev>
    requires Listed(t, d)
  {
    if Next(t, d).Some? then [Next(t, d).value] else []
  }

  lemma {:induction false} FirstsOf(t: Tree, bs: seq<Rev>)
    ensures forall x :: x in Firsts(t, bs) <==> exists b :: b in bs && DeltasOf(t, b) != [] && DeltasOf(t, b)[0] == x
  {
    if bs != [] {
      FirstsOf(t, bs[1..]);
      forall x ensures x in Firsts(t, bs) <==> exists b :: b in bs && DeltasOf(t, b) != [] && DeltasOf(t, b)[0] == x {
        if x in Firsts(t, bs) {
          if x in Firsts(t, bs[1..]) {
            var b :| b in bs[1..] && DeltasOf(t, b) != [] && DeltasOf(t, b)[0] == x;
            assert b in bs;
          } else {
            assert bs[0] in bs;
          }
        }
      }
    }
  }

  lemma {:induction false} FirstsDistinct(t: Tree, d: Rev, bs: seq<Rev>)
    requires WellFormed(t) && Sorted(Branches, bs) && forall b :: b in bs ==> b in BranchesOf(t, d)
    ensures NoDup(Firsts(t, bs))
  {
    if bs != [] {
      var b := bs[0];
      FirstsDistinct(t, d, bs[1..]);
      FirstsOf(t, bs[1..]);
      if DeltasOf(t, b) != [] {
        var x := DeltasOf(t, b)[0];
        forall y | y in Firsts(t, bs[1..]) ensures y != x {
          var c :| c in bs[1..] && DeltasOf(t, c) != [] && DeltasOf(t, c)[0] == y;
          assert c != b by { var i :| 0 < i < |bs| && bs[i] == c; NotBefore(Branches, b, c); }
          assert DeltasOk(t, b) && DeltasOk(t, c);
          assert x in DeltasOf(t, b) && y in DeltasOf(t, c);
        }
        NoDupAppend([x], Firsts(t, bs[1..]));
      }
    }
  }

  lemma {:induction false} IndexUnique(k: Kind, l: seq<Rev>, r: Rev, i: nat)
    requires Sorted(k, l) && i < |l| && l[i] == r
    ensures IndexOf(l, r) == i
  {
    IndexBefore(l, r, i);
    NotBefore(k, r, r);
  }

  lemma ListSorted(t: Tree, r: Rev)
    requires WellFormed(t) && Placed(t, r)
    ensures Listed(t, r) && Sorted(if IsTrunk(r) then Trunk else Deltas, ListOf(t, r))
  {
    PlacedListed(t, r);
    if !IsTrunk(r) { assert DeltasOk(t, Prefix(r)); }
  }

  lemma NextIsChild(t: Tree, d: Rev, c: Rev)
    requires WellFormed(t) && Placed(t, d) && Listed(t, d)
    ensures Next(t, d) == Some(c) ==> IsChild(t, c, d) && |c| == |d|
    ensures IsChild(t, c, d) && |c| == |d| ==> Next(t, d) == Some(c)
  {
    hide WellFormed, Sorted;
    if Next(t, d) == Some(c) { ChildOfNext(t, d, c); }
    if IsChild(t, c, d) && |c| == |d| { NextOfChild(t, d, c); }
  }

  lemma ChildOfNext(t: Tree, d: Rev, c: Rev)
    requires WellFormed(t) && Placed(t, d) && Listed(t, d) && Next(t, d) == Some(c)
    ensures IsChild(t, c, d) && |c| == |d|
  {
    hide WellFormed, Sorted;
    ListSorted(t, d);
    ListedPlaced(t, d, c);
    PlacedListed(t, c);
    IndexUnique(if IsTrunk(d) then Trunk else Deltas, ListOf(t, d), c, IndexOf(ListOf(t, d), d) + 1);
  }

  lemma NextOfChild(t: Tree, d: Rev, c: Rev)
    requires WellFormed(t) && Placed(t, d) && Listed(t, d) && IsChild(t, c, d) && |c| == |d|
    ensures Next(t, d) == Some(c)
  {
    hide WellFormed, Sorted;
    var m := ListOf(t, c);
    var j := IndexOf(m, c);
    PlacedListed(t, c);
    assert j > 0;
    ListedPlaced(t, c, d);
    ListSorted(t, c);
    IndexUnique(if IsTrunk(d) then Trunk else Deltas, m, d, j - 1);
  }

  lemma {:induction false} FirstIsChild(t: Tree, d: Rev, c: Rev)
    requires WellFormed(t) && Placed(t, d)
    ensures c in Firsts(t, BranchesOf(t, d)) <==> IsChild(t, c, d) && |c| != |d|
  {
    hide WellFormed, IsChild, Placed;
    FirstsOf(t, BranchesOf(t, d));
    if c in Firsts(t, BranchesOf(t, d)) {
      var b :| b in BranchesOf(t, d) && DeltasOf(t, b) != [] && DeltasOf(t, b)[0] == c;
      FirstChild(t, d, c, b);
    }
    if IsChild(t, c, d) && |c| != |d| {
      ChildFirst(t, d, c);
    }
  }

  lemma {:induction false} FirstChild(t: Tree, d: Rev, c: Rev, b: Rev)
    requires WellFormed(t) && Placed(t, d)
    requires b in BranchesOf(t, d) && DeltasOf(t, b) != [] && DeltasOf(t, b)[0] == c
    ensures IsChild(t, c, d) && |c| != |d|
  {
    assert BranchesOk(t, d) && DeltasOk(t, b) && c in DeltasOf(t, b);
    hide WellFormed;
    IndexBefore(DeltasOf(t, b), c, 0);
  }

  lemma {:induction false} ChildFirst(t: Tree, d: Rev, c: Rev)
    requires WellFormed(t) && Placed(t, d) && IsChild(t, c, d) && |c| != |d|
    ensures exists b :: b in BranchesOf(t, d) && DeltasOf(t, b) != [] && DeltasOf(t, b)[0] == c
  {
    var l := ListOf(t, c);
    var i := IndexOf(l, c);
    if i > 0 { ListedPlaced(t, c, l[i - 1]); }
    assert i == 0 && Hangs(t, c) && BranchesOk(t, d);
    var b := Prefix(c);
    assert b in BranchesOf(t, d) && DeltasOf(t, b)[0] == c;
  }

  /** The children of a delta are its next and the first deltas of its branches. */
  lemma {:induction false} Children(t: Tree, d: Rev)
    requires WellFormed(t) && Placed(t, d) && Listed(t, d)
    ensures forall c :: IsChild(t, c, d) <==> c in NextList(t, d) || c in Firsts(t, BranchesOf(t, d))
    ensures NoDup(Firsts(t, BranchesOf(t, d)))
    ensures forall c :: c in NextList(t, d) ==> c !in Firsts(t, BranchesOf(t, d))
  {
    forall c ensures IsChild(t, c, d) <==> c in NextList(t, d) || c in Firsts(t, BranchesOf(t, d)) {
      NextIsChild(t, d, c);
      FirstIsChild(t, d, c);
    }
    assert BranchesOk(t, d);
    FirstsDistinct(t, d, BranchesOf(t, d));
    forall c | c in NextList(t, d) ensures c !in Firsts(t, BranchesOf(t, d)) {
      NextIsChild(t, d, c);
      FirstIsChild(t, d, c);
    }
  }
}
