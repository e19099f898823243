/** Reading a written file back: the imported tree is the tree that was written,
    with tree predecessors as diff bases. */
module RcsImport {
  import opened Lines
  import opened RcsNum
  import opened RcsTree
  import opened RcsMeaning
  import opened RcsWalk
  import opened RcsFile

  function ImportHeader(t: Tree, h: HeaderRec): Tree
    requires IsRev(h.rev)
  {
    RcsTree.ImportDelta(t, h.rev, h.date, h.author, h.state, h.next)
  }

  function ImportAll(s: Tree, hs: seq<HeaderRec>): Tree
    requires forall h :: h in hs ==> IsRev(h.rev)
    decreases |hs|
  {
    if hs == [] then s else ImportAll(ImportHeader(s, hs[0]), hs[1..])
  }

  /** Adds log and text to a delta that is already there. */
  function AddText(t: Tree, x: TextRec): Tree {
    if x.rev !in t.nodes then t
    else
      var d := t.nodes[x.rev];
      t.(nodes := t.nodes[x.rev := d.(log := d.log + x.log, text := d.text + x.text)])
  }

  function AddTexts(t: Tree, xs: seq<TextRec>): Tree
    decreases |xs|
  {
    if xs == [] then t else AddTexts(AddText(t, xs[0]), xs[1..])
  }

  /** The tree a reader builds from the two passes of a writer. */
  function Reread(head: Rev, hs: seq<HeaderRec>, xs: seq<TextRec>): Tree
    requires forall h :: h in hs ==> IsRev(h.rev)
  {
    AddTexts(ImportAll(EMPTY, hs).(head := head), xs)
  }

  /** The headers of a complete file, in the order of the first pass. */
  ghost predicate HeadersOf(t: Tree, hs: seq<HeaderRec>) {
    && Complete(t) && Visits(t, HeaderRevs(hs)) && (forall r :: r in t.nodes ==> r in HeaderRevs(hs))
    && (forall h :: h in hs ==> h.rev in t.nodes && Listed(t, h.rev) && h == RecordOf(t, h.rev))
  }

  /** The texts of a complete file, in the order of the second pass. */
  ghost predicate TextsOf(t: Tree, xs: seq<TextRec>, fuel: nat) {
    && Visits(t, TextRevs(xs)) && (forall r :: r in t.nodes ==> r in TextRevs(xs))
    && (forall x :: x in xs ==> Written(t, x, fuel))
  }

  // --------------------------------------------------- the state of an import

  ghost predicate PlacedAre(s: Tree, revs: seq<Rev>) {
    forall r :: Placed(s, r) <==> r in revs
  }

  /** Diff bases are tree predecessors, and no text has been read yet. */
  ghost predicate BasesArePreds(t: Tree, s: Tree) {
    forall r :: r in s.nodes ==>
      r in t.nodes && Listed(t, r) && s.nodes[r].diffbase == Pred(t, r)
      && s.nodes[r].text == "" && s.nodes[r].log == ""
  }

  /** The predecessor of `r` is its neighbour in its list, and among `revs`. */
  predicate PredBeside(t: Tree, r: Rev, revs: seq<Rev>) {
    Listed(t, r) && Pred(t, r).Some? && |Pred(t, r).value| == |r| && Pred(t, r).value in revs
  }

  /** Nodes are the imported deltas and the placeholders of their next ones. */
  ghost predicate NodesAre(t: Tree, s: Tree, revs: seq<Rev>) {
    forall r :: r in s.nodes <==> r in revs || (r in t.nodes && PredBeside(t, r, revs))
  }

  /** The fields of a delta header. */
  predicate Same(d: Delta, e: Delta) {
    d.date == e.date && d.author == e.author && d.state == e.state
  }

  ghost predicate FieldsSame(t: Tree, s: Tree, revs: seq<Rev>) {
    forall r :: r in revs ==> r in s.nodes && r in t.nodes && Same(s.nodes[r], t.nodes[r])
  }

  ghost predicate HoldersBlank(s: Tree) {
    forall r :: r in s.nodes && !Placed(s, r) ==> s.nodes[r].state == None
  }

  /** `s` is the tree after the deltas `revs` of `t` have been imported. */
  ghost predicate Imported(t: Tree, s: Tree, revs: seq<Rev>) {
    && WellFormed(s) && PlacedAre(s, revs) && BasesArePreds(t, s)
    && NodesAre(t, s, revs) && FieldsSame(t, s, revs) && HoldersBlank(s)
  }

  /** A delta whose turn it is hangs from one already placed ... */
  lemma ReadyHangs(t: Tree, s: Tree, revs: seq<Rev>, r: Rev)
    requires Complete(t) && WellFormed(s) && PlacedAre(s, revs) && r in t.nodes && PredIn(t, r, revs)
    ensures IsRev(r) && (!IsTrunk(r) ==> Placed(s, Prefix(Prefix(r))))
  {
    hide WellFormed;
    PlacedListed(t, r);
    PredNotFirst(t, r);
    if !IsTrunk(r) {
      var p := Pred(t, r).value;
      if |p| == |r| {
        SameBranch(t, p, r);
        HangsFrom(s, p);
      }
    }
  }

  /** ... and its next delta has not been met. */
  lemma NextUnmet(t: Tree, s: Tree, revs: seq<Rev>, r: Rev)
    requires Complete(t) && NodesAre(t, s, revs) && r in t.nodes && Listed(t, r) && r !in revs
    requires forall x :: x in revs ==> PredIn(t, x, revs)
    requires Next(t, r).Some?
    ensures var n := Next(t, r).value;
            IsRev(n) && n != r && n !in s.nodes && n in t.nodes && Listed(t, n) && Pred(t, n) == Some(r) && |n| == |r|
  {
    hide WellFormed, Pred, Next, Listed;
    var n := Next(t, r).value;
    NextIsChild(t, r, n);
    assert IsChild(t, n, r);
    PlacedListed(t, n);
    NextNotSelf(t, r, n);
  }

  lemma SameBranch(t: Tree, p: Rev, r: Rev)
    requires WellFormed(t) && Placed(t, r) && Listed(t, r) && Pred(t, r) == Some(p) && |p| == |r| && !IsTrunk(r)
    ensures Prefix(p) == Prefix(r)
  {
    PlacedListed(t, r);
    assert DeltasOk(t, Prefix(r));
    assert p in DeltasOf(t, Prefix(r));
  }

  lemma HangsFrom(s: Tree, p: Rev)
    requires WellFormed(s) && Placed(s, p) && !IsTrunk(p)
    ensures |p| >= 4 && Placed(s, Prefix(Prefix(p)))
  {
    assert Hangs(s, p);
  }

  lemma NextNotSelf(t: Tree, r: Rev, n: Rev)
    requires WellFormed(t) && Placed(t, r) && Listed(t, r) && Next(t, r) == Some(n)
    ensures n != r
  {
    ListSorted(t, r);
    IndexUnique(if IsTrunk(r) then Trunk else Deltas, ListOf(t, r), n, IndexOf(ListOf(t, r), r) + 1);
  }

  /** A predecessor of the same length is the neighbour in the list; otherwise
      the delta is first in its list. */
  lemma {:induction false} PredNotFirst(t: Tree, r: Rev)
    requires WellFormed(t) && Placed(t, r) && Listed(t, r)
    ensures Pred(t, r).None? <==> IsTrunk(r) && IndexOf(ListOf(t, r), r) == 0
    ensures Pred(t, r).Some? && |Pred(t, r).value| != |r| ==>
      |r| >= 4 && Pred(t, r) == Some(Prefix(Prefix(r))) && IndexOf(ListOf(t, r), r) == 0
    ensures Pred(t, r).Some? && |Pred(t, r).value| == |r| ==> IndexOf(ListOf(t, r), r) > 0
  {
    PlacedListed(t, r);
    var l := ListOf(t, r);
    var i := IndexOf(l, r);
    if i > 0 { ListedPlaced(t, r, l[i - 1]); }
  }

  /** The first delta of a branch comes first in the imported branch as well. */
  lemma {:induction false} FirstStaysFirst(t: Tree, s: Tree, r: Rev)
    requires Complete(t) && WellFormed(s) && (forall x :: Placed(s, x) ==> x in t.nodes)
    requires r in t.nodes && !Placed(s, r) && Listed(t, r) && |r| >= 4 && IsRev(r)
    requires IndexOf(ListOf(t, r), r) == 0
    ensures FirstOfBranch(Place(s, r), r)
  {
    hide Lex, WellFormed;
    var b := Prefix(r);
    DeltasFacts(t, b);
    DeltasFacts(s, b);
    NoBranchNoDeltas(s, b);
    var ds, l := DeltasOf(s, b), DeltasOf(t, b);
    if ds != [] {
      var x := ds[0];
      assert x in ds && Placed(s, x);
      assert Placed(t, x) && x in l;
      var j := IndexOf(l, x);
      assert Before(Deltas, l[0], l[j]);
    }
  }

  lemma DeltasFacts(t: Tree, b: Rev)
    requires WellFormed(t)
    ensures DeltasOk(t, b)
  {
  }

  /** The node an import leaves for its delta. */
  lemma ImportedNode(t: Tree, s: Tree, revs: seq<Rev>, r: Rev)
    requires Complete(t) && Imported(t, s, revs) && r in t.nodes && r !in revs && PredIn(t, r, revs)
    requires IsRev(r)
    ensures var d := t.nodes[r];
            var s1 := RcsTree.ImportDelta(s, r, d.date, d.author, d.state, None);
            && r in s1.nodes && Same(s1.nodes[r], d) && !s1.nodes[r].placeholder
            && s1.nodes[r].diffbase == Pred(t, r) && s1.nodes[r].text == "" && s1.nodes[r].log == ""
            && s1.nodes == s.nodes[r := s1.nodes[r]]
  {
    hide WellFormed, Place, Insert, Pred, Listed;
    PredNotFirst(t, r);
    if r !in s.nodes && Pred(t, r).Some? {
      assert !PredBeside(t, r, revs);
      FirstStaysFirst(t, s, r);
    }
    if r !in s.nodes && Pred(t, r).None? {
      assert IsTrunk(r);
    }
  }

  /** The nodes after one import. */
  ghost predicate NodesAfter(t: Tree, s: Tree, s2: Tree, r: Rev)
    requires r in t.nodes && Listed(t, r)
  {
    var next := Next(t, r);
    && (forall x :: x in s2.nodes <==> x in s.nodes || x == r || next == Some(x))
    && (forall x :: x in s.nodes && x != r ==> s2.nodes[x] == s.nodes[x])
    && Same(s2.nodes[r], t.nodes[r]) && !s2.nodes[r].placeholder
    && s2.nodes[r].diffbase == Pred(t, r) && s2.nodes[r].text == "" && s2.nodes[r].log == ""
    && (next.Some? ==> s2.nodes[next.value] == Delta("", "", None, "", "", Some(r), true))
  }

  lemma ImportNodes(t: Tree, s: Tree, revs: seq<Rev>, r: Rev)
    requires Complete(t) && Imported(t, s, revs) && r in t.nodes && r !in revs && PredIn(t, r, revs)
    requires forall x :: x in revs ==> PredIn(t, x, revs)
    ensures IsRev(r) && WellFormed(ImportHeader(s, RecordOf(t, r)))
    ensures NodesAfter(t, s, ImportHeader(s, RecordOf(t, r)), r)
    ensures Next(t, r).Some? ==>
      var n := Next(t, r).value;
      n != r && n !in s.nodes && n in t.nodes && Listed(t, n) && Pred(t, n) == Some(r)
  {
    hide WellFormed, Place, Insert, Pred, Listed, Next, FirstOfBranch, BasesArePreds, FieldsSame, HoldersBlank;
    ReadyHangs(t, s, revs, r);
    var d, next := t.nodes[r], Next(t, r);
    if next.Some? { NextUnmet(t, s, revs, r); }
    assert !Placed(s, r);
    ImportedNode(t, s, revs, r);
    ImportKeeps(s, r, d.date, d.author, d.state, next);
  }

  lemma ImportStep(t: Tree, s: Tree, revs: seq<Rev>, r: Rev)
    requires Complete(t) && Imported(t, s, revs) && r in t.nodes && r !in revs && PredIn(t, r, revs)
    requires forall x :: x in revs ==> PredIn(t, x, revs)
    ensures IsRev(r) && Imported(t, ImportHeader(s, RecordOf(t, r)), revs + [r])
  {
    hide WellFormed, ImportHeader, RecordOf, Pred, Listed, Next, PredBeside;
    ImportNodes(t, s, revs, r);
    var s2, revs1 := ImportHeader(s, RecordOf(t, r)), revs + [r];
    assert PlacedAre(s2, revs1);
    assert BasesArePreds(t, s2);
    assert FieldsSame(t, s2, revs1);
    assert HoldersBlank(s2);
    NodesStep(t, s, s2, revs, r);
  }

  lemma NodesStep(t: Tree, s: Tree, s2: Tree, revs: seq<Rev>, r: Rev)
    requires Complete(t) && NodesAre(t, s, revs) && r in t.nodes && Listed(t, r)
    requires forall x :: x in s2.nodes <==> x in s.nodes || x == r || Next(t, r) == Some(x)
    ensures NodesAre(t, s2, revs + [r])
  {
    hide WellFormed, Pred, Listed, Next;
    forall x ensures x in s2.nodes <==> x in revs + [r] || (x in t.nodes && PredBeside(t, x, revs + [r])) {
      NextIsChild(t, r, x);
      if Next(t, r) == Some(x) {
        assert IsChild(t, x, r);
      }
      if x in t.nodes && PredBeside(t, x, revs + [r]) && !PredBeside(t, x, revs) {
        assert Placed(t, x) && Pred(t, x) == Some(r);
        assert IsChild(t, x, r);
      }
    }
  }

  lemma ImportOne(t: Tree, done: seq<HeaderRec>, todo: seq<HeaderRec>, s: Tree)
    requires HeadersOf(t, done + todo) && todo != [] && Imported(t, s, HeaderRevs(done))
    ensures IsRev(todo[0].rev) && Imported(t, ImportHeader(s, todo[0]), HeaderRevs(done + [todo[0]]))
  {
    hide WellFormed, Imported, Pred, Listed, RecordOf, ImportHeader, HeadersOf, PredIn;
    HeadersReady(t, done, todo);
    ImportStep(t, s, HeaderRevs(done), todo[0].rev);
    assert HeaderRevs(done + [todo[0]]) == HeaderRevs(done) + [todo[0].rev];
  }

  /** Importing the headers in the written order: `done` are behind, `todo` ahead. */
  lemma {:induction false} ImportWritten(t: Tree, done: seq<HeaderRec>, todo: seq<HeaderRec>, s: Tree)
    requires HeadersOf(t, done + todo) && Imported(t, s, HeaderRevs(done))
    ensures (forall h :: h in todo ==> IsRev(h.rev)) && Imported(t, ImportAll(s, todo), HeaderRevs(done + todo))
    decreases |todo|
  {
    hide Imported, ImportHeader, HeadersOf, HeaderRevs;
    if todo != [] {
      ImportOne(t, done, todo, s);
      assert (done + [todo[0]]) + todo[1..] == done + todo;
      ImportWritten(t, done + [todo[0]], todo[1..], ImportHeader(s, todo[0]));
    } else {
      assert done + todo == done;
    }
  }

  lemma HeadersReady(t: Tree, done: seq<HeaderRec>, todo: seq<HeaderRec>)
    requires HeadersOf(t, done + todo) && todo != []
    ensures Complete(t)
    ensures var h, revs := todo[0], HeaderRevs(done);
            && h.rev in t.nodes && Listed(t, h.rev) && h == RecordOf(t, h.rev)
            && h.rev !in revs && PredIn(t, h.rev, revs)
            && forall x :: x in revs ==> PredIn(t, x, revs)
  {
    hide WellFormed, Pred, Listed, RecordOf;
    var h, revs, all := todo[0], HeaderRevs(done), HeaderRevs(done + todo);
    assert h in done + todo by { assert (done + todo)[|done|] == h; }
    assert all[..|done|] == revs && all[|done|] == h.rev;
    assert PredIn(t, all[|done|], all[..|done|]);
    VisitsPrefix(t, all, |done|);
    forall x | x in revs ensures PredIn(t, x, revs) { PredVisited(t, revs, x); }
  }

  lemma VisitsPrefix(t: Tree, out: seq<Rev>, k: nat)
    requires Visits(t, out) && k <= |out|
    ensures Visits(t, out[..k])
  {
    forall i | 0 <= i < k ensures Placed(t, out[..k][i]) && PredIn(t, out[..k][i], out[..k][..i]) {
      assert out[..k][..i] == out[..i];
    }
  }

  // ------------------------------------------------------------ the tree read

  /** The same deltas in the same lists. */
  ghost predicate SameShape(t: Tree, s: Tree) {
    && s.trunk == t.trunk && s.table == t.table
    && (forall b :: DeltasOf(s, b) == DeltasOf(t, b))
    && (forall d :: BranchesOf(s, d) == BranchesOf(t, d))
    && (forall r :: r in s.nodes <==> r in t.nodes)
  }

  lemma SamePlacedSameShape(t: Tree, s: Tree)
    requires WellFormed(t) && WellFormed(s)
    requires forall r :: r in s.nodes <==> r in t.nodes
    requires forall r :: Placed(s, r) <==> Placed(t, r)
    ensures SameShape(t, s)
  {
    hide Before;
    SortedUnique(Trunk, s.trunk, t.trunk);
    SortedUnique(Table, s.table, t.table);
    forall b ensures DeltasOf(s, b) == DeltasOf(t, b) {
      assert DeltasOk(s, b) && DeltasOk(t, b);
      SortedUnique(Deltas, DeltasOf(s, b), DeltasOf(t, b));
    }
    forall d ensures BranchesOf(s, d) == BranchesOf(t, d) {
      BranchesWithin(s, t, d);
      BranchesWithin(t, s, d);
      assert BranchesOk(s, d) && BranchesOk(t, d);
      SortedUnique(Branches, BranchesOf(s, d), BranchesOf(t, d));
    }
  }

  lemma BranchesWithin(s: Tree, t: Tree, d: Rev)
    requires WellFormed(t) && WellFormed(s) && forall b :: DeltasOf(s, b) == DeltasOf(t, b)
    ensures forall b :: b in BranchesOf(s, d) ==> b in BranchesOf(t, d)
  {
    forall b | b in BranchesOf(s, d) ensures b in BranchesOf(t, d) {
      assert BranchesOk(s, d);
      assert DeltasOf(t, b) != [];
      DeltaHasBranch(t, b, DeltasOf(t, b)[0]);
    }
  }

  /** The headers read back give the tree that was written. */
  lemma {:induction false} ReadShape(t: Tree, hs: seq<HeaderRec>)
    requires HeadersOf(t, hs)
    ensures forall h :: h in hs ==> IsRev(h.rev)
    ensures var s := ImportAll(EMPTY, hs);
            && Complete(s) && SameShape(t, s)
            && (forall r :: r in s.nodes ==> Listed(t, r) && s.nodes[r].diffbase == Pred(t, r)
                                             && s.nodes[r].text == "" && s.nodes[r].log == "" &&
                                                 Same(s.nodes[r], t.nodes[r]))
  {
    hide Imported, HeadersOf, HeaderRevs;
    assert [] + hs == hs;
    StartImported(t);
    ImportWritten(t, [], hs, EMPTY);
    ImportedShape(t, ImportAll(EMPTY, hs), hs);
  }

  lemma {:induction false} StartImported(t: Tree)
    ensures Imported(t, EMPTY, HeaderRevs([]))
  {
    EmptyWellFormed();
    assert HeaderRevs([]) == [];
  }

  lemma {:induction false} ImportedShape(t: Tree, s: Tree, hs: seq<HeaderRec>)
    requires HeadersOf(t, hs) && Imported(t, s, HeaderRevs(hs))
    ensures Complete(s) && SameShape(t, s)
    ensures forall r :: r in s.nodes ==> Listed(t, r) && s.nodes[r].diffbase == Pred(t, r)
                                         && s.nodes[r].text == "" && s.nodes[r].log == "" &&
                                             Same(s.nodes[r], t.nodes[r])
  {
    hide WellFormed, Pred, Listed, IsRev, HeaderRevs;
    var revs := HeaderRevs(hs);
    assert forall r :: r in s.nodes <==> r in t.nodes;
    VisitedPlaced(t, revs);
    SamePlacedSameShape(t, s);
  }

  lemma {:induction false} VisitedPlaced(t: Tree, revs: seq<Rev>)
    requires Complete(t) && Visits(t, revs) && forall r :: r in t.nodes ==> r in revs
    ensures forall r :: Placed(t, r) <==> r in revs
  {
    hide WellFormed;
  }
}
