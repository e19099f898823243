/** Writing a file and reading it back as a whole. */
module RcsRewrite {
  import opened Lines
  import opened RcsNum
  import opened RcsTree
  import opened RcsMeaning
  import opened RcsWalk
  import opened RcsFile
  import opened RcsImport

  // ---------------------------------------------------------- reading the texts

  predicate SameLists(t: Tree, s: Tree) {
    s.trunk == t.trunk && s.table == t.table && s.branchlist == t.branchlist && s.deltalist == t.deltalist &&
        s.head == t.head
  }

  lemma {:induction false} TextsRead(s: Tree, xs: seq<TextRec>)
    requires NoDup(TextRevs(xs)) && forall x :: x in xs ==> x.rev in s.nodes
    ensures var s2 := AddTexts(s, xs);
            && SameLists(s, s2) && s2.nodes.Keys == s.nodes.Keys
            && (forall r :: r in s.nodes && r !in TextRevs(xs) ==> s2.nodes[r] == s.nodes[r])
            && (forall x :: x in xs ==>
                  s2.nodes[x.rev] == s.nodes[x.rev].(log := s.nodes[x.rev].log + x.log,
                      text := s.nodes[x.rev].text + x.text))
    decreases |xs|
  {
    if xs != [] {
      var x, rest := xs[0], xs[1..];
      var revs := TextRevs(xs);
      assert TextRevs(rest) == revs[1..] && revs[0] == x.rev;
      assert x in xs;
      var s1 := AddText(s, x);
      assert s1.nodes.Keys == s.nodes.Keys;
      TextsRead(s1, rest);
      assert x.rev !in TextRevs(rest);
      forall y | y in rest ensures y.rev != x.rev {
        var i :| 0 <= i < |rest| && rest[i] == y;
        assert TextRevs(rest)[i] == y.rev;
      }
    }
  }

  lemma SameShapePred(t: Tree, s: Tree, r: Rev)
    requires WellFormed(t) && SameShape(t, s) && Placed(t, r)
    ensures Listed(t, r) && Listed(s, r) && Pred(s, r) == Pred(t, r)
  {
    hide WellFormed, Placed, IndexOf;
    PlacedListed(t, r);
    assert ListOf(s, r) == ListOf(t, r);
  }

  lemma NodesOnly(t: Tree, s: Tree)
    requires Complete(t) && SameLists(s, t.(head := s.head)) && s.nodes.Keys == t.nodes.Keys
    requires forall r :: r in s.nodes ==> !s.nodes[r].placeholder
    ensures Complete(s) && SameShape(t, s)
  {
    assert forall r :: Placed(s, r) <==> Placed(t, r);
    assert forall b :: DeltasOf(s, b) == DeltasOf(t, b);
    assert forall d :: BranchesOf(s, d) == BranchesOf(t, d);
    forall x ensures DeltasOk(s, x) { assert DeltasOk(t, x); }
    forall x ensures BranchesOk(s, x) { assert BranchesOk(t, x); }
    forall x | Placed(s, x) ensures Hangs(s, x) { assert Hangs(t, x); }
  }

  lemma {:induction false} NodeBack(t: Tree, xs: seq<TextRec>, s: Tree, t2: Tree, r: Rev, fuel: nat)
    requires r in t.nodes && r in TextRevs(xs) && (forall x :: x in xs ==> Written(t, x, fuel))
    requires r in s.nodes && Listed(t, r) && s.nodes[r].diffbase == Pred(t, r)
    requires s.nodes[r].text == "" && s.nodes[r].log == "" && Same(s.nodes[r], t.nodes[r]) && !s.nodes[r].placeholder
    requires forall x :: x in xs ==>
               x.rev in s.nodes && x.rev in t2.nodes &&
               t2.nodes[x.rev] == s.nodes[x.rev].(log := s.nodes[x.rev].log + x.log,
                   text := s.nodes[x.rev].text + x.text)
    ensures r in t2.nodes && Same(t2.nodes[r], t.nodes[r]) && t2.nodes[r].log == t.nodes[r].log
    ensures t2.nodes[r].diffbase == Pred(t, r) && !t2.nodes[r].placeholder
    ensures Pred(t, r).Some? ==> Pred(t, r).value in t.nodes
    ensures PutText(t, r, Pred(t, r), fuel) == Some(t2.nodes[r].text)
  {
    hide Pred, Listed, PutText;
    var i :| 0 <= i < |xs| && TextRevs(xs)[i] == r;
    var x := xs[i];
    assert x in xs && Written(t, x, fuel);
    assert "" + x.text == x.text && "" + x.log == x.log;
  }

  /** A file read back: the same deltas in the same lists, with the same header
      fields and logs, tree predecessors as diff bases and the written texts. */
  lemma ReadBack(t: Tree, hs: seq<HeaderRec>, xs: seq<TextRec>, fuel: nat)
    requires HeadersOf(t, hs) && TextsOf(t, xs, fuel)
    ensures forall h :: h in hs ==> IsRev(h.rev)
    ensures var t2 := Reread(t.trunk[0], hs, xs);
            && Complete(t2) && SameShape(t, t2) && Rewritten(t, t2, fuel)
            && (forall r :: r in t.nodes ==> Same(t2.nodes[r], t.nodes[r]) && t2.nodes[r].log == t.nodes[r].log)
  {
    assert Complete(t) && t.trunk != [];
    hide Pred, Listed, PutText, ImportAll, AddTexts, IsRev, SameShape, SameLists, Same;
    hide HeadersOf, TextsOf, Complete, Rewritten, NodeIsBack;
    ReadShape(t, hs);
    var s := ImportAll(EMPTY, hs).(head := t.trunk[0]);
    TextsBack(t, hs, s, xs, fuel);
    var t2 := AddTexts(s, xs);
    NodesBack(t, xs, s, t2, fuel);
    BackComplete(t, ImportAll(EMPTY, hs), t2);
    BackRewritten(t, t2, fuel);
  }

  ghost predicate NodeIsBack(t: Tree, t2: Tree, r: Rev, fuel: nat) {
    && r in t.nodes && r in t2.nodes && Same(t2.nodes[r], t.nodes[r]) && t2.nodes[r].log == t.nodes[r].log
    && Listed(t, r) && t2.nodes[r].diffbase == Pred(t, r) && !t2.nodes[r].placeholder
    && (Pred(t, r).Some? ==> Pred(t, r).value in t.nodes)
    && PutText(t, r, Pred(t, r), fuel) == Some(t2.nodes[r].text)
  }

  lemma {:induction false} NodesBack(t: Tree, xs: seq<TextRec>, s: Tree, t2: Tree, fuel: nat)
    requires TextsOf(t, xs, fuel)
    requires forall r :: r in t.nodes ==>
               r in s.nodes && Listed(t, r) && s.nodes[r].diffbase == Pred(t, r) && !s.nodes[r].placeholder
               && s.nodes[r].text == "" && s.nodes[r].log == "" && Same(s.nodes[r], t.nodes[r])
    requires forall x :: x in xs ==>
               x.rev in s.nodes && x.rev in t2.nodes &&
               t2.nodes[x.rev] == s.nodes[x.rev].(log := s.nodes[x.rev].log + x.log,
                   text := s.nodes[x.rev].text + x.text)
    ensures forall r :: r in t.nodes ==> NodeIsBack(t, t2, r, fuel)
    ensures forall r :: r in t.nodes ==> r in t2.nodes && !t2.nodes[r].placeholder
  {
    hide Pred, Listed, PutText, Written, Same, Visits;
    forall r | r in t.nodes ensures NodeIsBack(t, t2, r, fuel) {
      NodeBack(t, xs, s, t2, r, fuel);
    }
  }

  lemma {:induction false} BackRewritten(t: Tree, t2: Tree, fuel: nat)
    requires Complete(t) && t2.head == t.trunk[0] && (forall r :: r in t2.nodes <==> r in t.nodes)
    requires forall r :: r in t.nodes ==> NodeIsBack(t, t2, r, fuel)
    ensures Rewritten(t, t2, fuel)
    ensures forall r :: r in t.nodes ==> Same(t2.nodes[r], t.nodes[r]) && t2.nodes[r].log == t.nodes[r].log
  {
    hide WellFormed, Pred, Listed, PutText, Same;
  }

  lemma {:induction false} TextsBack(t: Tree, hs: seq<HeaderRec>, s: Tree, xs: seq<TextRec>, fuel: nat)
    requires HeadersOf(t, hs) && TextsOf(t, xs, fuel) && (forall h :: h in hs ==> IsRev(h.rev))
    requires s == ImportAll(EMPTY, hs).(head := t.trunk[0]) && SameShape(t, ImportAll(EMPTY, hs))
    requires Complete(ImportAll(EMPTY, hs))
    ensures var s2 := AddTexts(s, xs);
            && SameLists(s, s2) && s2.nodes.Keys == s.nodes.Keys && s2.head == t.trunk[0]
            && (forall x :: x in xs ==>
                  x.rev in s.nodes && x.rev in s2.nodes &&
                  s2.nodes[x.rev] == s.nodes[x.rev].(log := s.nodes[x.rev].log + x.log,
                      text := s.nodes[x.rev].text + x.text))
    ensures forall r :: r in t.nodes ==> r in s.nodes && !s.nodes[r].placeholder
    ensures AddTexts(s, xs) == Reread(t.trunk[0], hs, xs)
  {
    hide WellFormed, Pred, Listed, PutText, ImportAll, AddTexts, Visits, IsRev;
    VisitsNoDup(t, TextRevs(xs));
    TextsRead(s, xs);
  }

  lemma {:induction false} BackComplete(t: Tree, s: Tree, t2: Tree)
    requires Complete(s) && SameShape(t, s) && t.trunk != []
    requires SameLists(s.(head := t.trunk[0]), t2) && t2.head == t.trunk[0] && t2.nodes.Keys == s.nodes.Keys
    requires forall r :: r in t.nodes ==> r in t2.nodes && !t2.nodes[r].placeholder
    ensures Complete(t2) && SameShape(t, t2) && forall r :: r in t2.nodes <==> r in t.nodes
  {
    hide WellFormed;
    ImportedComplete(t, s, t2);
  }

  lemma VisitsNoDup(t: Tree, l: seq<Rev>)
    requires Visits(t, l)
    ensures NoDup(l)
  {
  }

  lemma ImportedComplete(t: Tree, s: Tree, t2: Tree)
    requires Complete(s) && SameShape(t, s)
    requires SameLists(s.(head := t2.head), t2) && t2.nodes.Keys == s.nodes.Keys
    requires forall r :: r in t2.nodes ==> !t2.nodes[r].placeholder
    ensures Complete(t2) && SameShape(t, t2)
  {
    NodesOnly(s, t2);
  }

  /** Rewriting a file keeps the text of every revision: when every delta and its
      tree predecessor are each other's diff base one way or the other, each
      revision of the file read back has the text it had before. */
  lemma {:induction false} RewriteRoundTrip(t: Tree, hs: seq<HeaderRec>, xs: seq<TextRec>, fuel: nat, r: Rev)
    requires HeadersOf(t, hs) && TextsOf(t, xs, fuel) && r in t.nodes
    requires forall x :: x in t.nodes ==> DeltaText(t, x, fuel).Some?
    requires forall x :: x in t.nodes && Listed(t, x) && Pred(t, x).Some? && Pred(t, x).value in t.nodes ==>
             Linked(t, x, fuel)
    ensures forall h :: h in hs ==> IsRev(h.rev)
    ensures DeltaText(Reread(t.trunk[0], hs, xs), r, Depth(t, r) + 1) == DeltaText(t, r, fuel)
  {
    hide WellFormed, Pred, Listed, PutText, Reread, Linked, DeltaText, IsRev;
    ReadBack(t, hs, xs, fuel);
    RewriteKeepsTexts(t, Reread(t.trunk[0], hs, xs), r, fuel);
  }

  /** Once read back, a file is written with the very texts it holds. */
  lemma RewriteIsStable(t: Tree, hs: seq<HeaderRec>, xs: seq<TextRec>, fuel: nat, r: Rev, fuel2: nat)
    requires HeadersOf(t, hs) && TextsOf(t, xs, fuel) && r in t.nodes
    ensures forall h :: h in hs ==> IsRev(h.rev)
    ensures var t2 := Reread(t.trunk[0], hs, xs);
            && r in t2.nodes && Listed(t2, r) && (Pred(t2, r).Some? ==> Pred(t2, r).value in t2.nodes)
            && PutText(t2, r, Pred(t2, r), fuel2) == Some(t2.nodes[r].text)
  {
    hide WellFormed, Pred, Listed, Reread, IsRev;
    ReadBack(t, hs, xs, fuel);
    SameShapePred(t, Reread(t.trunk[0], hs, xs), r);
  }

  lemma {:induction false} BaseIsPred(t: Tree, t2: Tree, r: Rev, fuel: nat)
    requires Complete(t) && Rewritten(t, t2, fuel) && r in t.nodes
    ensures Listed(t, r) && r in t2.nodes && t2.nodes[r].diffbase == Pred(t, r) && t2.head == t.trunk[0]
    ensures Placed(t, r) && (Pred(t, r).Some? ==> Pred(t, r).value in t.nodes)
  {
    hide WellFormed, Pred, Listed, PutText, Placed;
  }
}
