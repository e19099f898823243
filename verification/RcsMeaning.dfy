/** What an RCS file means: the text of each revision, and why writing the file
    out again, with the tree's own links as diff bases, keeps it. */
module RcsMeaning {
  import opened Lines
  import opened EditScript
  import opened Reverse
  import opened DiffBytes
  import opened RcsNum
  import opened RcsTree

  // ------------------------------------------------------- links of the tree

  function IndexOf(l: seq<Rev>, r: Rev): (i: nat)
    requires r in l
    ensures i < |l| && l[i] == r && r !in l[..i]
  {
    if l[0] == r then 0 else 1 + IndexOf(l[1..], r)
  }

  predicate Listed(t: Tree, r: Rev) {
    r != [] && r in ListOf(t, r)
  }

  /** The delta after which `r` is written: the one before it in its list, or
      its branch point when it is first on a branch. */
  function Pred(t: Tree, r: Rev): Option<Rev>
    requires Listed(t, r)
  {
    var l := ListOf(t, r);
    var i := IndexOf(l, r);
    if i > 0 then Some(l[i - 1])
    else if |r| < 4 then None
    else Some(Prefix(Prefix(r)))
  }

  function Next(t: Tree, r: Rev): Option<Rev>
    requires Listed(t, r)
  {
    var l := ListOf(t, r);
    var i := IndexOf(l, r);
    if i + 1 < |l| then Some(l[i + 1]) else None
  }

  lemma PlacedListed(t: Tree, r: Rev)
    requires WellFormed(t) && Placed(t, r)
    ensures Listed(t, r) && IsRev(r)
  {
    if !IsTrunk(r) {
      assert Hangs(t, r) && DeltasOk(t, Prefix(r));
    }
  }

  lemma ListedPlaced(t: Tree, r: Rev, x: Rev)
    requires WellFormed(t) && Placed(t, r) && Listed(t, r) && x in ListOf(t, r)
    ensures Placed(t, x) && |x| == |r| && ListOf(t, x) == ListOf(t, r)
  {
    PlacedListed(t, r);
    if !IsTrunk(r) {
      assert DeltasOk(t, Prefix(r));
      assert |x| == |Prefix(x)| + 1 && |r| == |Prefix(r)| + 1;
    }
  }

  lemma PredInList(t: Tree, r: Rev, i: nat)
    requires WellFormed(t) && Placed(t, r) && Listed(t, r)
    requires i == IndexOf(ListOf(t, r), r) && i > 0
    ensures var p := ListOf(t, r)[i - 1];
            Placed(t, p) && Listed(t, p) && |p| == |r| && IndexOf(ListOf(t, p), p) < i
  {
    hide WellFormed, IndexOf;
    var l := ListOf(t, r);
    ListedPlaced(t, r, l[i - 1]);
    IndexBefore(l, l[i - 1], i - 1);
  }

  lemma {:induction false} PredPlaced(t: Tree, r: Rev)
    requires WellFormed(t) && Placed(t, r)
    ensures Listed(t, r)
    ensures Pred(t, r).Some? ==> Placed(t, Pred(t, r).value)
    ensures Pred(t, r).Some? ==>
      var p := Pred(t, r).value;
      Listed(t, p) && (|p| < |r| || (|p| == |r| && IndexOf(ListOf(t, p), p) < IndexOf(ListOf(t, r), r)))
  {
    PlacedListed(t, r);
    var i := IndexOf(ListOf(t, r), r);
    if i > 0 {
      PredInList(t, r, i);
    } else if |r| >= 4 {
      assert Hangs(t, r);
      hide WellFormed;
      PlacedListed(t, Prefix(Prefix(r)));
    }
  }

  lemma {:induction false} IndexBefore(l: seq<Rev>, r: Rev, i: nat)
    requires i < |l| && l[i] == r
    ensures IndexOf(l, r) <= i
  {
    if l[0] != r {
      IndexBefore(l[1..], r, i - 1);
    }
  }

  /** Number of links from `r` to the first delta of the trunk. */
  ghost function Depth(t: Tree, r: Rev): nat
    requires WellFormed(t) && Placed(t, r)
    decreases |r|, if Listed(t, r) then IndexOf(ListOf(t, r), r) else 0
  {
    PredPlaced(t, r);
    match Pred(t, r)
    case None => 0
    case Some(p) => 1 + Depth(t, p)
  }

  // -------------------------------------------------------- texts of revisions

  /** The text of a revision: the head's is stored whole, every other one is
      its diff base's with its delta applied.  None stands for an error; `fuel`
      bounds the length of the chain of diff bases. */
  function DeltaText(t: Tree, r: Rev, fuel: nat): Option<string>
    decreases fuel
  {
    if fuel == 0 || r !in t.nodes then None
    else
      var d := t.nodes[r];
      match d.diffbase
      case None => if r == t.head then Some(d.text) else None
      case Some(b) =>
        match DeltaText(t, b, fuel - 1)
        case None => None
        case Some(bytes) => Apply(SplitLines(d.text), SplitLines(bytes), false)
  }

  lemma {:induction false} MoreFuel(t: Tree, r: Rev, fuel: nat, more: nat)
    requires fuel <= more && DeltaText(t, r, fuel).Some?
    ensures DeltaText(t, r, more) == DeltaText(t, r, fuel)
    decreases fuel
  {
    hide Apply, SplitLines;
    var d := t.nodes[r];
    if d.diffbase.Some? {
      MoreFuel(t, d.diffbase.value, fuel - 1, more - 1);
    }
  }

  /** No chain of diff bases is longer than there are deltas. */
  function Enough(t: Tree): nat { |t.nodes| }

  /** The deltas of a chain of `fuel` links that a shorter one does not do for. */
  lemma {:induction false} Chain(t: Tree, r: Rev, fuel: nat) returns (revs: set<Rev>)
    requires fuel > 0 && DeltaText(t, r, fuel).Some? && DeltaText(t, r, fuel - 1).None?
    ensures |revs| == fuel && forall x :: x in revs ==> DeltaText(t, x, fuel).Some?
    decreases fuel
  {
    hide Apply, SplitLines;
    revs := {r};
    if fuel > 1 {
      var b := t.nodes[r].diffbase.value;
      if DeltaText(t, b, fuel - 2).Some? {
        MoreFuel(t, b, fuel - 2, fuel - 1);
        assert false;
      }
      var more := Chain(t, b, fuel - 1);
      forall x | x in more ensures DeltaText(t, x, fuel).Some? {
        MoreFuel(t, x, fuel - 1, fuel);
      }
      revs := more + {r};
    }
  }

  lemma {:induction false} FuelEnough(t: Tree, r: Rev, fuel: nat)
    requires DeltaText(t, r, fuel).Some?
    ensures DeltaText(t, r, Enough(t)) == DeltaText(t, r, fuel)
    decreases fuel
  {
    hide DeltaText;
    if fuel == 0 {
      NoText(t, r);
    } else if DeltaText(t, r, fuel - 1).Some? {
      MoreFuel(t, r, fuel - 1, fuel);
      FuelEnough(t, r, fuel - 1);
    } else {
      var revs := Chain(t, r, fuel);
      forall x | x in revs ensures x in t.nodes.Keys { HasDelta(t, x, fuel); }
      Smaller(revs, t.nodes.Keys);
      MoreFuel(t, r, fuel, Enough(t));
    }
  }

  lemma {:induction false} NoText(t: Tree, r: Rev)
    ensures DeltaText(t, r, 0) == None
  {
  }

  lemma {:induction false} HasDelta(t: Tree, r: Rev, fuel: nat)
    requires DeltaText(t, r, fuel).Some?
    ensures r in t.nodes
  {
  }

  lemma {:induction false} Smaller(a: set<Rev>, b: set<Rev>)
    requires a <= b
    ensures |a| <= |b|
  {
    assert b == a + (b - a);
  }

  /** `rcsfile_puttext`: what is written as the text of `r` when its predecessor
      in the file is `prev`.  None stands for an error return. */
  function PutText(t: Tree, r: Rev, prev: Option<Rev>, fuel: nat): Option<string>
    requires r in t.nodes && (prev.Some? ==> prev.value in t.nodes)
  {
    if t.nodes[r].diffbase == prev then Some(t.nodes[r].text)
    else if prev.None? then DeltaText(t, r, fuel)
    else if t.nodes[prev.value].diffbase == Some(r) then
      match DeltaText(t, r, fuel)
      case None => None
      case Some(bytes) =>
        match Reversed(SplitLines(t.nodes[prev.value].text), SplitLines(bytes))
        case None => None
        case Some(ls) => Some(Concat(ls))
    else Some("")
  }

  // ---------------------------------------------------------------- rewriting

  /** A complete file: every delta is placed, and there is a trunk. */
  ghost predicate Complete(t: Tree) {
    WellFormed(t) && t.trunk != [] && forall r :: r in t.nodes ==> Placed(t, r)
  }

  /** `t2` is what a reader gets from the written file `t`: the same deltas, the
      newest trunk delta as head, tree predecessors as diff bases, and the
      written texts. */
  ghost predicate Rewritten(t: Tree, t2: Tree, fuel: nat)
    requires Complete(t)
  {
    && t2.head == t.trunk[0]
    && (forall r :: r in t2.nodes <==> r in t.nodes)
    && (forall r :: r in t.nodes ==>
          && Listed(t, r)
          && t2.nodes[r].diffbase == Pred(t, r)
          && (Pred(t, r).Some? ==> Pred(t, r).value in t.nodes)
          && PutText(t, r, Pred(t, r), fuel) == Some(t2.nodes[r].text))
  }

  /** The delta `script`, which leads away from `oldText`, can be turned round. */
  predicate Turnable(script: string, oldText: string) {
    var rd, orig := SplitLines(script), SplitLines(oldText);
    && Reversible(rd) && NewText(rd, orig).Some?
    && SmallText(orig) && SmallText(NewText(rd, orig).value)
    && IsText(NewText(rd, orig).value)
  }

  /** What a delta of the written file says, given that its predecessor's text
      is kept: its own text when the predecessor was its diff base, or when it
      was the predecessor's and that delta has no abutting delete; an error when
      it has; the predecessor's text when neither was the other's diff base. */
  lemma RewrittenDelta(t: Tree, t2: Tree, r: Rev, fuel: nat, f: nat)
    requires Complete(t) && Rewritten(t, t2, fuel) && r in t.nodes
    requires DeltaText(t, r, fuel).Some?
    requires Pred(t, r).Some? && f > 0
    requires var p := Pred(t, r).value;
             && DeltaText(t, p, fuel).Some?
             && DeltaText(t2, p, f) == DeltaText(t, p, fuel)
             && (t.nodes[r].diffbase != Some(p) && t.nodes[p].diffbase == Some(r) ==>
                   Turnable(t.nodes[p].text, DeltaText(t, r, fuel).value))
    ensures var p := Pred(t, r).value;
            DeltaText(t2, r, f + 1)
            == if t.nodes[r].diffbase == Some(p) then DeltaText(t, r, fuel)
               else if t.nodes[p].diffbase == Some(r) then
                 if Separated(ScriptHunks(SplitLines(t.nodes[p].text))) then DeltaText(t, r, fuel) else None
               else DeltaText(t, p, fuel)
  {
    hide Apply, SplitLines, Reversed, ScriptHunks, Turnable, WellFormed, Separated, Pred, DeltaText;
    var p := Pred(t, r).value;
    var oldText, newText := DeltaText(t, r, fuel).value, DeltaText(t, p, fuel).value;
    assert Some(p) == t2.nodes[r].diffbase && PutText(t, r, Some(p), fuel) == Some(t2.nodes[r].text);
    DeltaStep(t2, r, p, f);
    if t.nodes[r].diffbase == Some(p) {
      SameBase(t, r, p, fuel);
    } else if t.nodes[p].diffbase == Some(r) {
      SameBase(t, p, r, fuel);
      Turn(t.nodes[p].text, oldText, newText);
    } else {
      EmptyScript(newText);
    }
  }

  lemma DeltaStep(t: Tree, r: Rev, b: Rev, f: nat)
    requires r in t.nodes && t.nodes[r].diffbase == Some(b)
    ensures DeltaText(t, r, f + 1)
         == match DeltaText(t, b, f)
            case None => None
            case Some(bytes) => Apply(SplitLines(t.nodes[r].text), SplitLines(bytes), false)
  {
    hide Apply, SplitLines;
  }

  lemma {:induction false} SameBase(t: Tree, r: Rev, b: Rev, fuel: nat)
    requires r in t.nodes && t.nodes[r].diffbase == Some(b)
    requires DeltaText(t, r, fuel).Some? && DeltaText(t, b, fuel).Some?
    ensures Apply(SplitLines(t.nodes[r].text), SplitLines(DeltaText(t, b, fuel).value), false) == DeltaText(t, r, fuel)
  {
    hide Apply, SplitLines;
    MoreFuel(t, b, fuel - 1, fuel);
  }

  lemma {:induction false} Turn(script: string, oldText: string, newText: string)
    requires Turnable(script, oldText)
    requires Apply(SplitLines(script), SplitLines(oldText), false) == Some(newText)
    ensures var rev := Reversed(SplitLines(script), SplitLines(oldText));
            && rev.Some?
            && Apply(SplitLines(Concat(rev.value)), SplitLines(newText), false)
               == if Separated(ScriptHunks(SplitLines(script))) then Some(oldText) else None
  {
    hide ParseScript, Reversed, SplitLines, Reversible, ScriptHunks;
    ReverseInvertsBytes(script, oldText);
  }

  lemma {:induction false} EmptyScript(bytes: string)
    ensures Apply(SplitLines(""), SplitLines(bytes), false) == Some(bytes)
  {
    SplitKeepsBytes(bytes);
    var ls := SplitLines(bytes);
    assert ls[0..] == ls;
  }

  /** A delta and its tree predecessor are each other's diff base one way or the
      other; in the second case the predecessor's delta can be turned round. */
  ghost predicate Linked(t: Tree, r: Rev, fuel: nat)
    requires Listed(t, r) && Pred(t, r).Some? && Pred(t, r).value in t.nodes && r in t.nodes
  {
    var p := Pred(t, r).value;
    t.nodes[r].diffbase == Some(p) ||
    (t.nodes[p].diffbase == Some(r) && DeltaText(t, r, fuel).Some?
     && Turnable(t.nodes[p].text, DeltaText(t, r, fuel).value)
     && Separated(ScriptHunks(SplitLines(t.nodes[p].text))))
  }

  /** Writing a file out and reading it back keeps the text of every revision,
      whatever new heads and branch deltas were added before. */
  lemma {:induction false} RewriteKeepsTexts(t: Tree, t2: Tree, r: Rev, fuel: nat)
    requires Complete(t) && Rewritten(t, t2, fuel) && r in t.nodes
    requires forall x :: x in t.nodes ==> DeltaText(t, x, fuel).Some?
    requires forall x :: x in t.nodes && Pred(t, x).Some? ==> Linked(t, x, fuel)
    ensures DeltaText(t2, r, Depth(t, r) + 1) == DeltaText(t, r, fuel)
    decreases Depth(t, r)
  {
    hide Apply, SplitLines, Reversed, ScriptHunks, Turnable, WellFormed, Separated, Pred, DeltaText, Listed;
    PredPlaced(t, r);
    assert Placed(t, r) && PutText(t, r, Pred(t, r), fuel) == Some(t2.nodes[r].text);
    match Pred(t, r) {
      case Some(p) =>
        RewriteKeepsTexts(t, t2, p, fuel);
        assert Linked(t, r, fuel);
        RewrittenDelta(t, t2, r, fuel, Depth(t, p) + 1);
      case None =>
        RootIsHead(t, r);
        WholeText(t, t2, r, fuel);
    }
  }

  lemma {:induction false} WholeText(t: Tree, t2: Tree, r: Rev, fuel: nat)
    requires r in t.nodes && r in t2.nodes && t2.nodes[r].diffbase == None && t2.head == r
    requires DeltaText(t, r, fuel).Some?
    requires PutText(t, r, None, fuel) == Some(t2.nodes[r].text)
    ensures DeltaText(t2, r, 1) == DeltaText(t, r, fuel)
  {
    hide Apply, SplitLines;
  }

  lemma RootIsHead(t: Tree, r: Rev)
    requires Complete(t) && Placed(t, r) && Listed(t, r) && Pred(t, r).None?
    ensures r == t.trunk[0]
  {
    PlacedListed(t, r);
  }
}
