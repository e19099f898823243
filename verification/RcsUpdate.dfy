/** Updates that keep a file rewritable: new heads of the trunk and new tips of
    branches. */
module RcsUpdate {
  import opened Lines
  import opened EditScript
  import opened Reverse
  import opened RcsNum
  import opened RcsTree
  import opened RcsMeaning

  /** Adding a delta together with its text. */
  function Added(t: Tree, r: Rev, date: string, author: string, base: Rev, text: string): Tree
    requires IsRev(r) && r !in t.nodes
  {
    var t1 := AddDelta(t, r, date, author, base).value;
    t1.(nodes := t1.nodes[r := t1.nodes[r].(text := text)])
  }

  /** All texts can be rebuilt and every delta is linked to its predecessor. */
  ghost predicate Rewritable(t: Tree, fuel: nat) {
    && Complete(t)
    && (forall r :: r in t.nodes ==> DeltaText(t, r, fuel).Some?)
    && (forall r :: r in t.nodes ==> Listed(t, r) && (Pred(t, r).Some? ==> Pred(t, r).value in t.nodes))
    && (forall r :: r in t.nodes && Pred(t, r).Some? ==> Linked(t, r, fuel))
  }

  /** `s` has all the deltas of `t`, unchanged. */
  ghost predicate Extends(s: Tree, t: Tree) {
    s.head == t.head && forall r :: r in t.nodes ==> r in s.nodes && s.nodes[r] == t.nodes[r]
  }

  lemma {:induction false} TextKept(t: Tree, s: Tree, r: Rev, fuel: nat, more: nat)
    requires Extends(s, t) && DeltaText(t, r, fuel).Some? && fuel <= more
    ensures DeltaText(s, r, more) == DeltaText(t, r, fuel)
    decreases fuel
  {
    hide Apply, SplitLines;
    var d := t.nodes[r];
    if d.diffbase.Some? {
      TextKept(t, s, d.diffbase.value, fuel - 1, more - 1);
    }
  }

  lemma LinkedKept(t: Tree, s: Tree, r: Rev, fuel: nat)
    requires Extends(s, t) && r in t.nodes && Listed(t, r) && Pred(t, r).Some? && Pred(t, r).value in t.nodes
    requires Listed(s, r) && Pred(s, r) == Pred(t, r)
    requires Linked(t, r, fuel)
    ensures Linked(s, r, fuel + 1)
  {
    hide Turnable, Separated, SplitLines, ScriptHunks, DeltaText, Pred, Listed;
    if t.nodes[r].diffbase != Pred(t, r) {
      TextKept(t, s, r, fuel, fuel + 1);
    }
  }

  lemma {:induction false} InsertAtEnd(k: Kind, l: seq<Rev>, r: Rev)
    requires forall x :: x in l ==> !StopsAt(k, r, x)
    ensures Insert(k, l, r) == l + [r]
  {
    if l != [] {
      InsertAtEnd(k, l[1..], r);
      assert l == [l[0]] + l[1..];
    }
  }

  lemma {:induction false} IndexAppend(l: seq<Rev>, r: Rev, x: Rev)
    requires x in l
    ensures IndexOf(l + [r], x) == IndexOf(l, x)
  {
    assert (l + [r])[1..] == l[1..] + [r] || l == [];
    if l[0] != x {
      IndexAppend(l[1..], r, x);
    }
  }

  lemma {:induction false} IndexOfLast(l: seq<Rev>, r: Rev)
    requires r !in l
    ensures IndexOf(l + [r], r) == |l|
  {
    var m := l + [r];
    var i := IndexOf(m, r);
    assert m[|l|] == r;
    assert forall j :: 0 <= j < |l| ==> m[j] != r;
  }

  lemma {:induction false} AddedFacts(t: Tree, r: Rev, date: string, author: string, base: Rev, text: string)
    requires Complete(t) && IsRev(r) && r !in t.nodes && base in t.nodes
    requires !IsTrunk(r) ==> Prefix(Prefix(r)) in t.nodes
    ensures var s := Added(t, r, date, author, base, text);
            && Complete(s) && Extends(s, t)
            && s.nodes == t.nodes[r := Delta(date, author, None, "", text, Some(base), false)]
            && s.trunk == (if IsTrunk(r) then Insert(Trunk, t.trunk, r) else t.trunk)
            && (forall b :: DeltasOf(s, b) ==
                  if !IsTrunk(r) && b == Prefix(r) then Insert(Deltas, DeltasOf(t, b), r) else DeltasOf(t, b))
  {
    hide WellFormed, Place, Insert, Sorted;
    AddKeeps(t, r, date, author, base);
    var d := Delta(date, author, None, "", text, Some(base), false);
    var table := Insert(Table, t.table, r);
    TableFacts(t);
    InsertElements(Table, t.table, r);
    InsertSorted(Table, t.table, r);
    PlaceKeeps(t, r, d, table);
    var s := Added(t, r, date, author, base, text);
    assert s == Place(t, r).(nodes := t.nodes[r := d], table := table) by {
      AddedIsPlace(t, r, date, author, base, text);
    }
    if IsTrunk(r) {
      TrunkPlace(t, r);
    } else {
      PlaceFacts(t, r, d, table);
    }
    assert s.trunk != [] by { InsertNonEmpty(Trunk, t.trunk, r); }
  }

  lemma {:induction false} AddedIsPlace(t: Tree, r: Rev, date: string, author: string, base: Rev, text: string)
    requires IsRev(r) && r !in t.nodes && base in t.nodes
    ensures Added(t, r, date, author, base, text)
         == Place(t, r).(nodes := t.nodes[r := Delta(date, author, None, "", text, Some(base), false)],
                         table := Insert(Table, t.table, r))
  {
    hide Insert, Place;
  }

  lemma {:induction false} TrunkPlace(t: Tree, r: Rev)
    requires IsTrunk(r)
    ensures Place(t, r) == t.(trunk := Insert(Trunk, t.trunk, r))
  {
  }

  /** A new head of the trunk, sent as a delta against the old head, keeps the
      file rewritable when that delta can be turned round. */
  lemma {:induction false} NewHead(t: Tree, r: Rev, date: string, author: string, text: string, fuel: nat)
    requires Rewritable(t, fuel) && IsTrunk(r) && r !in t.nodes && Lex(r, t.trunk[0]) >= 0
    requires var oldText := DeltaText(t, t.trunk[0], fuel);
             && t.trunk[0] in t.nodes && oldText.Some?
             && Turnable(text, oldText.value) && Separated(ScriptHunks(SplitLines(text)))
             && Apply(SplitLines(text), SplitLines(oldText.value), false).Some?
    ensures Rewritable(Added(t, r, date, author, t.trunk[0], text), fuel + 1)
    ensures Added(t, r, date, author, t.trunk[0], text).trunk == [r] + t.trunk
    ensures DeltaText(Added(t, r, date, author, t.trunk[0], text), r, fuel + 1)
         == Apply(SplitLines(text), SplitLines(DeltaText(t, t.trunk[0], fuel).value), false)
  {
    hide WellFormed, Turnable, Separated, SplitLines, ScriptHunks, Lex, Apply, Pred, Listed, Linked;
    var base := t.trunk[0];
    AddedFacts(t, r, date, author, base, text);
    var s := Added(t, r, date, author, base, text);
    assert s.trunk == [r] + t.trunk;
    forall x | x in s.nodes
      ensures DeltaText(s, x, fuel + 1).Some?
      ensures Listed(s, x) && (Pred(s, x).Some? ==> Pred(s, x).value in s.nodes && Linked(s, x, fuel + 1))
    {
      HeadOne(t, s, r, x, fuel);
    }
    TextKept(t, s, base, fuel, fuel);
  }

  lemma {:induction false} HeadOne(t: Tree, s: Tree, r: Rev, x: Rev, fuel: nat)
    requires Rewritable(t, fuel) && IsTrunk(r) && r !in t.nodes && t.trunk[0] in t.nodes
    requires Complete(s) && Extends(s, t) && s.trunk == [r] + t.trunk && (forall b :: DeltasOf(s, b) == DeltasOf(t, b))
    requires forall y :: y in s.nodes <==> y in t.nodes || y == r
    requires s.nodes[r].diffbase == Some(t.trunk[0])
    requires DeltaText(t, t.trunk[0], fuel).Some?
    requires Turnable(s.nodes[r].text, DeltaText(t, t.trunk[0], fuel).value)
    requires Separated(ScriptHunks(SplitLines(s.nodes[r].text)))
    requires Apply(SplitLines(s.nodes[r].text), SplitLines(DeltaText(t, t.trunk[0], fuel).value), false).Some?
    requires x in s.nodes
    ensures DeltaText(s, x, fuel + 1).Some?
    ensures Listed(s, x) && (Pred(s, x).Some? ==> Pred(s, x).value in s.nodes && Linked(s, x, fuel + 1))
  {
    hide WellFormed, Turnable, Separated, SplitLines, ScriptHunks, Apply, Pred, Listed, Linked, Reversible;
    var base := t.trunk[0];
    PredPlaced(s, x);
    HeadPreds(t, s, r, x);
    if x == r {
      TextKept(t, s, base, fuel, fuel);
    } else {
      TextKept(t, s, x, fuel, fuel + 1);
      hide DeltaText;
      if x == base {
        HeadLinked(s, r, base, fuel + 1);
      } else if Pred(s, x).Some? {
        LinkedKept(t, s, x, fuel);
      }
    }
  }

  lemma {:induction false} HeadLinked(s: Tree, r: Rev, base: Rev, fuel: nat)
    requires base in s.nodes && r in s.nodes && Listed(s, base) && Pred(s, base) == Some(r)
    requires s.nodes[r].diffbase == Some(base) && DeltaText(s, base, fuel).Some?
    requires Turnable(s.nodes[r].text, DeltaText(s, base, fuel).value)
    requires Separated(ScriptHunks(SplitLines(s.nodes[r].text)))
    ensures Linked(s, base, fuel)
  {
  }

  /** How the links change: the old head now follows the new one. */
  lemma HeadPreds(t: Tree, s: Tree, r: Rev, x: Rev)
    requires Complete(t) && Complete(s) && Extends(s, t) && IsTrunk(r) && r !in t.nodes
    requires s.trunk == [r] + t.trunk && (forall b :: DeltasOf(s, b) == DeltasOf(t, b))
    requires x in s.nodes && (x == r || x in t.nodes)
    ensures Listed(s, x)
    ensures x == r ==> Pred(s, x) == None
    ensures x == t.trunk[0] ==> Pred(s, x) == Some(r)
    ensures x != r && x != t.trunk[0] ==> Listed(t, x) && Pred(s, x) == Pred(t, x)
  {
    assert t.trunk[0] in t.trunk && IsTrunk(t.trunk[0]);
    hide WellFormed;
    PlacedListed(s, x);
    if x != r {
      PlacedListed(t, x);
      if IsTrunk(x) {
        assert s.trunk[1..] == t.trunk;
        assert IndexOf(s.trunk, x) == 1 + IndexOf(t.trunk, x);
      }
    }
  }

  /** A new tip of a branch, sent as a delta against the revision before it,
      keeps the file rewritable. */
  lemma NewTip(t: Tree, r: Rev, date: string, author: string, base: Rev, text: string, fuel: nat)
    requires Rewritable(t, fuel) && IsRev(r) && !IsTrunk(r) && r !in t.nodes
    requires Prefix(Prefix(r)) in t.nodes && base in t.nodes && DeltaText(t, base, fuel).Some?
    requires var l := DeltasOf(t, Prefix(r));
             && (forall x :: x in l ==> Lex(r, x) >= 0)
             && base == (if l == [] then Prefix(Prefix(r)) else l[|l| - 1])
    requires Apply(SplitLines(text), SplitLines(DeltaText(t, base, fuel).value), false).Some?
    ensures Rewritable(Added(t, r, date, author, base, text), fuel + 1)
    ensures DeltaText(Added(t, r, date, author, base, text), r, fuel + 1)
         == Apply(SplitLines(text), SplitLines(DeltaText(t, base, fuel).value), false)
  {
    hide WellFormed, Turnable, Separated, SplitLines, ScriptHunks, Lex, Apply, Pred, Listed, Linked;
    AddedFacts(t, r, date, author, base, text);
    var s := Added(t, r, date, author, base, text);
    var l := DeltasOf(t, Prefix(r));
    InsertAtEnd(Deltas, l, r);
    assert DeltasOf(s, Prefix(r)) == l + [r];
    forall x | x in s.nodes
      ensures DeltaText(s, x, fuel + 1).Some?
      ensures Listed(s, x) && (Pred(s, x).Some? ==> Pred(s, x).value in s.nodes && Linked(s, x, fuel + 1))
    {
      PredPlaced(s, x);
      TipPreds(t, s, r, base, x);
      if x == r {
        TextKept(t, s, base, fuel, fuel);
        OwnLink(s, r, base, fuel + 1);
      } else {
        TextKept(t, s, x, fuel, fuel + 1);
        if Pred(s, x).Some? {
          LinkedKept(t, s, x, fuel);
        }
      }
    }
    TextKept(t, s, base, fuel, fuel);
  }

  lemma OwnLink(s: Tree, r: Rev, base: Rev, fuel: nat)
    requires r in s.nodes && base in s.nodes && Listed(s, r) && Pred(s, r) == Some(base)
    requires s.nodes[r].diffbase == Some(base)
    ensures Linked(s, r, fuel)
  {
  }

  lemma TipPreds(t: Tree, s: Tree, r: Rev, base: Rev, x: Rev)
    requires Complete(t) && Complete(s) && Extends(s, t) && IsRev(r) && !IsTrunk(r) && r !in t.nodes
    requires s.trunk == t.trunk && DeltasOf(s, Prefix(r)) == DeltasOf(t, Prefix(r)) + [r]
    requires forall b :: b != Prefix(r) ==> DeltasOf(s, b) == DeltasOf(t, b)
    requires var l := DeltasOf(t, Prefix(r)); base == (if l == [] then Prefix(Prefix(r)) else l[|l| - 1])
    requires x in s.nodes && (x == r || x in t.nodes)
    ensures Listed(s, x)
    ensures x == r ==> Pred(s, x) == Some(base)
    ensures x != r ==> Listed(t, x) && Pred(s, x) == Pred(t, x)
  {
    hide WellFormed;
    PlacedListed(s, x);
    var l := DeltasOf(t, Prefix(r));
    if x == r {
      NotListed(t, r);
      IndexOfLast(l, r);
    } else {
      PlacedListed(t, x);
      if !IsTrunk(x) && Prefix(x) == Prefix(r) {
        IndexAppend(l, r, x);
      }
    }
  }

  lemma {:induction false} NotListed(t: Tree, r: Rev)
    requires Complete(t) && IsRev(r) && !IsTrunk(r) && r !in t.nodes
    ensures r !in DeltasOf(t, Prefix(r))
  {
    assert DeltasOk(t, Prefix(r));
  }
}
