/** The RCS file object: adding and importing deltas, rebuilding a text along the
    diff bases, and the two passes that write the file. */
module RcsFile {
  import opened Lines
  import opened RcsNum
  import opened RcsTree
  import opened RcsMeaning
  import opened RcsWalk
  import opened RcsHeader
  import Diff

  /** One delta of the first pass. */
  datatype HeaderRec = HeaderRec(
    rev: Rev, date: string, author: string, state: Option<string>, branches: seq<Rev>, next: Option<Rev>)

  /** One delta of the second pass. */
  datatype TextRec = TextRec(rev: Rev, log: string, text: string)

  function Reversal(l: seq<Rev>): seq<Rev> {
    if l == [] then [] else Reversal(l[1..]) + [l[0]]
  }

  lemma {:induction false} HeadsStep(t: Tree, bs: seq<Rev>, i: nat)
    requires i < |bs|
    ensures var ds, rest := DeltasOf(t, bs[i]), Reversal(Firsts(t, bs[i + 1..]));
            Reversal(Firsts(t, bs[i..])) == if ds == [] then rest else rest + [ds[0]]
  {
    assert bs[i..][1..] == bs[i + 1..];
    var ds, fs := DeltasOf(t, bs[i]), Firsts(t, bs[i + 1..]);
    if ds == [] {
      assert [] + fs == fs;
    } else {
      assert ([ds[0]] + fs)[1..] == fs;
    }
  }

  lemma {:induction false} HeadsEnds(t: Tree, bs: seq<Rev>)
    ensures Reversal(Firsts(t, bs[|bs|..])) == [] && Reversal(Firsts(t, bs)) == Reversal(Firsts(t, bs[0..])) + []
  {
    assert bs[|bs|..] == [] && bs[0..] == bs;
    assert Reversal(Firsts(t, bs)) + [] == Reversal(Firsts(t, bs));
  }

  lemma {:induction false} HeadsMove(t: Tree, b: Rev, rest: seq<Rev>, inverted: seq<Rev>, ds: seq<Rev>)
    requires ds == if b in t.deltalist then t.deltalist[b] else []
    ensures DeltasOf(t, b) == ds
    ensures ds != [] ==> rest + [ds[0]] + inverted == rest + ([ds[0]] + inverted)
  {
  }

  function RecordOf(t: Tree, r: Rev): (h: HeaderRec)
    requires r in t.nodes && Listed(t, r)
    ensures h.rev == r
  {
    var d := t.nodes[r];
    HeaderRec(r, d.date, d.author, d.state, Reversal(Firsts(t, BranchesOf(t, r))), Next(t, r))
  }

  /** What the header of a delta has to say, in terms of the deltas in the tree. */
  ghost predicate HeaderSays(t: Tree, h: HeaderRec) {
    && h.rev in t.nodes
    && h.date == t.nodes[h.rev].date && h.author == t.nodes[h.rev].author && h.state == t.nodes[h.rev].state
    && NamesBranches(t, h.rev, h.branches) && NamesNext(t, h.rev, h.next)
  }

  lemma {:induction false} ReversalTurns(l: seq<Rev>)
    ensures |Reversal(l)| == |l| && forall i :: 0 <= i < |l| ==> Reversal(l)[i] == l[|l| - 1 - i]
  {
    if l != [] {
      ReversalTurns(l[1..]);
    }
  }

  lemma {:induction false} RecordSays(t: Tree, d: Rev)
    requires WellFormed(t) && Placed(t, d) && Listed(t, d)
    ensures HeaderSays(t, RecordOf(t, d))
  {
    hide WellFormed, Firsts, NamesBranches, NamesNext, Next;
    ReversalTurns(Firsts(t, BranchesOf(t, d)));
    BranchesNamed(t, d, RecordOf(t, d).branches);
    NextNamed(t, d);
  }

  function HeaderRevs(hs: seq<HeaderRec>): seq<Rev> {
    seq(|hs|, i requires 0 <= i < |hs| => hs[i].rev)
  }

  function TextRevs(xs: seq<TextRec>): seq<Rev> {
    seq(|xs|, i requires 0 <= i < |xs| => xs[i].rev)
  }

  /** The chain of diff bases of a revision ends at the recorded head. */
  predicate Grounded(t: Tree, r: Rev, fuel: nat)
    decreases fuel
  {
    fuel > 0 && r in t.nodes &&
    match t.nodes[r].diffbase
    case None => r == t.head
    case Some(b) => Grounded(t, b, fuel - 1)
  }

  lemma {:induction false} ReversalElements(l: seq<Rev>)
    ensures forall x :: x in Reversal(l) <==> x in l
    ensures |Reversal(l)| == |l|
    ensures NoDup(l) ==> NoDup(Reversal(l))
  {
    if l != [] {
      ReversalElements(l[1..]);
      if NoDup(l) {
        NoDupAppend(Reversal(l[1..]), [l[0]]);
      }
    }
  }

  /** Insertion by date, in front of the first delta that is not older. */
  function InsertByDate(t: Tree, l: seq<Rev>, r: Rev): seq<Rev>
    requires r in t.nodes && forall x :: x in l ==> x in t.nodes
  {
    if l == [] then [r]
    else if Cmp(t.nodes[r].date, t.nodes[l[0]].date) <= 0 then [r] + l
    else [l[0]] + InsertByDate(t, l[1..], r)
  }

  predicate NotYounger(t: Tree, x: Rev, y: Rev) {
    x in t.nodes && y in t.nodes && Cmp(t.nodes[x].date, t.nodes[y].date) <= 0
  }

  /** No delta is younger than the one behind it. */
  ghost predicate ByDate(t: Tree, l: seq<Rev>) {
    forall i :: 0 < i < |l| ==> NotYounger(t, l[i - 1], l[i])
  }

  lemma {:induction false} InsertedByDate(t: Tree, l: seq<Rev>, r: Rev)
    requires r in t.nodes && (forall x :: x in l ==> x in t.nodes) && ByDate(t, l)
    ensures ByDate(t, InsertByDate(t, l, r))
    ensures InsertByDate(t, l, r) != [] && InsertByDate(t, l, r)[0] in (if l == [] then [r] else [r, l[0]])
  {
    if l != [] {
      CmpTurned(t.nodes[r].date, t.nodes[l[0]].date);
      if Cmp(t.nodes[r].date, t.nodes[l[0]].date) > 0 {
        forall i | 0 < i < |l[1..]| ensures NotYounger(t, l[1..][i - 1], l[1..][i]) {
          assert NotYounger(t, l[i], l[i + 1]);
        }
        InsertedByDate(t, l[1..], r);
        var m := InsertByDate(t, l[1..], r);
        assert NotYounger(t, l[0], m[0]) by {
          if m[0] != r { assert NotYounger(t, l[0], l[1]); }
        }
        hide Cmp;
      }
    }
  }

  lemma {:induction false} TurnedByDate(t: Tree, l: seq<Rev>)
    requires ByDate(t, l)
    ensures |Reversal(l)| == |l| && forall i :: 0 < i < |l| ==> NotYounger(t, Reversal(l)[i], Reversal(l)[i - 1])
  {
    ReversalTurns(l);
    hide NotYounger;
    forall i | 0 < i < |l| ensures NotYounger(t, Reversal(l)[i], Reversal(l)[i - 1]) {
      assert NotYounger(t, l[|l| - 1 - i], l[|l| - i]);
    }
  }

  lemma {:induction false} DateStep(t: Tree, l: seq<Rev>, r: Rev, i: nat)
    requires r in t.nodes && (forall x :: x in l ==> x in t.nodes) && i <= |l|
    ensures InsertByDate(t, l[i..], r) ==
            if i == |l| then [r]
            else if Cmp(t.nodes[r].date, t.nodes[l[i]].date) <= 0 then [r] + l[i..]
            else [l[i]] + InsertByDate(t, l[i + 1..], r)
    ensures i < |l| ==> l[..i + 1] == l[..i] + [l[i]]
  {
    if i < |l| {
      assert l[i..][1..] == l[i + 1..];
    }
  }

  lemma {:induction false} InsertByDateElements(t: Tree, l: seq<Rev>, r: Rev)
    requires r in t.nodes && forall x :: x in l ==> x in t.nodes
    ensures forall x :: x in InsertByDate(t, l, r) <==> x in l || x == r
    ensures NoDup(l) && r !in l ==> NoDup(InsertByDate(t, l, r))
  {
    if l != [] {
      InsertByDateElements(t, l[1..], r);
      if NoDup(l) && r !in l {
        if Cmp(t.nodes[r].date, t.nodes[l[0]].date) <= 0 {
          NoDupAppend([r], l);
        } else {
          NoDupAppend([l[0]], InsertByDate(t, l[1..], r));
        }
      }
    }
  }

  class RcsFile {
    var head: Rev
    var nodes: map<Rev, Delta>
    var table: seq<Rev>
    var trunk: seq<Rev>
    var branchlist: map<Rev, seq<Rev>>
    var deltalist: map<Rev, seq<Rev>>
    /** The predecessor recorded by the text pass. */
    var prev: map<Rev, Option<Rev>>

    ghost function View(): Tree
      reads this
    {
      Tree(head, nodes, table, trunk, branchlist, deltalist)
    }

    constructor ()
      ensures View() == EMPTY
    {
      head, nodes, table, trunk := [], map[], [], [];
      branchlist, deltalist, prev := map[], map[], map[];
    }

    /** A sorted insert: in front of the element it stops at, or at the end. */
    static method InsertInto(k: Kind, l: seq<Rev>, r: Rev) returns (m: seq<Rev>)
      ensures m == Insert(k, l, r)
    {
      hide Insert, StopsAt;
      var i := 0;
      assert l[..0] + Insert(k, l[0..], r) == Insert(k, l, r) by { assert l[0..] == l; }
      while i < |l|
        invariant i <= |l|
        invariant Insert(k, l, r) == l[..i] + Insert(k, l[i..], r)
      {
        InsertStep(k, l, r, i);
        if StopsAt(k, r, l[i]) { return l[..i] + [r] + l[i..]; }
        i := i + 1;
      }
      assert l[..i] == l && Insert(k, l[i..], r) == [r] by { InsertNone(k, r); assert l[i..] == []; }
      return l + [r];
    }

    /** Puts a delta into its list. */
    method PlaceDelta(r: Rev)
      requires IsRev(r)
      modifies this`trunk, this`branchlist, this`deltalist
      ensures View() == old(Place(View(), r))
    {
      if IsTrunk(r) {
        trunk := InsertInto(Trunk, trunk, r);
      } else {
        var b := Prefix(r);
        var d := Prefix(b);
        var bs := if d in branchlist then branchlist[d] else [];
        if b in bs {
          var ds := InsertInto(Deltas, if b in deltalist then deltalist[b] else [], r);
          branchlist, deltalist := branchlist[d := bs], deltalist[b := ds];
        } else {
          bs := InsertInto(Branches, bs, b);
          branchlist, deltalist := branchlist[d := bs], deltalist[b := [r]];
        }
      }
    }

    /** Adds a delta sent by the server; its text and log are appended later. */
    method AddDelta(r: Rev, date: string, author: string, base: Rev) returns (ok: bool)
      requires IsRev(r)
      modifies this`nodes, this`table, this`trunk, this`branchlist, this`deltalist
      ensures ok <==> old(RcsTree.AddDelta(View(), r, date, author, base)).Some?
      ensures View() == if ok then old(RcsTree.AddDelta(View(), r, date, author, base)).value else old(View())
    {
      if r in nodes { return false; }
      var diffbase := if base in nodes then Some(base) else None;
      PlaceDelta(r);
      nodes := nodes[r := Delta(date, author, None, "", "", diffbase, false)];
      table := InsertInto(Table, table, r);
      return true;
    }

    /** Imports a delta header met while parsing. */
    method ImportDelta(r: Rev, date: string, author: string, state: Option<string>, next: Option<Rev>)
      requires IsRev(r)
      modifies this`nodes, this`table, this`trunk, this`branchlist, this`deltalist
      ensures View() == old(RcsTree.ImportDelta(View(), r, date, author, state, next))
    {
      if r in nodes && !nodes[r].placeholder { return; }
      var unseen := r !in nodes;
      var d := if unseen then Delta("", "", None, "", "", None, false) else nodes[r];
      d := d.(date := date, author := author, placeholder := false);
      if state.Some? {
        d := d.(state := state);
      }
      PlaceDelta(r);
      if unseen {
        if !IsTrunk(r) && Prefix(r) in deltalist && deltalist[Prefix(r)] != [] && deltalist[Prefix(r)][0] == r {
          d := d.(diffbase := Some(Prefix(Prefix(r))));
        }
        table := InsertInto(Table, table, r);
      }
      nodes := nodes[r := d];
      if next.Some? {
        nodes := nodes[next.value := Delta("", "", None, "", "", Some(r), true)];
        table := InsertInto(Table, table, next.value);
      }
    }

    /** The text of a revision, rebuilt along the chain of diff bases. */
    method GetDeltaText(r: Rev, ghost fuel: nat) returns (res: Option<string>)
      requires Grounded(View(), r, fuel)
      ensures res == DeltaText(View(), r, fuel)
      decreases fuel
    {
      var d := nodes[r];
      if d.diffbase.None? && head == r { return Some(d.text); }
      var base := GetDeltaText(d.diffbase.value, fuel - 1);
      if base.None? { return None; }
      var rd := new Diff.Source(SplitLines(d.text));
      var orig := new Diff.Source(SplitLines(base.value));
      var ok, bytes := Diff.DiffApply(rd, orig, false);
      if !ok { return None; }
      return Some(bytes);
    }

    /** The text to be written for `r` after its predecessor `diffbase`. */
    method PutText(r: Rev, diffbase: Option<Rev>, ghost fuel: nat) returns (res: Option<string>)
      requires r in nodes && (diffbase.Some? ==> diffbase.value in nodes) && Grounded(View(), r, fuel)
      ensures res == RcsMeaning.PutText(View(), r, diffbase, fuel)
    {
      if nodes[r].diffbase == diffbase { return Some(nodes[r].text); }
      if diffbase.None? {
        res := GetDeltaText(r, fuel);
        return;
      }
      if nodes[diffbase.value].diffbase == Some(r) {
        var text := GetDeltaText(r, fuel);
        if text.None? { return None; }
        var rd := new Diff.Source(SplitLines(nodes[diffbase.value].text));
        var orig := new Diff.Source(SplitLines(text.value));
        var dest := new Diff.Sink();
        var ok := Diff.DiffReverse(rd, orig, dest);
        if !ok { return None; }
        return Some(Concat(dest.out));
      }
      return Some("");
    }

    /** The first deltas of the branches of `d`, in the order in which they come
        off a list built at its head. */
    method BranchHeads(d: Rev) returns (inverted: seq<Rev>)
      ensures inverted == Reversal(Firsts(View(), BranchesOf(View(), d)))
    {
      hide Firsts, Reversal, DeltasOf;
      ghost var t := View();
      var bs := if d in branchlist then branchlist[d] else [];
      var i := 0;
      inverted := [];
      HeadsEnds(t, bs);
      while i < |bs|
        invariant i <= |bs|
        invariant Reversal(Firsts(t, bs)) == Reversal(Firsts(t, bs[i..])) + inverted
      {
        HeadsStep(t, bs, i);
        var ds := if bs[i] in deltalist then deltalist[bs[i]] else [];
        HeadsMove(t, bs[i], Reversal(Firsts(t, bs[i + 1..])), inverted, ds);
        if ds != [] {
          inverted := [ds[0]] + inverted;
        }
        i := i + 1;
      }
    }

    /** Prints the header of `d` and stacks the deltas to come. */
    method WriteHeader(d: Rev, stack: seq<Rev>) returns (rec: HeaderRec, stack': seq<Rev>)
      requires WellFormed(View()) && Placed(View(), d) && Listed(View(), d)
      ensures rec == RecordOf(View(), d) && rec.rev == d
      ensures |stack| <= |stack'| && stack'[|stack'| - |stack|..] == stack
      ensures var kids := stack'[..|stack'| - |stack|];
              NoDup(kids) && forall c :: c in kids <==> IsChild(View(), c, d)
    {
      hide WellFormed;
      var inverted := BranchHeads(d);
      var next := NextOf(d);
      ghost var kids := NextList(View(), d) + inverted;
      Kids(View(), d, kids, inverted);
      stack' := inverted + stack;
      if next.Some? {
        stack' := [next.value] + stack';
      }
      assert stack' == kids + stack;
      rec := HeaderRec(d, nodes[d].date, nodes[d].author, nodes[d].state, inverted, next);
    }

    /** The first pass: every delta once, after its predecessor, with a header that
        names its branches and the next delta. */
    method WriteDeltas() returns (out: seq<HeaderRec>)
      requires Complete(View())
      ensures forall h :: h in out ==> HeaderSays(View(), h)
      ensures Visits(View(), HeaderRevs(out))
      ensures forall r :: r in nodes ==> r in HeaderRevs(out)
      ensures forall h :: h in out ==> h.rev in nodes && Listed(View(), h.rev) && h == RecordOf(View(), h.rev)
    {
      hide WellFormed, HeaderState, Visits, RecordOf, HeaderSays, Placed, Listed, NoDup, IsChild, HeaderRevs;
      ghost var t := View();
      out := [];
      HeaderStart(t);
      var stack := [trunk[0]];
      while stack != []
        invariant HeaderState(t, out, stack)
        decreases |nodes| - |out|
      {
        var d := stack[0];
        HeaderNext(t, out, stack);
        var rec, stack1 := WriteHeader(d, stack[1..]);
        ghost var kids := stack1[..|stack1| - |stack[1..]|];
        assert stack1 == kids + stack[1..];
        HeaderStep(t, out, stack, rec, kids);
        stack := stack1;
        out := out + [rec];
      }
      HeaderEnd(t, out);
    }

    /** The first deltas of the branches of `d` put among `start` by their date. */
    method DateSorted(d: Rev, start: seq<Rev>) returns (dated: seq<Rev>)
      requires WellFormed(View()) && Placed(View(), d) && Listed(View(), d)
      requires NoDup(start) && forall x :: x in start ==> x in nodes && x !in Firsts(View(), BranchesOf(View(), d))
      ensures NoDup(dated) && (ByDate(View(), start) ==> ByDate(View(), dated))
      ensures forall x :: x in dated <==> x in start || x in Firsts(View(), BranchesOf(View(), d))
    {
      hide WellFormed, InsertByDate, IsChild, ByDate;
      ghost var t := View();
      Children(t, d);
      FirstsPlaced(t, d);
      var bs := if d in branchlist then branchlist[d] else [];
      dated := start;
      var i := 0;
      while i < |bs|
        invariant i <= |bs| && NoDup(dated)
        invariant forall x :: x in dated ==> x in nodes
        invariant ByDate(t, start) ==> ByDate(t, dated)
        invariant forall x :: x in dated <==> x in start || x in Firsts(t, bs[..i])
        invariant forall x :: x in Firsts(t, bs[..i]) ==> x in Firsts(t, bs)
      {
        FirstsSnoc(t, bs, i);
        var ds := if bs[i] in deltalist then deltalist[bs[i]] else [];
        if ds != [] {
          InsertByDateElements(t, dated, ds[0]);
          if ByDate(t, dated) { InsertedByDate(t, dated, ds[0]); }
          dated := InsertOne(dated, ds[0]);
        }
        i := i + 1;
      }
      assert bs[..i] == bs;
    }

    method InsertOne(l: seq<Rev>, r: Rev) returns (m: seq<Rev>)
      requires r in nodes && forall x :: x in l ==> x in nodes
      ensures m == InsertByDate(View(), l, r)
    {
      hide InsertByDate, Cmp;
      var i := 0;
      while i < |l|
        invariant i <= |l|
        invariant InsertByDate(View(), l, r) == l[..i] + InsertByDate(View(), l[i..], r)
      {
        DateStep(View(), l, r, i);
        var c := RcsNumCmp(nodes[r].date, nodes[l[i]].date);
        if c <= 0 { return l[..i] + [r] + l[i..]; }
        i := i + 1;
      }
      DateStep(View(), l, r, |l|);
      return l + [r];
    }

    /** Prints the log and the text of `d` and stacks the deltas to come, with
        `d` as their predecessor. */
    method WriteText(d: Rev, stack: seq<Rev>, ghost fuel: nat) returns (ok: bool, rec: TextRec, stack': seq<Rev>)
      requires WellFormed(View()) && Placed(View(), d) && Listed(View(), d) && Grounded(View(), d, fuel)
      requires d in prev && (prev[d].Some? ==> prev[d].value in nodes)
      modifies this`prev
      ensures ok <==> RcsMeaning.PutText(View(), d, old(prev[d]), fuel).Some?
      ensures ok ==> rec == TextRec(d, nodes[d].log, RcsMeaning.PutText(View(), d, old(prev[d]), fuel).value)
      ensures ok ==> |stack| <= |stack'| && stack'[|stack'| - |stack|..] == stack
      ensures ok ==>
        var kids := stack'[..|stack'| - |stack|];
        && NoDup(kids) && (forall c :: c in kids <==> IsChild(View(), c, d))
        && (forall c :: c in kids ==> c in prev && prev[c] == Some(d))
        && (forall x :: x in old(prev) && x !in kids ==> x in prev && prev[x] == old(prev)[x])
        && YoungestFirst(View(), kids)
    {
      hide WellFormed, RcsMeaning.PutText, Grounded, IsChild, NoDup, Pred, YoungestFirst;
      rec := TextRec(d, nodes[d].log, "");
      stack' := stack;
      var text := PutText(d, prev[d], fuel);
      if text.None? { return false, rec, stack'; }
      rec := rec.(text := text.value);
      stack' := StackKids(d, stack);
      ok := true;
    }

    /** Stacks the deltas to come after `d`: the next one first when on the trunk,
        among the branches by date when not. */
    method StackKids(d: Rev, stack: seq<Rev>) returns (stack': seq<Rev>)
      requires WellFormed(View()) && Placed(View(), d) && Listed(View(), d)
      modifies this`prev
      ensures |stack| <= |stack'| && stack'[|stack'| - |stack|..] == stack
      ensures
        var kids := stack'[..|stack'| - |stack|];
        && NoDup(kids) && (forall c :: c in kids <==> IsChild(View(), c, d))
        && (forall c :: c in kids ==> c in prev && prev[c] == Some(d))
        && (forall x :: x in old(prev) && x !in kids ==> x in prev && prev[x] == old(prev)[x])
        && YoungestFirst(View(), kids)
    {
      hide WellFormed, IsChild, NoDup, Pred, Listed, Next, Firsts, BranchesOf, Reversal, Placed, DeltasOf, ByDate;
      ghost var t := View();
      ghost var base := [];
      stack' := stack;
      var dated := [];
      var next := NextOf(d);
      assert NoDup([]) by { NoDupShort([]); }
      if next.Some? {
        var n := next.value;
        NextPlaced(t, d);
        NoDupShort([n]);
        prev := prev[n := Some(d)];
        if IsTrunk(n) {
          stack' := [n] + stack';
          base := [n];
        } else {
          dated := [n];
        }
      }
      ghost var start := dated;
      ByDateShort(t, start);
      assert start + base == NextList(t, d);
      dated := DateSorted(d, dated);
      TextKids(t, d, start, base, dated);
      stack' := StackAll(dated, stack', d);
      assert stack' == (Reversal(dated) + base) + stack;
      YoungKids(t, d, start, base, dated);
    }

    /** Stacks deltas one by one, with `d` as their predecessor. */
    method StackAll(dated: seq<Rev>, stack: seq<Rev>, d: Rev) returns (stack': seq<Rev>)
      modifies this`prev
      ensures stack' == Reversal(dated) + stack
      ensures forall c :: c in dated ==> c in prev && prev[c] == Some(d)
      ensures forall x :: x in old(prev) && x !in dated ==> x in prev && prev[x] == old(prev)[x]
    {
      stack' := stack;
      var i := 0;
      while i < |dated|
        invariant i <= |dated| && stack' == Reversal(dated[..i]) + stack
        invariant forall c :: c in dated[..i] ==> c in prev && prev[c] == Some(d)
        invariant forall x :: x in old(prev) && x !in dated[..i] ==> x in prev && prev[x] == old(prev)[x]
      {
        ReversalSnoc(dated, i);
        prev := prev[dated[i] := Some(d)];
        stack' := [dated[i]] + stack';
        i := i + 1;
      }
      assert dated[..i] == dated;
    }

    /** The second pass: every text once, after its predecessor's, which is
        recorded on the way. */
    method WriteDeltatexts(ghost fuel: nat) returns (ok: bool, out: seq<TextRec>)
      requires Complete(View()) && forall r :: r in nodes ==> Grounded(View(), r, fuel)
      modifies this`prev
      ensures ok ==> Visits(View(), TextRevs(out)) && forall r :: r in nodes ==> r in TextRevs(out)
      ensures ok ==> forall x :: x in out ==>
              Written(View(), x, fuel) && x.rev in prev && prev[x.rev] == Pred(View(), x.rev)
      ensures !ok ==> exists r :: r in nodes && Unwritable(View(), r, fuel)
    {
      hide WellFormed, TextState, Visits, Written, Grounded, Placed, Listed, Pred, RcsMeaning.PutText, Unwritable,
           NoDup, IsChild, TextRevs;
      ghost var t := View();
      out := [];
      TextStart(t, prev[trunk[0] := None], fuel);
      var stack := [trunk[0]];
      prev := prev[trunk[0] := None];
      while stack != []
        invariant View() == t && TextState(t, out, stack, prev, fuel)
        decreases |nodes| - |out|
      {
        var d := stack[0];
        TextNext(t, out, stack, prev, fuel);
        ghost var prev0 := prev;
        var rec, stack1;
        ok, rec, stack1 := WriteText(d, stack[1..], fuel);
        if !ok { return; }
        ghost var kids := stack1[..|stack1| - |stack[1..]|];
        assert stack1 == kids + stack[1..];
        TextStep(t, out, stack, prev0, prev, rec, kids, fuel);
        stack := stack1;
        out := out + [rec];
      }
      ok := true;
      TextEnd(t, out, prev, fuel);
    }

    method NextOf(d: Rev) returns (next: Option<Rev>)
      requires Listed(View(), d)
      ensures next == Next(View(), d)
    {
      var l := if IsTrunk(d) then trunk else if Prefix(d) in deltalist then deltalist[Prefix(d)] else [];
      var i := IndexOf(l, d);
      return if i + 1 < |l| then Some(l[i + 1]) else None;
    }
  }

  lemma WalkRoom(t: Tree, out: seq<Rev>, stack: seq<Rev>)
    requires Walk(t, out, stack) && stack != []
    ensures |out| < |t.nodes|
  {
    assert stack[0] in stack;
    NoDupAppend(out, [stack[0]]);
    DistinctFit(out + [stack[0]], t.nodes.Keys);
  }

  /** Any arrangement of the next delta and the first deltas of the branches. */
  lemma {:induction false} Kids(t: Tree, d: Rev, kids: seq<Rev>, inverted: seq<Rev>)
    requires WellFormed(t) && Placed(t, d) && Listed(t, d)
    requires inverted == Reversal(Firsts(t, BranchesOf(t, d))) && kids == NextList(t, d) + inverted
    ensures NoDup(kids) && forall c :: c in kids <==> IsChild(t, c, d)
  {
    hide WellFormed;
    Children(t, d);
    ReversalElements(Firsts(t, BranchesOf(t, d)));
    NoDupAppend(NextList(t, d), inverted);
  }

  lemma {:induction false} FirstsPlaced(t: Tree, d: Rev)
    requires WellFormed(t) && Placed(t, d)
    ensures forall x :: x in Firsts(t, BranchesOf(t, d)) ==> x in t.nodes
  {
    forall x | x in Firsts(t, BranchesOf(t, d)) ensures x in t.nodes { FirstIsChild(t, d, x); }
  }

  lemma {:induction false} FirstsSnoc(t: Tree, bs: seq<Rev>, i: nat)
    requires i < |bs| && NoDup(Firsts(t, bs))
    ensures forall x :: x in Firsts(t, bs[..i + 1]) <==>
              x in Firsts(t, bs[..i]) || (DeltasOf(t, bs[i]) != [] && x == DeltasOf(t, bs[i])[0])
    ensures forall x :: x in Firsts(t, bs[..i + 1]) ==> x in Firsts(t, bs)
    ensures DeltasOf(t, bs[i]) != [] ==> DeltasOf(t, bs[i])[0] !in Firsts(t, bs[..i])
  {
    var one := if DeltasOf(t, bs[i]) == [] then [] else [DeltasOf(t, bs[i])[0]];
    FirstsAppend(t, bs[..i], bs[i..]);
    assert bs[..i] + bs[i..] == bs;
    assert bs[i..][1..] == bs[i + 1..];
    assert bs[..i + 1] == bs[..i] + [bs[i]];
    FirstsAppend(t, bs[..i], [bs[i]]);
    assert Firsts(t, [bs[i]]) == one;
    if one != [] {
      NotAgain(Firsts(t, bs), Firsts(t, bs[..i]), one[0]);
    }
  }

  lemma NotAgain(l: seq<Rev>, a: seq<Rev>, x: Rev)
    requires NoDup(l) && |a| < |l| && l[..|a|] == a && l[|a|] == x
    ensures x !in a
  {
    forall j | 0 <= j < |a| ensures a[j] != x {
      assert a[j] == l[j];
    }
  }

  lemma {:induction false} FirstsAppend(t: Tree, a: seq<Rev>, b: seq<Rev>)
    ensures Firsts(t, a + b) == Firsts(t, a) + Firsts(t, b)
  {
    if a == [] {
      assert a + b == b;
    } else {
      assert (a + b)[1..] == a[1..] + b;
      FirstsAppend(t, a[1..], b);
    }
  }

  lemma {:induction false} ReversalAppend(a: seq<Rev>, b: seq<Rev>)
    ensures Reversal(a + b) == Reversal(b) + Reversal(a)
  {
    if a == [] {
      assert a + b == b;
    } else {
      assert (a + b)[1..] == a[1..] + b;
      ReversalAppend(a[1..], b);
    }
  }

  lemma ReversalSnoc(l: seq<Rev>, i: nat)
    requires i < |l|
    ensures l[..i + 1] == l[..i] + [l[i]] && Reversal(l[..i + 1]) == [l[i]] + Reversal(l[..i])
  {
    assert l[..i + 1] == l[..i] + [l[i]];
    ReversalAppend(l[..i], [l[i]]);
  }

  /** A written text record. */
  predicate Written(t: Tree, x: TextRec, fuel: nat) {
    && x.rev in t.nodes && Listed(t, x.rev)
    && (Pred(t, x.rev).Some? ==> Pred(t, x.rev).value in t.nodes)
    && x.log == t.nodes[x.rev].log
    && Some(x.text) == RcsMeaning.PutText(t, x.rev, Pred(t, x.rev), fuel)
  }

  lemma RootHasNoPred(t: Tree)
    requires Complete(t)
    ensures Listed(t, t.trunk[0]) && Pred(t, t.trunk[0]) == None
  {
    assert t.trunk[0] in t.trunk;
    PlacedListed(t, t.trunk[0]);
    IndexBefore(t.trunk, t.trunk[0], 0);
  }

  predicate YoungAt(t: Tree, kids: seq<Rev>, i: nat) {
    0 < i < |kids| ==> !IsTrunk(kids[i - 1]) && (IsTrunk(kids[i]) || NotYounger(t, kids[i], kids[i - 1]))
  }

  /** Of the deltas behind one the next of the trunk comes last, the others with the
      youngest first. */
  ghost predicate YoungestFirst(t: Tree, kids: seq<Rev>) {
    forall i: nat :: YoungAt(t, kids, i)
  }

  lemma ByDateShort(t: Tree, l: seq<Rev>)
    requires |l| <= 1
    ensures ByDate(t, l)
  {
  }

  lemma {:induction false} OffTrunk(t: Tree, d: Rev, x: Rev)
    requires WellFormed(t) && Placed(t, d) && x in Firsts(t, BranchesOf(t, d))
    ensures !IsTrunk(x)
  {
    assert TableOk(t) && IsRev(d);
    hide WellFormed, Placed;
    FirstIsStart(t, d, x);
  }

  lemma {:induction false} YoungKids(t: Tree, d: Rev, start: seq<Rev>, base: seq<Rev>, dated: seq<Rev>)
    requires WellFormed(t) && Placed(t, d) && ByDate(t, dated)
    requires |base| <= 1 && (forall x :: x in base ==> IsTrunk(x)) && (forall x :: x in start ==> !IsTrunk(x))
    requires forall x :: x in dated <==> x in start || x in Firsts(t, BranchesOf(t, d))
    ensures YoungestFirst(t, Reversal(dated) + base)
  {
    TurnedByDate(t, dated);
    ReversalElements(dated);
    hide Reversal, NotYounger, WellFormed, Placed, ByDate, IsTrunk, BranchesOf, Firsts;
    var kids, m := Reversal(dated) + base, |dated|;
    forall i: nat ensures YoungAt(t, kids, i) {
      if 0 < i < |kids| {
        assert kids[i - 1] == Reversal(dated)[i - 1] && kids[i - 1] in Reversal(dated);
        if kids[i - 1] !in start { OffTrunk(t, d, kids[i - 1]); }
        if i == m { assert kids[i] in base; }
      }
    }
  }

  /** The state of the header pass. */
  ghost predicate HeaderState(t: Tree, out: seq<HeaderRec>, stack: seq<Rev>) {
    && Walk(t, HeaderRevs(out), stack)
    && (forall h :: h in out ==> h.rev in t.nodes && Listed(t, h.rev) && h == RecordOf(t, h.rev))
  }

  lemma HeaderStart(t: Tree)
    requires Complete(t)
    ensures t.trunk != [] && HeaderState(t, [], [t.trunk[0]])
  {
    WalkStart(t);
    assert HeaderRevs([]) == [];
  }

  lemma HeaderNext(t: Tree, out: seq<HeaderRec>, stack: seq<Rev>)
    requires Complete(t) && HeaderState(t, out, stack) && stack != []
    ensures WellFormed(t) && Placed(t, stack[0]) && Listed(t, stack[0]) && |out| < |t.nodes|
  {
    hide WellFormed;
    assert stack[0] in stack;
    WalkRoom(t, HeaderRevs(out), stack);
    PredPlaced(t, stack[0]);
  }

  lemma HeaderStep(t: Tree, out: seq<HeaderRec>, stack: seq<Rev>, rec: HeaderRec, kids: seq<Rev>)
    requires HeaderState(t, out, stack) && stack != []
    requires Placed(t, stack[0]) && Listed(t, stack[0]) && rec == RecordOf(t, stack[0])
    requires NoDup(kids) && forall c :: c in kids <==> IsChild(t, c, stack[0])
    ensures HeaderState(t, out + [rec], kids + stack[1..])
  {
    hide Walk, NoDup, IsChild;
    WalkStep(t, HeaderRevs(out), stack, kids);
    assert HeaderRevs(out + [rec]) == HeaderRevs(out) + [stack[0]];
  }

  lemma HeaderEnd(t: Tree, out: seq<HeaderRec>)
    requires Complete(t) && HeaderState(t, out, [])
    ensures Visits(t, HeaderRevs(out)) && forall r :: r in t.nodes ==> r in HeaderRevs(out)
    ensures forall h :: h in out ==> h.rev in t.nodes && Listed(t, h.rev) && h == RecordOf(t, h.rev)
    ensures forall h :: h in out ==> HeaderSays(t, h)
  {
    hide WellFormed, RecordOf, Visits, HeaderSays;
    forall r | r in t.nodes ensures r in HeaderRevs(out) { WalkEnd(t, HeaderRevs(out), r); }
    forall h | h in out ensures HeaderSays(t, h) { RecordSays(t, h.rev); }
  }

  /** No text can be written for `r`. */
  predicate Unwritable(t: Tree, r: Rev, fuel: nat) {
    && r in t.nodes && Listed(t, r)
    && (Pred(t, r).Some? ==> Pred(t, r).value in t.nodes)
    && RcsMeaning.PutText(t, r, Pred(t, r), fuel) == None
  }

  /** The state of the text pass. */
  ghost predicate TextState(t: Tree, out: seq<TextRec>, stack: seq<Rev>, prev: map<Rev, Option<Rev>>, fuel: nat) {
    && Walk(t, TextRevs(out), stack)
    && (forall x :: x in stack ==> x in prev && Listed(t, x) && prev[x] == Pred(t, x))
    && (forall x :: x in out ==> Written(t, x, fuel) && x.rev in prev && prev[x.rev] == Pred(t, x.rev))
  }

  lemma TextStart(t: Tree, prev: map<Rev, Option<Rev>>, fuel: nat)
    requires Complete(t) && t.trunk[0] in prev && prev[t.trunk[0]] == None
    ensures t.trunk != [] && TextState(t, [], [t.trunk[0]], prev, fuel)
  {
    WalkStart(t);
    RootHasNoPred(t);
    assert TextRevs([]) == [];
  }

  lemma {:induction false} TextNext(t: Tree, out: seq<TextRec>, stack: seq<Rev>, prev: map<Rev, Option<Rev>>, fuel: nat)
    requires Complete(t) && (forall r :: r in t.nodes ==> Grounded(t, r, fuel))
    requires TextState(t, out, stack, prev, fuel) && stack != []
    ensures var d := stack[0];
            && WellFormed(t) && Placed(t, d) && Listed(t, d) && Grounded(t, d, fuel)
            && d in prev && prev[d] == Pred(t, d) && (prev[d].Some? ==> prev[d].value in t.nodes)
            && d in t.nodes && |out| < |t.nodes|
            && (RcsMeaning.PutText(t, d, prev[d], fuel) == None ==> Unwritable(t, d, fuel))
  {
    hide WellFormed, RcsMeaning.PutText, Grounded;
    assert stack[0] in stack;
    WalkRoom(t, TextRevs(out), stack);
    PredPlaced(t, stack[0]);
  }

  lemma TextStep(t: Tree, out: seq<TextRec>, stack: seq<Rev>, prev: map<Rev, Option<Rev>>, prev': map<Rev, Option<Rev>>,
                 rec: TextRec, kids: seq<Rev>, fuel: nat)
    requires WellFormed(t) && TextState(t, out, stack, prev, fuel) && stack != []
    requires Placed(t, stack[0]) && Listed(t, stack[0])
    requires prev[stack[0]].Some? ==> prev[stack[0]].value in t.nodes
    requires NoDup(kids) && forall c :: c in kids <==> IsChild(t, c, stack[0])
    requires forall c :: c in kids ==> c in prev' && prev'[c] == Some(stack[0])
    requires forall x :: x in prev && x !in kids ==> x in prev' && prev'[x] == prev[x]
    requires RcsMeaning.PutText(t, stack[0], prev[stack[0]], fuel).Some?
    requires rec == TextRec(stack[0], t.nodes[stack[0]].log,
             RcsMeaning.PutText(t, stack[0], prev[stack[0]], fuel).value)
    ensures TextState(t, out + [rec], kids + stack[1..], prev', fuel)
  {
    hide WellFormed, RcsMeaning.PutText, Walk, NoDup, IsChild, Pred;
    var d := stack[0];
    assert d in stack;
    WalkStep(t, TextRevs(out), stack, kids);
    assert TextRevs(out + [rec]) == TextRevs(out) + [d];
    KidsAreNew(t, out, stack, kids);
    assert Written(t, rec, fuel);
    forall x | x in kids + stack[1..] ensures x in prev' && Listed(t, x) && prev'[x] == Pred(t, x) {
      if x !in kids { assert x in stack[1..] && x in stack; }
    }
  }

  lemma TextEnd(t: Tree, out: seq<TextRec>, prev: map<Rev, Option<Rev>>, fuel: nat)
    requires Complete(t) && TextState(t, out, [], prev, fuel)
    ensures Visits(t, TextRevs(out)) && forall r :: r in t.nodes ==> r in TextRevs(out)
    ensures forall x :: x in out ==> Written(t, x, fuel) && x.rev in prev && prev[x.rev] == Pred(t, x.rev)
  {
    forall r | r in t.nodes ensures r in TextRevs(out) { WalkEnd(t, TextRevs(out), r); }
  }

  lemma KidsAreNew(t: Tree, out: seq<TextRec>, stack: seq<Rev>, kids: seq<Rev>)
    requires stack != [] && Walk(t, TextRevs(out), stack)
    requires forall c :: c in kids <==> IsChild(t, c, stack[0])
    ensures forall c :: c in kids ==> Listed(t, c) && Pred(t, c) == Some(stack[0])
    ensures forall x :: x in out ==> x.rev !in kids && x.rev != stack[0]
    ensures forall x :: x in stack ==> x !in kids
  {
    forall c | c in kids ensures Listed(t, c) && Pred(t, c) == Some(stack[0]) { assert IsChild(t, c, stack[0]); }
    assert stack[0] in stack;
    var revs := TextRevs(out);
    forall x | x in out ensures x.rev !in kids && x.rev != stack[0] {
      var i :| 0 <= i < |out| && out[i] == x;
      assert revs[i] == x.rev && x.rev in revs;
      PredVisited(t, revs, x.rev);
    }
    forall x | x in stack ensures x !in kids { assert PredIn(t, x, revs); }
  }

  lemma NoDupShort(l: seq<Rev>)
    requires |l| <= 1
    ensures NoDup(l)
  {
  }

  lemma {:induction false} NextPlaced(t: Tree, d: Rev)
    requires WellFormed(t) && Placed(t, d) && Listed(t, d) && Next(t, d).Some?
    ensures Next(t, d).value in t.nodes && Next(t, d).value !in Firsts(t, BranchesOf(t, d))
  {
    NextIsChild(t, d, Next(t, d).value);
    FirstIsChild(t, d, Next(t, d).value);
  }

  lemma {:induction false} TextKids(t: Tree, d: Rev, start: seq<Rev>, base: seq<Rev>, dated: seq<Rev>)
    requires WellFormed(t) && Placed(t, d) && Listed(t, d)
    requires start + base == NextList(t, d) && (start == [] || base == [])
    requires NoDup(dated) && forall x :: x in dated <==> x in start || x in Firsts(t, BranchesOf(t, d))
    ensures var kids := Reversal(dated) + base;
            && NoDup(kids) && (forall c :: c in kids <==> IsChild(t, c, d))
            && (forall c :: c in kids <==> c in dated || c in base)
  {
    hide WellFormed, IsChild;
    Children(t, d);
    ReversalElements(dated);
    assert forall x :: x in NextList(t, d) <==> x in start || x in base;
    NoDupAppend(Reversal(dated), base);
  }
}
