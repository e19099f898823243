/** The revision tree of an RCS file: deltas kept in sorted lists, and where an
    added or imported delta goes.  A pointer to a delta or to a branch is its
    number. */
module RcsTree {
  import opened Lines
  import opened RcsNum

  datatype Delta = Delta(
    date: string, author: string, state: Option<string>, log: string, text: string,
    diffbase: Option<Rev>, placeholder: bool)

  /** `head` is the head recorded in the file that was read; `branchlist` maps a
      delta to its branches and `deltalist` a branch to its deltas. */
  datatype Tree = Tree(
    head: Rev, nodes: map<Rev, Delta>, table: seq<Rev>, trunk: seq<Rev>,
    branchlist: map<Rev, seq<Rev>>, deltalist: map<Rev, seq<Rev>>)

  predicate IsTrunk(r: Rev) { |r| == 2 }

  function Prefix(r: Rev): Rev
    requires r != []
  {
    r[..|r| - 1]
  }

  predicate IsRev(r: Rev) { |r| >= 2 && |r| % 2 == 0 }

  // ------------------------------------------------------------ sorted inserts

  /** The four sorted lists: the table of all deltas, the trunk, the deltas of a
      branch and the branches of a delta. */
  datatype Kind = Table | Trunk | Deltas | Branches

  /** Does the insertion of `r` stop in front of `d`? */
  predicate StopsAt(k: Kind, r: Rev, d: Rev) {
    match k
    case Table => Lex(r, d) <= 0
    case Trunk => Lex(r, d) >= 0
    case Deltas => Lex(r, d) < 0
    case Branches => Lex(r, d) > 0
  }

  predicate Before(k: Kind, r: Rev, d: Rev) {
    if k.Table? || k.Deltas? then Lex(r, d) < 0 else Lex(r, d) > 0
  }

  function Insert(k: Kind, l: seq<Rev>, r: Rev): seq<Rev> {
    if l == [] then [r]
    else if StopsAt(k, r, l[0]) then [r] + l
    else [l[0]] + Insert(k, l[1..], r)
  }

  lemma {:induction false} InsertStep(k: Kind, l: seq<Rev>, r: Rev, i: nat)
    requires i < |l|
    ensures Insert(k, l[i..], r) == if StopsAt(k, r, l[i]) then [r] + l[i..] else [l[i]] + Insert(k, l[i + 1..], r)
    ensures l[..i + 1] == l[..i] + [l[i]]
  {
    assert l[i..][1..] == l[i + 1..];
  }

  lemma {:induction false} InsertNone(k: Kind, r: Rev)
    ensures Insert(k, [], r) == [r]
  {
  }

  predicate Sorted(k: Kind, l: seq<Rev>) {
    forall i, j :: 0 <= i < j < |l| ==> Before(k, l[i], l[j])
  }

  lemma {:induction false} InsertElements(k: Kind, l: seq<Rev>, r: Rev)
    ensures multiset(Insert(k, l, r)) == multiset(l) + multiset{r}
    ensures forall x :: x in Insert(k, l, r) <==> x in l || x == r
  {
    if l != [] {
      assert l == [l[0]] + l[1..];
      if !StopsAt(k, r, l[0]) {
        InsertElements(k, l[1..], r);
      }
    }
  }

  /** Inserting a new number keeps a list strictly sorted. */
  lemma {:induction false} InsertSorted(k: Kind, l: seq<Rev>, r: Rev)
    requires Sorted(k, l) && r !in l
    ensures Sorted(k, Insert(k, l, r))
  {
    if l != [] {
      hide Lex;
      var m := Insert(k, l, r);
      var d := l[0];
      LexOrder(r, d, d);
      if StopsAt(k, r, d) {
        forall i, j | 0 <= i < j < |m| ensures Before(k, m[i], m[j]) {
          if i == 0 && j > 1 {
            Chain3(k, r, d, l[j - 1]);
          } else if i > 0 {
            assert m[i] == l[i - 1] && m[j] == l[j - 1];
          }
        }
      } else {
        var t := l[1..];
        InsertSorted(k, t, r);
        InsertElements(k, t, r);
        forall i, j | 0 <= i < j < |m| ensures Before(k, m[i], m[j]) {
          if i == 0 {
            assert m[j] in Insert(k, t, r);
            if m[j] != r { assert m[j] in t; }
          } else {
            assert m[i] == Insert(k, t, r)[i - 1] && m[j] == Insert(k, t, r)[j - 1];
          }
        }
      }
    }
  }

  lemma Chain3(k: Kind, x: Rev, y: Rev, z: Rev)
    requires Before(k, x, y) && Before(k, y, z)
    ensures Before(k, x, z)
  {
    LexOrder(x, y, z);
    LexOrder(z, y, x);
    LexOrder(y, z, x);
    LexOrder(x, z, x);
  }

  lemma NotBefore(k: Kind, x: Rev, y: Rev)
    ensures !(Before(k, x, y) && Before(k, y, x)) && !Before(k, x, x)
  {
    LexOrder(x, y, x);
    LexOrder(x, x, x);
  }

  lemma HasElement(m: seq<Rev>)
    requires m != []
    ensures exists x :: x in m
  {
    assert m[0] in m;
  }

  /** A strictly sorted list is determined by its elements. */
  lemma {:induction false} SortedUnique(k: Kind, l: seq<Rev>, m: seq<Rev>)
    requires Sorted(k, l) && Sorted(k, m) && forall x :: x in l <==> x in m
    ensures l == m
  {
    hide Before;
    if l == [] {
      if m != [] { HasElement(m); }
    } else {
      assert l[0] in l && l[0] in m;
      assert m[0] in m && m[0] in l;
      var i :| 0 <= i < |m| && m[i] == l[0];
      var j :| 0 <= j < |l| && l[j] == m[0];
      NotBefore(k, l[0], m[0]);
      assert l[0] == m[0];
      forall x ensures x in l[1..] <==> x in m[1..] {
        NotBefore(k, l[0], l[0]);
        if x in l[1..] {
          var a :| 0 < a < |l| && l[a] == x;
          assert x in m;
          var b :| 0 <= b < |m| && m[b] == x;
          assert b != 0;
          assert x == m[1..][b - 1];
        }
        if x in m[1..] {
          var a :| 0 < a < |m| && m[a] == x;
          assert x in l;
          var b :| 0 <= b < |l| && l[b] == x;
          assert b != 0;
          assert x == l[1..][b - 1];
        }
      }
      SortedUnique(k, l[1..], m[1..]);
      assert l == [l[0]] + l[1..] && m == [m[0]] + m[1..];
    }
  }

  // ------------------------------------------------------------ well-formedness

  predicate Placed(t: Tree, r: Rev) {
    r in t.nodes && !t.nodes[r].placeholder
  }

  function BranchesOf(t: Tree, d: Rev): seq<Rev> {
    if d in t.branchlist then t.branchlist[d] else []
  }

  function DeltasOf(t: Tree, b: Rev): seq<Rev> {
    if b in t.deltalist then t.deltalist[b] else []
  }

  /** The list a delta lives in. */
  function ListOf(t: Tree, r: Rev): seq<Rev>
    requires r != []
  {
    if IsTrunk(r) then t.trunk else DeltasOf(t, Prefix(r))
  }

  /** A delta off the trunk hangs from a branch of a placed delta. */
  predicate Hangs(t: Tree, r: Rev) {
    IsTrunk(r) ||
    (|r| >= 4 && Placed(t, Prefix(Prefix(r))) && Prefix(r) in BranchesOf(t, Prefix(Prefix(r))))
  }

  ghost predicate TableOk(t: Tree) {
    && Sorted(Table, t.table)
    && (forall r :: r in t.table <==> r in t.nodes)
    && (forall r :: r in t.nodes ==> IsRev(r))
  }

  ghost predicate TrunkOk(t: Tree) {
    && Sorted(Trunk, t.trunk)
    && (forall r :: r in t.trunk <==> Placed(t, r) && IsTrunk(r))
  }

  ghost predicate BranchesOk(t: Tree, d: Rev) {
    && Sorted(Branches, BranchesOf(t, d))
    && (forall b :: b in BranchesOf(t, d) ==> |b| == |d| + 1 && Prefix(b) == d && DeltasOf(t, b) != [])
  }

  ghost predicate DeltasOk(t: Tree, b: Rev) {
    && Sorted(Deltas, DeltasOf(t, b))
    && (forall r :: r in DeltasOf(t, b) <==> Placed(t, r) && |r| >= 4 && Prefix(r) == b)
  }

  ghost predicate WellFormed(t: Tree) {
    && TableOk(t) && TrunkOk(t)
    && (forall d :: BranchesOk(t, d)) && (forall b :: DeltasOk(t, b))
    && (forall r :: Placed(t, r) ==> Hangs(t, r))
  }

  // ------------------------------------------------------------------ placing

  /** Puts a delta into the list it belongs to, making its branch if needed. */
  function Place(t: Tree, r: Rev): (s: Tree)
    requires IsRev(r)
    ensures s.head == t.head && s.nodes == t.nodes && s.table == t.table
  {
    if IsTrunk(r) then t.(trunk := Insert(Trunk, t.trunk, r))
    else
      var b := Prefix(r);
      var d := Prefix(b);
      var bs := if b in BranchesOf(t, d) then BranchesOf(t, d) else Insert(Branches, BranchesOf(t, d), b);
      var ds := if b in BranchesOf(t, d) then DeltasOf(t, b) else [];
      t.(branchlist := t.branchlist[d := bs], deltalist := t.deltalist[b := Insert(Deltas, ds, r)])
  }

  function Lookup(t: Tree, r: Rev): Option<Rev> {
    if r in t.nodes then Some(r) else None
  }

  /** `rcsfile_addelta`: a number that is already there is refused. */
  function AddDelta(t: Tree, r: Rev, date: string, author: string, base: Rev): Option<Tree>
    requires IsRev(r)
  {
    if r in t.nodes then None
    else
      var d := Delta(date, author, None, "", "", Lookup(t, base), false);
      var t1 := Place(t, r);
      Some(t1.(nodes := t.nodes[r := d], table := Insert(Table, t.table, r)))
  }

  /** The first delta of a branch gets the branch point as its diffbase. */
  predicate FirstOfBranch(t: Tree, r: Rev)
    requires r != []
  {
    !IsTrunk(r) && DeltasOf(t, Prefix(r)) != [] && DeltasOf(t, Prefix(r))[0] == r
  }

  /** `rcsfile_importdelta`: a delta met before only as somebody's next has a
      placeholder that now becomes real; the delta's own next gets one. */
  function ImportDelta(t: Tree, r: Rev, date: string, author: string, state: Option<string>, next: Option<Rev>): Tree
    requires IsRev(r)
  {
    if Placed(t, r) then t
    else
      var unseen := r !in t.nodes;
      var t1 := Place(t, r);
      var was := if unseen then Delta("", "", None, "", "", None, false) else t.nodes[r];
      var base := if unseen && FirstOfBranch(t1, r) then Some(Prefix(Prefix(r))) else was.diffbase;
      var d := Delta(date, author, if state.Some? then state else was.state, was.log, was.text, base, false);
      var t2 := t1.(nodes := t.nodes[r := d], table := if unseen then Insert(Table, t.table, r) else t.table);
      match next
      case None => t2
      case Some(n) =>
        t2.(nodes := t2.nodes[n := Delta("", "", None, "", "", Some(r), true)],
            table := Insert(Table, t2.table, n))
  }

  const EMPTY := Tree([], map[], [], [], map[], map[])

  // ------------------------------------------- what every import and add keeps

  lemma {:induction false} InsertNonEmpty(k: Kind, l: seq<Rev>, r: Rev)
    ensures Insert(k, l, r) != []
  {
  }

  /** Placing a new delta, with its node and its entry in the table. */
  lemma PlaceKeeps(t: Tree, r: Rev, d: Delta, table: seq<Rev>)
    requires WellFormed(t) && IsRev(r) && !Placed(t, r) && !d.placeholder
    requires !IsTrunk(r) ==> Placed(t, Prefix(Prefix(r)))
    requires Sorted(Table, table) && forall x :: x in table <==> x in t.nodes || x == r
    ensures WellFormed(Place(t, r).(nodes := t.nodes[r := d], table := table))
  {
    hide Sorted, Insert;
    var t1 := Place(t, r).(nodes := t.nodes[r := d], table := table);
    assert TableOk(t1);
    if IsTrunk(r) {
      InsertElements(Trunk, t.trunk, r);
      InsertSorted(Trunk, t.trunk, r);
      assert TrunkOk(t1);
      forall x ensures BranchesOk(t1, x) { assert BranchesOk(t, x); }
      forall b ensures DeltasOk(t1, b) { assert DeltasOk(t, b); }
      forall x | Placed(t1, x) ensures Hangs(t1, x) { if x != r { assert Hangs(t, x); } }
    } else {
      assert TrunkOk(t1);
      PlaceInBranch(t, r, d, table);
    }
  }

  /** The branch list after `r` has been placed off the trunk. */
  function NewBranches(t: Tree, r: Rev): seq<Rev>
    requires |r| >= 4
  {
    var b := Prefix(r);
    var bs := BranchesOf(t, Prefix(b));
    if b in bs then bs else Insert(Branches, bs, b)
  }

  lemma DeltaHasBranch(t: Tree, b: Rev, r: Rev)
    requires WellFormed(t) && r in DeltasOf(t, b)
    ensures |b| >= 3 && b in BranchesOf(t, Prefix(b))
  {
    assert DeltasOk(t, b);
    assert Hangs(t, r);
  }

  lemma NoBranchNoDeltas(t: Tree, b: Rev)
    requires WellFormed(t) && |b| >= 3
    ensures DeltasOf(t, b) != [] ==> b in BranchesOf(t, Prefix(b))
  {
    if DeltasOf(t, b) != [] {
      DeltaHasBranch(t, b, DeltasOf(t, b)[0]);
    }
  }

  lemma {:induction false} PlaceFacts(t: Tree, r: Rev, d: Delta, table: seq<Rev>)
    requires WellFormed(t) && IsRev(r) && !IsTrunk(r) && !d.placeholder
    ensures var t1 := Place(t, r).(nodes := t.nodes[r := d], table := table);
            && (forall x :: DeltasOf(t1, x) == if x == Prefix(r) then Insert(Deltas, DeltasOf(t, x), r)
                else DeltasOf(t, x))
            && (forall x :: BranchesOf(t1, x) == if x == Prefix(Prefix(r)) then NewBranches(t, r) else BranchesOf(t, x))
            && (forall x :: Placed(t1, x) <==> Placed(t, x) || x == r)
            && t1.trunk == t.trunk
  {
    hide WellFormed, Insert;
    if Prefix(r) !in BranchesOf(t, Prefix(Prefix(r))) {
      NoBranchNoDeltas(t, Prefix(r));
    }
  }

  lemma PlaceInBranch(t: Tree, r: Rev, d: Delta, table: seq<Rev>)
    requires WellFormed(t) && IsRev(r) && !Placed(t, r) && !d.placeholder
    requires !IsTrunk(r) && Placed(t, Prefix(Prefix(r)))
    ensures var t1 := Place(t, r).(nodes := t.nodes[r := d], table := table);
            && (forall x :: BranchesOk(t1, x)) && (forall b :: DeltasOk(t1, b))
            && (forall x :: Placed(t1, x) ==> Hangs(t1, x))
  {
    hide Sorted, Insert, TableOk, TrunkOk, Place, Placed, BranchesOf, DeltasOf;
    var t1 := Place(t, r).(nodes := t.nodes[r := d], table := table);
    PlaceFacts(t, r, d, table);
    var b := Prefix(r);
    var p := Prefix(b);
    assert BranchesOk(t, p) && DeltasOk(t, b);
    var ds, bs := DeltasOf(t, b), BranchesOf(t, p);
    InsertElements(Deltas, ds, r);
    InsertSorted(Deltas, ds, r);
    InsertNonEmpty(Deltas, ds, r);
    InsertElements(Branches, bs, b);
    if b !in bs {
      InsertSorted(Branches, bs, b);
    }
    forall x ensures DeltasOk(t1, x) { assert DeltasOk(t, x); }
    forall x ensures BranchesOk(t1, x) { assert BranchesOk(t, x); }
    forall x | Placed(t1, x) ensures Hangs(t1, x) { if x != r { assert Hangs(t, x); } }
  }

  /** The lists stay sorted, complete and attached to their branch points when a
      delta is added ... */
  lemma AddKeeps(t: Tree, r: Rev, date: string, author: string, base: Rev)
    requires WellFormed(t) && IsRev(r) && (!IsTrunk(r) ==> Placed(t, Prefix(Prefix(r))))
    ensures AddDelta(t, r, date, author, base).None? <==> r in t.nodes
    ensures AddDelta(t, r, date, author, base).Some? ==> WellFormed(AddDelta(t, r, date, author, base).value)
  {
    if r !in t.nodes {
      hide Sorted, Insert, Place;
      InsertElements(Table, t.table, r);
      InsertSorted(Table, t.table, r);
      PlaceKeeps(t, r, Delta(date, author, None, "", "", Lookup(t, base), false), Insert(Table, t.table, r));
    }
  }

  lemma {:induction false} PlaceholderKeeps(t: Tree, n: Rev, base: Rev)
    requires WellFormed(t) && IsRev(n) && n !in t.nodes
    ensures WellFormed(t.(nodes := t.nodes[n := Delta("", "", None, "", "", Some(base), true)],
            table := Insert(Table, t.table, n)))
  {
    hide Sorted, Insert;
    var t1 := t.(nodes := t.nodes[n := Delta("", "", None, "", "", Some(base), true)],
        table := Insert(Table, t.table, n));
    InsertElements(Table, t.table, n);
    InsertSorted(Table, t.table, n);
    assert forall x :: Placed(t1, x) <==> Placed(t, x);
    forall x ensures DeltasOk(t1, x) { assert DeltasOk(t, x); }
    forall x ensures BranchesOk(t1, x) { assert BranchesOk(t, x); }
    forall x | Placed(t1, x) ensures Hangs(t1, x) { assert Hangs(t, x); }
  }

  /** ... and when one is imported from a file whose `next` fields name deltas
      not met before. */
  lemma ImportKeeps(t: Tree, r: Rev, date: string, author: string, state: Option<string>, next: Option<Rev>)
    requires WellFormed(t) && IsRev(r) && (!IsTrunk(r) ==> Placed(t, Prefix(Prefix(r))))
    requires next.Some? ==> IsRev(next.value) && next.value !in t.nodes && next.value != r
    ensures WellFormed(ImportDelta(t, r, date, author, state, next))
  {
    hide Sorted, Insert, Place, WellFormed, FirstOfBranch;
    if !Placed(t, r) {
      var unseen := r !in t.nodes;
      var d := ImportDelta(t, r, date, author, state, None).nodes[r];
      assert Sorted(Table, t.table) && forall x :: x in t.table <==> x in t.nodes by { TableFacts(t); }
      var table := if unseen then Insert(Table, t.table, r) else t.table;
      InsertElements(Table, t.table, r);
      if unseen {
        InsertSorted(Table, t.table, r);
      }
      PlaceKeeps(t, r, d, table);
      var t2 := Place(t, r).(nodes := t.nodes[r := d], table := table);
      if next.Some? {
        PlaceholderKeeps(t2, next.value, r);
      }
    }
  }

  lemma TableFacts(t: Tree)
    requires WellFormed(t)
    ensures Sorted(Table, t.table) && forall x :: x in t.table <==> x in t.nodes
  {
  }

  lemma EmptyWellFormed()
    ensures WellFormed(EMPTY)
  {
  }
}
