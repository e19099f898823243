/** A session of updates as an ordered merge: what it writes, on lists. */
module StatusMerge {
  import opened Lines
  import opened Paths
  import opened PathOrder
  import opened StatusList
  import opened StatusSorted

  datatype Op = Put(rec: Rec) | Delete(path: Path, up: bool)

  function OpKey(op: Op): Key {
    match op
    case Put(r) => KeyOf(r)
    case Delete(p, up) => Key(p, up)
  }

  predicate PutsFile(op: Op) { op.Put? && !IsDir(op.rec) }

  predicate IsCheckout(r: Rec) { r.kind == CheckoutLive || r.kind == CheckoutDead }

  /** How many records come before a key. */
  function CountBefore(rs: seq<Rec>, k: Key): (n: nat)
    ensures n <= |rs|
    ensures forall i :: 0 <= i < n ==> Before(KeyOf(rs[i]), k)
    ensures n < |rs| ==> !Before(KeyOf(rs[n]), k)
  {
    if rs == [] || !Before(KeyOf(rs[0]), k) then 0 else 1 + CountBefore(rs[1..], k)
  }

  /** Is the next record the one looked for?  The end of a directory never is. */
  predicate Found(rest: seq<Rec>, k: Key) {
    rest != [] && KeyOf(rest[0]) == k && !k.up
  }

  /** How many of the remaining records an update at the first of them takes away. */
  function Taken(rest: seq<Rec>, op: Op): (n: nat)
    ensures n <= |rest|
  {
    if !Found(rest, OpKey(op)) then 0
    else if op.Put? && rest[0].kind == DirDown then
      if IsCheckout(op.rec) then CountBefore(rest, Key(op.rec.path, true)) else 0
    else 1
  }

  /** The records that a session writes, one after the other, through the compressor. */
  function Merged(rest: seq<Rec>, ops: seq<Op>): seq<Rec>
    decreases |ops|
  {
    if ops == [] then rest
    else
      var n := CountBefore(rest, OpKey(ops[0]));
      rest[..n] + (if ops[0].Put? then [ops[0].rec] else []) +
      Merged(rest[n..][Taken(rest[n..], ops[0])..], ops[1..])
  }

  // ------------------------------------------------------------- legal sessions

  /** Updates come in the order of the file, each path once. */
  predicate Increasing(ops: seq<Op>) {
    forall i, j :: 0 <= i < j < |ops| ==> Before(OpKey(ops[i]), OpKey(ops[j]))
  }

  /** Nothing is updated below a path at which a file is put. */
  predicate FilesAreLeaves(ops: seq<Op>) {
    forall i, j :: 0 <= i < |ops| && 0 <= j < |ops| && PutsFile(ops[i]) ==> !(ops[i].rec.path < OpKey(ops[j]).path)
  }

  /** A file of the old listing with something put below it is replaced or deleted. */
  predicate NoFileInTheWay(rs: seq<Rec>, ops: seq<Op>) {
    forall i, j ::
      0 <= i < |rs| && 0 <= j < |ops| && !IsDir(rs[i]) && ops[j].Put? && rs[i].path < ops[j].rec.path
      ==> Mentioned(ops, KeyOf(rs[i]))
  }

  predicate Mentioned(ops: seq<Op>, k: Key) {
    exists u :: 0 <= u < |ops| && OpKey(ops[u]) == k
  }

  /** Only a checked-out file is put in place of a directory. */
  predicate DirsReplaced(rs: seq<Rec>, ops: seq<Op>) {
    forall i, j ::
      0 <= i < |rs| && 0 <= j < |ops| && PutsFile(ops[j]) && KeyOf(rs[i]) == OpKey(ops[j]) && rs[i].kind == DirDown
      ==> IsCheckout(ops[j].rec)
  }

  predicate OpsNamed(ops: seq<Op>) {
    forall j :: 0 <= j < |ops| ==> OpKey(ops[j]).path != []
  }

  predicate Legal(rs: seq<Rec>, ops: seq<Op>) {
    OpsNamed(ops) && Increasing(ops) && FilesAreLeaves(ops) && NoFileInTheWay(rs, ops) && DirsReplaced(rs, ops)
  }

  // ------------------------------------------------------------ proper listings

  lemma {:induction false} SortedAt(o: Option<Key>, rs: seq<Rec>, i: nat, j: nat)
    requires SortedFrom(o, rs) && i < j < |rs|
    ensures Before(KeyOf(rs[i]), KeyOf(rs[j]))
    decreases |rs|
  {
    if i > 0 {
      SortedAt(Some(KeyOf(rs[0])), rs[1..], i - 1, j - 1);
    } else if j > 1 {
      SortedAt(Some(KeyOf(rs[0])), rs[1..], 0, j - 1);
      BeforeTransitive(KeyOf(rs[0]), KeyOf(rs[1]), KeyOf(rs[j]));
    }
  }

  lemma {:induction false} DirOpenedFrom(at: Path, rs: seq<Rec>, i: nat, p: Path) returns (j: nat)
    requires Nested(at, rs) && i < |rs| && p != [] && p < rs[i].path && !(p <= at)
    ensures j < i && rs[j].kind == DirDown && rs[j].path == p
    decreases |rs|
  {
    var r := rs[0];
    OnlyWhole(p, rs[i].path);
    assert i > 0;
    j := 0;
    if !(p <= Dir(r)) {
      j := DirOpenedFrom(Dir(r), rs[1..], i - 1, p);
      j := j + 1;
    }
  }

  /** Whatever is below a directory comes behind that directory's record. */
  lemma DirOpened(rs: seq<Rec>, i: nat, p: Path) returns (j: nat)
    requires Proper(rs) && i < |rs| && p != [] && p < rs[i].path
    ensures j < i && rs[j].kind == DirDown && rs[j].path == p && KeyOf(rs[j]) == Key(p, false)
  {
    j := DirOpenedFrom([], rs, i, p);
  }

  /** Any two records of a proper listing could follow each other. */
  lemma ListingFollows(rs: seq<Rec>, i: nat, j: nat)
    requires Proper(rs) && i < j < |rs| && rs[i].path != []
    ensures Follows(rs[i], rs[j])
  {
    SortedAt(None, rs, i, j);
    BeforeTotal(KeyOf(rs[i]), KeyOf(rs[j]));
    DirPrefix(rs[j]);
    if !IsDir(rs[i]) && rs[i].path <= Dir(rs[j]) && rs[i].path < rs[j].path {
      var d := DirOpened(rs, j, rs[i].path);
      SortedEqual(rs, d, i);
    }
  }

  lemma SortedEqual(rs: seq<Rec>, i: nat, j: nat)
    requires Proper(rs) && i < |rs| && j < |rs| && KeyOf(rs[i]) == KeyOf(rs[j])
    ensures i == j
  {
    BeforeTotal(KeyOf(rs[i]), KeyOf(rs[i]));
    if i < j { SortedAt(None, rs, i, j); } else if j < i { SortedAt(None, rs, j, i); }
  }

  // ------------------------------------------------------------ during a session

  /** After the first `t` updates `start` records have been dealt with.  What is
      left comes behind the last update, or is the other record of a directory. */
  ghost predicate RestAfter(rs: seq<Rec>, start: nat, ops: seq<Op>, t: nat) {
    t <= |ops| && forall i :: t > 0 && start <= i < |rs| ==>
      Before(OpKey(ops[t - 1]), KeyOf(rs[i])) ||
      (OpKey(ops[t - 1]) == KeyOf(rs[i]) && !PutsFile(ops[t - 1]) && IsDir(rs[i]))
  }

  /** What has been dealt with does not come behind the last update, unless the
      whole directory went with it. */
  ghost predicate Consumed(rs: seq<Rec>, start: nat, ops: seq<Op>, t: nat) {
    t <= |ops| && start <= |rs| && (t == 0 ==> start == 0) && forall j :: t > 0 && 0 <= j < start ==>
      var k := OpKey(ops[t - 1]);
      Before(KeyOf(rs[j]), k) || KeyOf(rs[j]) == k ||
      (PutsFile(ops[t - 1]) && Before(KeyOf(rs[j]), Key(k.path, true)) && LeftBehind(rs, start, k.path))
  }

  ghost predicate LeftBehind(rs: seq<Rec>, start: nat, p: Path) {
    forall i :: start <= i < |rs| ==> !Before(KeyOf(rs[i]), Key(p, true))
  }

  /** Nothing is left below a path at which a file has been put. */
  ghost predicate Cleared(rs: seq<Rec>, start: nat, ops: seq<Op>, t: nat) {
    t <= |ops| && forall u, i :: 0 <= u < t && start <= i < |rs| && PutsFile(ops[u]) ==>
        !(ops[u].rec.path <= Dir(rs[i]))
  }

  ghost predicate During(rs: seq<Rec>, start: nat, ops: seq<Op>, t: nat) {
    RestAfter(rs, start, ops, t) && Consumed(rs, start, ops, t) && Cleared(rs, start, ops, t)
  }

  /** Where the next update finds its place, and where it leaves off. */
  function Place(rs: seq<Rec>, start: nat, op: Op): (n: nat)
    requires start <= |rs|
    ensures start <= n <= |rs|
  {
    start + CountBefore(rs[start..], OpKey(op))
  }

  function Resume(rs: seq<Rec>, start: nat, op: Op): (n: nat)
    requires start <= |rs|
    ensures Place(rs, start, op) <= n <= |rs|
  {
    Place(rs, start, op) + Taken(rs[Place(rs, start, op)..], op)
  }

  lemma MergedStep(rs: seq<Rec>, start: nat, ops: seq<Op>, t: nat)
    requires start <= |rs| && t < |ops|
    ensures var s1, s2 := Place(rs, start, ops[t]), Resume(rs, start, ops[t]);
            Merged(rs[start..], ops[t..]) ==
            rs[start..s1] + (if ops[t].Put? then [ops[t].rec] else []) + Merged(rs[s2..], ops[t + 1..])
  {
    hide Taken, CountBefore, Merged;
    var s1, s2 := Place(rs, start, ops[t]), Resume(rs, start, ops[t]);
    MergedUnfold(rs[start..], ops[t], ops[t + 1..]);
    assert ops[t..] == [ops[t]] + ops[t + 1..];
    Slices(rs, start, s1, s2);
  }

  lemma {:induction false} MergedUnfold(rest: seq<Rec>, op: Op, ops: seq<Op>)
    ensures var n := CountBefore(rest, OpKey(op));
            Merged(rest, [op] + ops) ==
            rest[..n] + (if op.Put? then [op.rec] else []) + Merged(rest[n..][Taken(rest[n..], op)..], ops)
  {
    assert ([op] + ops)[1..] == ops;
    hide Taken, CountBefore;
  }

  lemma Slices(rs: seq<Rec>, i: nat, j: nat, k: nat)
    requires i <= j <= k <= |rs|
    ensures rs[i..][..j - i] == rs[i..j] && rs[i..][j - i..] == rs[j..] && rs[j..][k - j..] == rs[k..]
  {
  }

  /** All that has been dealt with comes before the next update. */
  lemma ConsumedBefore(rs: seq<Rec>, start: nat, ops: seq<Op>, t: nat, j: nat)
    requires Legal(rs, ops) && During(rs, start, ops, t) && t < |ops| && j < start
    ensures Before(KeyOf(rs[j]), OpKey(ops[t]))
  {
    var k, k2 := OpKey(ops[t - 1]), OpKey(ops[t]);
    assert Before(k, k2);
    if KeyOf(rs[j]) == k {
    } else if Before(KeyOf(rs[j]), k) {
      BeforeTransitive(KeyOf(rs[j]), k, k2);
    } else {
      NotInside(k.path, k2);
      if k2 != Key(k.path, true) {
        BeforeTransitive(KeyOf(rs[j]), Key(k.path, true), k2);
      }
    }
  }

  /** A key behind a file's, and not below it, comes behind the end of everything
      below. */
  lemma {:induction false} NotInside(p: Path, k: Key)
    requires Before(Key(p, false), k) && !(p < k.path)
    ensures k == Key(p, true) || Before(Key(p, true), k)
  {
    SubtreeBetween(p, k);
    BeforeTotal(k, Key(p, true));
    BeforeTotal(k, k);
  }

  /** The place of the next update divides what is left. */
  lemma PlaceDivides(rs: seq<Rec>, start: nat, op: Op)
    requires Proper(rs) && start <= |rs|
    ensures var s1 := Place(rs, start, op);
            && (forall i :: start <= i < s1 ==> Before(KeyOf(rs[i]), OpKey(op)))
            && (forall i :: s1 <= i < |rs| ==> !Before(KeyOf(rs[i]), OpKey(op)))
            && (forall i :: s1 < i < |rs| ==> Before(OpKey(op), KeyOf(rs[i])))
  {
    var s1 := Place(rs, start, op);
    var rest := rs[start..];
    forall i | start <= i < s1 ensures Before(KeyOf(rs[i]), OpKey(op)) {
      assert rest[i - start] == rs[i];
    }
    if s1 < |rs| {
      assert rest[s1 - start] == rs[s1];
      BeforeTotal(KeyOf(rs[s1]), OpKey(op));
      forall i | s1 < i < |rs| ensures Before(OpKey(op), KeyOf(rs[i])) && !Before(KeyOf(rs[i]), OpKey(op)) {
        SortedAt(None, rs, s1, i);
        if Before(OpKey(op), KeyOf(rs[s1])) {
          BeforeTransitive(OpKey(op), KeyOf(rs[s1]), KeyOf(rs[i]));
        }
        BeforeTotal(KeyOf(rs[i]), OpKey(op));
      }
    }
  }

  /** A directory in whose place a file is put goes with all that is below it. */
  lemma TakenDirectory(rs: seq<Rec>, s1: nat, op: Op)
    requires Proper(rs) && s1 < |rs| && PutsFile(op) && KeyOf(rs[s1]) == OpKey(op)
    requires rs[s1].kind == DirDown && IsCheckout(op.rec)
    ensures var p, s2 := op.rec.path, s1 + Taken(rs[s1..], op);
            s1 < s2 && LeftBehind(rs, s2, p) && forall j :: s1 <= j < s2 ==> Before(KeyOf(rs[j]), Key(p, true))
  {
    var p := op.rec.path;
    BeginEnd(p);
    PlaceDivides(rs, s1, Delete(p, true));
    assert Place(rs, s1, Delete(p, true)) == s1 + Taken(rs[s1..], op);
  }

  lemma StepRest(rs: seq<Rec>, start: nat, ops: seq<Op>, t: nat)
    requires Proper(rs) && Legal(rs, ops) && start <= |rs| && t < |ops|
    ensures RestAfter(rs, Resume(rs, start, ops[t]), ops, t + 1)
  {
    var op, s1, s2 := ops[t], Place(rs, start, ops[t]), Resume(rs, start, ops[t]);
    PlaceDivides(rs, start, op);
    if s1 < |rs| {
      BeforeTotal(KeyOf(rs[s1]), OpKey(op));
      if PutsFile(op) && KeyOf(rs[s1]) == OpKey(op) && rs[s1].kind == DirDown {
        TakenDirectory(rs, s1, op);
      }
    }
  }

  lemma StepConsumed(rs: seq<Rec>, start: nat, ops: seq<Op>, t: nat)
    requires Proper(rs) && Legal(rs, ops) && During(rs, start, ops, t) && t < |ops|
    ensures Consumed(rs, Resume(rs, start, ops[t]), ops, t + 1)
  {
    var op, s1, s2 := ops[t], Place(rs, start, ops[t]), Resume(rs, start, ops[t]);
    PlaceDivides(rs, start, op);
    forall j | 0 <= j < start ensures Before(KeyOf(rs[j]), OpKey(op)) {
      ConsumedBefore(rs, start, ops, t, j);
    }
    hide Proper, Before, RestAfter, Cleared;
    if s1 < s2 && !(s2 == s1 + 1 && KeyOf(rs[s1]) == OpKey(op)) {
      TakenDirectory(rs, s1, op);
    }
  }

  /** The record of a directory in whose place a file is put is where the update
      finds it. */
  lemma DirectoryPlace(rs: seq<Rec>, start: nat, ops: seq<Op>, t: nat, j: nat)
    requires Proper(rs) && Legal(rs, ops) && During(rs, start, ops, t) && t < |ops| && j < |rs|
    requires KeyOf(rs[j]) == OpKey(ops[t])
    ensures j == Place(rs, start, ops[t])
  {
    PlaceDivides(rs, start, ops[t]);
    BeforeTotal(OpKey(ops[t]), OpKey(ops[t]));
    if j < start { ConsumedBefore(rs, start, ops, t, j); }
  }

  lemma ClearedAt(rs: seq<Rec>, start: nat, ops: seq<Op>, t: nat, i: nat)
    requires Proper(rs) && Legal(rs, ops) && During(rs, start, ops, t) && t < |ops|
    requires PutsFile(ops[t]) && Resume(rs, start, ops[t]) <= i < |rs|
    ensures !(ops[t].rec.path <= Dir(rs[i]))
  {
    var op, s1, p := ops[t], Place(rs, start, ops[t]), ops[t].rec.path;
    DirPrefix(rs[i]);
    if p < rs[i].path {
      var j := DirOpened(rs, i, p);
      DirectoryPlace(rs, start, ops, t, j);
      hide Proper, During, Before;
      TakenDirectory(rs, s1, op);
      SubtreeBetween(p, KeyOf(rs[i]));
    } else {
      StepRest(rs, start, ops, t);
      BeforeTotal(OpKey(op), OpKey(op));
    }
  }

  /** Each update leaves things as the next expects them. */
  lemma StepDuring(rs: seq<Rec>, start: nat, ops: seq<Op>, t: nat)
    requires Proper(rs) && Legal(rs, ops) && During(rs, start, ops, t) && t < |ops|
    ensures During(rs, Resume(rs, start, ops[t]), ops, t + 1)
  {
    hide Proper, Legal, Before;
    StepRest(rs, start, ops, t);
    StepConsumed(rs, start, ops, t);
    forall u, i | 0 <= u < t + 1 && Resume(rs, start, ops[t]) <= i < |rs| && PutsFile(ops[u])
      ensures !(ops[u].rec.path <= Dir(rs[i]))
    {
      if u == t { ClearedAt(rs, start, ops, t, i); }
    }
  }
}
