/** Sessions that do not end in step: what closing does then, when it is undefined, when
    it fails, and what a reader of the new file notices. */
module StatusBroken {
  import opened Lines
  import opened Paths
  import opened PathOrder
  import opened StatusList
  import opened StatusSorted
  import opened StatusRead
  import opened StatusMerge
  import opened StatusSession
  import opened StatusSpec
  import opened StatusTail
  import opened StatusEnd
  import P = PathComp

  // ---------------------------------------------------- what a reader notices

  /** With `d` directories open every end closes one, and none is open at the end. */
  predicate Balanced(d: nat, rs: seq<Rec>)
    decreases |rs|
  {
    if rs == [] then d == 0
    else if rs[0].kind == DirUp then d > 0 && Balanced(d - 1, rs[1..])
    else Balanced(if rs[0].kind == DirDown then d + 1 else d, rs[1..])
  }

  lemma {:induction false} NestedBalanced(at: Path, rs: seq<Rec>)
    requires Nested(at, rs)
    ensures Balanced(|at|, rs)
    decreases |rs|
  {
    if rs != [] {
      NestedBalanced(Dir(rs[0]), rs[1..]);
    }
  }

  lemma {:induction false} LeadsBalanced(at: Path, a: seq<Rec>, to: Path, b: seq<Rec>)
    requires Leads(at, a, to)
    ensures Balanced(|at|, a + b) <==> Balanced(|to|, b)
    decreases |a|
  {
    if a == [] {
      assert a + b == b;
    } else {
      assert (a + b)[1..] == a[1..] + b;
      LeadsBalanced(Dir(a[0]), a[1..], to, b);
    }
  }

  lemma {:induction false} BalancedOnce(d: nat, e: nat, rs: seq<Rec>)
    requires Balanced(d, rs) && Balanced(e, rs)
    ensures d == e
    decreases |rs|
  {
    if rs != [] {
      var c := if rs[0].kind == DirDown then 1 else if rs[0].kind == DirUp then -1 else 0;
      BalancedOnce(d + c, e + c, rs[1..]);
    }
  }

  /** A sorted file reads back without error if and only if it is balanced. */
  lemma {:induction false} SortedReads(i: Input, rs: seq<Rec>)
    requires i.lines == Entries(rs) && !i.eof && AllNamed(rs) && (i.prev.Some? ==> i.prev.value.path != [])
    requires SortedFrom(if i.prev.Some? then Some(KeyOf(i.prev.value)) else None, rs)
    ensures ReadAll(i).1 == None <==> Balanced(i.depth, rs)
    decreases |rs|
  {
    if rs != [] {
      assert i.lines[1..] == Entries(rs[1..]) && i.lines[0] == Entry(rs[0], true);
      if i.prev.Some? { RecCmpOrder(KeyOf(i.prev.value), KeyOf(rs[0])); }
      var d := if rs[0].kind == DirDown then i.depth + 1 else i.depth - if rs[0].kind == DirUp then 1 else 0;
      if d >= 0 {
        SortedReads(Input(Entries(rs[1..]), Some(rs[0]), d, false), rs[1..]);
      }
      hide SortedFrom, RecCmp, Before;
    }
  }

  // -------------------------------------------------- what is written is in order

  /** What writing records one after the other gives, directories left open. */
  function Opening(at: Path, m: seq<Rec>): seq<Rec>
    decreases |m|
  {
    if m == [] then [] else Emit(at, m[0]) + Opening(Dir(m[0]), m[1..])
  }

  lemma {:induction false} OpeningRest(at: Path, m: seq<Rec>, rest: seq<Rec>)
    ensures Compress(at, m + rest) == Opening(at, m) + Compress(LastDir(at, m), rest)
    decreases |m|
  {
    if m == [] {
      assert m + rest == rest && [] + Compress(at, rest) == Compress(at, rest);
    } else {
      assert (m + rest)[1..] == m[1..] + rest;
      OpeningRest(Dir(m[0]), m[1..], rest);
      var a, b, c := Emit(at, m[0]), Opening(Dir(m[0]), m[1..]), Compress(LastDir(at, m), rest);
      assert LastDir(Dir(m[0]), m[1..]) == LastDir(at, m);
      assert Compress(at, m + rest) == a + (b + c);
      Associate(a, b, c);
      hide Emit, Compress, Opening;
    }
  }

  lemma {:induction false} OpeningSorted(at: Path, o: Option<Key>, a: Option<Rec>, m: seq<Rec>, rest: seq<Rec>)
    requires OrderlyFrom(a, m + rest)
    requires if a == None then at == [] && o == None
             else a.value.path != [] && at == Dir(a.value) && StatusSorted.Written(o, a.value)
    ensures SortedFrom(o, Opening(at, m))
    ensures m != [] ==> StatusSorted.Written(LastKey(o, Opening(at, m)), m[|m| - 1])
    decreases |m|
  {
    if m != [] {
      var b := m[0];
      assert (m + rest)[0] == b && (m + rest)[1..] == m[1..] + rest;
      OneSorted(at, o, a, b);
      var e, more := Emit(at, b), Opening(Dir(b), m[1..]);
      OpeningSorted(Dir(b), LastKey(o, e), Some(b), m[1..], rest);
      SortedPlus(o, e, more);
      assert m[1..] == [] ==> more == [];
      hide Emit, Opening, SortedFrom, StatusSorted.Written, OrderlyFrom, Dir;
    }
  }

  lemma {:induction false} OneSorted(at: Path, o: Option<Key>, a: Option<Rec>, b: Rec)
    requires b.path != [] && (a.Some? ==> Follows(a.value, b))
    requires if a == None then at == [] && o == None
             else a.value.path != [] && at == Dir(a.value) && StatusSorted.Written(o, a.value)
    ensures SortedFrom(o, Emit(at, b)) && StatusSorted.Written(LastKey(o, Emit(at, b)), b)
  {
    var info := if b.kind == DirUp then b.info else Bogus;
    if a == None {
      DownSorted([], Dir(b), None, b, info);
    } else {
      NextSorted(o, a.value, b, info);
    }
    EmitSorted(at, o, b);
  }

  lemma {:induction false} LeftIs(rem: seq<Rec>, op: Op) returns (k: nat)
    ensures CountBefore(rem, OpKey(op)) <= k <= |rem| && LeftBy(rem, op) == rem[k..]
  {
    var n := CountBefore(rem, OpKey(op));
    k := n + Taken(rem[n..], op);
    assert rem[n..][k - n..] == rem[k..];
  }

  predicate IsSuffix(a: seq<Rec>, b: seq<Rec>) {
    |a| <= |b| && a == b[|b| - |a|..]
  }

  lemma {:induction false} SuffixOfSuffix(a: seq<Rec>, b: seq<Rec>, k: nat)
    requires k <= |b| && IsSuffix(a, b[k..])
    ensures IsSuffix(a, b)
  {
  }

  lemma {:induction false} LeftSuffix(rem: seq<Rec>, ops: seq<Op>)
    ensures IsSuffix(LeftByAll(rem, ops), rem)
    decreases |ops|
  {
    if ops == [] {
      assert rem[0..] == rem;
    } else {
      hide LeftBy, IsSuffix;
      var k := LeftIs(rem, ops[0]);
      LeftSuffix(LeftBy(rem, ops[0]), ops[1..]);
      SuffixOfSuffix(LeftByAll(LeftBy(rem, ops[0]), ops[1..]), rem, k);
    }
  }

  ghost predicate FromOld(rem: seq<Rec>, n: int, h: Rec) {
    exists i: nat :: i < n <= |rem| && rem[i] == h
  }

  ghost predicate WasPut(ops: seq<Op>, h: Rec) {
    exists u :: 0 <= u < |ops| && ops[u] == Put(h)
  }

  lemma {:induction false} FromOldLater(rem: seq<Rec>, k: nat, n: int, h: Rec)
    requires k <= |rem| && FromOld(rem[k..], n, h)
    ensures FromOld(rem, k + n, h)
  {
    var i: nat :| i < n <= |rem| - k && rem[k..][i] == h;
    assert rem[k + i] == h;
  }

  lemma {:induction false} WasPutLater(ops: seq<Op>, h: Rec)
    requires ops != [] && WasPut(ops[1..], h)
    ensures WasPut(ops, h)
  {
    var u :| 0 <= u < |ops[1..]| && ops[1..][u] == Put(h);
    assert ops[u + 1] == Put(h);
  }

  /** The record written last is one of the old file that has been dealt with, or one
      that was put. */
  ghost predicate KnownLast(rem: seq<Rec>, ops: seq<Op>, head: seq<Rec>, rest: seq<Rec>) {
    head != [] ==>
      FromOld(rem, |rem| - |rest|, head[|head| - 1]) || WasPut(ops, head[|head| - 1])
  }

  lemma {:induction false} HeadLast(rem: seq<Rec>, ops: seq<Op>)
    ensures KnownLast(rem, ops, Head(rem, ops), LeftByAll(rem, ops))
    decreases |ops|
  {
    if ops != [] {
      OneMore(Open([], false), rem, ops);
      hide Head, LeftByAll, LeftBy, CountBefore, Puts, ApplyAll, KnownLast, IsSuffix;
      var left := LeftBy(rem, ops[0]);
      var tail, rest := Head(left, ops[1..]), LeftByAll(left, ops[1..]);
      var k := LeftIs(rem, ops[0]);
      LeftSuffix(left, ops[1..]);
      HeadLast(left, ops[1..]);
      KnownStep(rem, CountBefore(rem, OpKey(ops[0])), k, ops, tail, rest);
    }
  }

  lemma {:induction false} KnownStep(rem: seq<Rec>, n: nat, k: nat, ops: seq<Op>, tail: seq<Rec>, rest: seq<Rec>)
    requires ops != [] && n <= k <= |rem| && IsSuffix(rest, rem[k..]) && KnownLast(rem[k..], ops[1..], tail, rest)
    ensures KnownLast(rem, ops, rem[..n] + Puts(ops[0]) + tail, rest)
  {
    var first := rem[..n] + Puts(ops[0]);
    if tail != [] {
      assert (first + tail)[|first + tail| - 1] == tail[|tail| - 1];
      HeadLater(rem, k, |rest|, ops, tail[|tail| - 1]);
    } else if first != [] {
      assert first + tail == first;
      OldOrPut(rem, n, |rem| - |rest|, ops, first);
    } else {
      assert first + tail == [];
    }
    hide FromOld, WasPut;
  }

  lemma {:induction false} HeadLater(rem: seq<Rec>, k: nat, m: nat, ops: seq<Op>, h: Rec)
    requires k <= |rem| && ops != [] && (FromOld(rem[k..], |rem[k..]| - m, h) || WasPut(ops[1..], h))
    ensures FromOld(rem, |rem| - m, h) || WasPut(ops, h)
  {
    if WasPut(ops[1..], h) {
      WasPutLater(ops, h);
    } else {
      FromOldLater(rem, k, |rem| - k - m, h);
    }
    hide FromOld, WasPut;
  }

  lemma {:induction false} OldOrPut(rem: seq<Rec>, n: nat, m: int, ops: seq<Op>, first: seq<Rec>)
    requires ops != [] && n <= m <= |rem| && first == rem[..n] + Puts(ops[0]) && first != []
    ensures FromOld(rem, m, first[|first| - 1]) || WasPut(ops, first[|first| - 1])
  {
    if ops[0].Put? {
      assert ops[0] == Put(first[|first| - 1]);
    } else {
      assert first == rem[..n] && rem[n - 1] == first[n - 1];
    }
  }

  /** When a session ends by taking a record away, what was written last comes before
      what is left. */
  lemma {:induction false} LastBefore(rs: seq<Rec>, ops: seq<Op>)
    requires Proper(rs) && Legal(rs, ops) && TakesLast(rs, ops) && LeftByAll(rs, ops) != [] && Head(rs, ops) != []
    ensures var h := Head(rs, ops)[|Head(rs, ops)| - 1];
            Before(KeyOf(h), KeyOf(LeftByAll(rs, ops)[0]))
  {
    hide LeftByAll, LeftBy, Head, CountBefore, Takes, Proper, Legal, FromOld, WasPut;
    var pre, op := ops[..|ops| - 1], ops[|ops| - 1];
    var h, f := Head(rs, ops)[|Head(rs, ops)| - 1], |rs| - |LeftByAll(rs, ops)|;
    assert ops == pre + [op];
    LeftByAllLast(rs, pre, op);
    LeftSuffix(rs, ops);
    LeftSuffix(rs, pre);
    HeadLast(rs, ops);
    TakenBefore(LeftByAll(rs, pre), op);
    assert LeftByAll(rs, ops)[0] == rs[f];
    if FromOld(rs, f, h) {
      OldBefore(rs, f, h);
    } else {
      PutBefore(rs, f, ops, h);
    }
  }

  lemma {:induction false} OldBefore(rs: seq<Rec>, f: nat, h: Rec)
    requires Proper(rs) && f < |rs| && FromOld(rs, f, h)
    ensures Before(KeyOf(h), KeyOf(rs[f]))
  {
    var i: nat :| i < f <= |rs| && rs[i] == h;
    SortedAt(None, rs, i, f);
  }

  lemma {:induction false} PutBefore(rs: seq<Rec>, f: nat, ops: seq<Op>, h: Rec)
    requires Proper(rs) && Legal(rs, ops) && 0 < f < |rs| && WasPut(ops, h)
    requires KeyOf(rs[f - 1]) == OpKey(ops[|ops| - 1])
    ensures Before(KeyOf(h), KeyOf(rs[f]))
  {
    hide Before, KeyOf, FilesAreLeaves, NoFileInTheWay, DirsReplaced, OpsNamed;
    var u :| 0 <= u < |ops| && ops[u] == Put(h);
    assert OpKey(ops[u]) == KeyOf(h);
    SortedAt(None, rs, f - 1, f);
    if u < |ops| - 1 {
      BeforeTransitive(KeyOf(h), OpKey(ops[|ops| - 1]), KeyOf(rs[f]));
    }
  }

  lemma {:induction false} TakenBefore(rem: seq<Rec>, op: Op)
    requires Takes(rem, op)
    ensures var n := CountBefore(rem, OpKey(op));
            n < |rem| && KeyOf(rem[n]) == OpKey(op) && LeftBy(rem, op) == rem[n + 1..]
  {
  }

  lemma {:induction false} SuffixCut(a: seq<Rec>, b: seq<Rec>, c: seq<Rec>)
    requires a + c == b + c
    ensures a == b
  {
    assert a == (a + c)[..|a|] && b == (b + c)[..|b|];
  }

  /** What has been written so far is what the compressor makes of the records. */
  lemma {:induction false} WrittenOpening(rs: seq<Rec>, ops: seq<Op>, dirty: bool)
    requires Proper(rs) && OpsNamed(ops)
    ensures ApplyAll(Open(rs, dirty), ops).out == Opening([], Head(rs, ops))
  {
    hide ApplyAll, Open, Head, Compress, Good, Proper, Opening, OpsNamed;
    var s, h := ApplyAll(Open(rs, dirty), ops), Head(rs, ops);
    OpenGood(rs, dirty);
    OpenSynced(rs, dirty);
    SoFar(Open(rs, dirty), rs, ops, []);
    OpeningRest([], h, []);
    assert [] + Compress([], h + []) == Compress([], h + []);
    SuffixCut(s.out, Opening([], h), Compress(s.at, []));
  }

  lemma {:induction false} OpeningInOrder(rs: seq<Rec>, ops: seq<Op>)
    requires Proper(rs) && Legal(rs, ops)
    ensures var h := Head(rs, ops);
            && SortedFrom(None, Opening([], h))
            && (h != [] ==> StatusSorted.Written(LastKey(None, Opening([], h)), h[|h| - 1]))
  {
    hide Head, Merged, OrderlyFrom, Opening, SortedFrom, LeftByAll, Legal, Proper, During;
    MergedHead(rs, ops);
    AtStart(rs, ops);
    MergedOrderly(rs, 0, ops, 0, None);
    OpeningSorted([], None, None, Head(rs, ops), LeftByAll(rs, ops));
  }

  /** Out of step, what is written up to the last update and what is left are in order. */
  lemma {:induction false} BrokenSorted(rs: seq<Rec>, ops: seq<Op>, dirty: bool)
    requires Proper(rs) && Legal(rs, ops) && !EndsInStep(rs, ops)
    ensures var file := ApplyAll(Open(rs, dirty), ops).out + LeftByAll(rs, ops);
            SortedFrom(None, file) && AllNamed(file)
  {
    assert OpsNamed(ops) && SortedFrom(None, rs);
    hide ApplyAll, Open, Ending, LeftByAll, Head, Good, Proper, Opening, SortedFrom, Legal, Leads, AllNamed, OpsNamed,
         Nested;
    var s, rem, h := ApplyAll(Open(rs, dirty), ops), LeftByAll(rs, ops), Head(rs, ops);
    OutOfStep(rs, ops, dirty);
    WrittenOpening(rs, ops, dirty);
    OpeningInOrder(rs, ops);
    LeftSuffix(rs, ops);
    SuffixSorted(None, rs, |rs| - |rem|);
    if h != [] { LastBefore(rs, ops); } else { NothingOpening(); }
    SeamSorted(s.out, h, rem);
    ProperNamed(rs);
    HeadNamed(rs, ops);
    WrittenLeads(rs, ops, dirty);
    LeadsNamed([], s.out, s.at);
    NamedPlus(s.out, rem);
  }

  lemma {:induction false} NothingOpening()
    ensures Opening([], []) == []
  {
  }

  lemma {:induction false} NamedPlus(a: seq<Rec>, b: seq<Rec>)
    requires AllNamed(a) && AllNamed(b)
    ensures AllNamed(a + b)
  {
  }

  lemma {:induction false} SeamSorted(out: seq<Rec>, h: seq<Rec>, rem: seq<Rec>)
    requires SortedFrom(None, out) && SortedFrom(None, rem) && rem != [] && (h == [] ==> out == [])
    requires h != [] ==>
             StatusSorted.Written(LastKey(None, out), h[|h| - 1]) && Before(KeyOf(h[|h| - 1]), KeyOf(rem[0]))
    ensures SortedFrom(None, out + rem)
  {
    if h == [] {
      assert out + rem == rem;
    } else {
      WrittenBefore(LastKey(None, out), h[|h| - 1], KeyOf(rem[0]));
      SortedPlus(None, out, rem);
    }
  }

  lemma {:induction false} SuffixSorted(o: Option<Key>, rs: seq<Rec>, n: nat)
    requires SortedFrom(o, rs) && n <= |rs|
    ensures SortedFrom(None, rs[n..])
    decreases |rs|
  {
    if n > 0 {
      assert rs[n..] == rs[1..][n - 1..];
      SuffixSorted(Some(KeyOf(rs[0])), rs[1..], n - 1);
    } else {
      assert rs[0..] == rs;
    }
  }

  lemma {:induction false} LeadsNamed(at: Path, rs: seq<Rec>, to: Path)
    requires Leads(at, rs, to)
    ensures AllNamed(rs)
    decreases |rs|
  {
    if rs != [] {
      LeadsNamed(Dir(rs[0]), rs[1..], to);
      forall i | 0 <= i < |rs| ensures rs[i].path != [] {
        if i > 0 { assert rs[i] == rs[1..][i - 1]; }
      }
    }
  }

  // ------------------------------------------------------------ what the code does

  /** A directory on the path of what was written last comes before that. */
  lemma {:induction false} NotOnPath(h: Rec, r: Rec)
    requires h.path != [] && r.path != [] && Before(KeyOf(h), KeyOf(r)) && r.kind == DirDown
    ensures !(r.path <= Dir(h))
  {
    var p, k := r.path, KeyOf(h);
    SubtreeBetween(p, k);
    BeforeTotal(KeyOf(r), k);
    BeforeTotal(k, k);
    hide Before;
    assert p <= Dir(h) ==> p <= h.path && k != Key(p, true);
  }

  /** What is left of the old file does not enter the compressor's directories again. */
  lemma {:induction false} FreshLeft(rs: seq<Rec>, ops: seq<Op>)
    requires Proper(rs) && Legal(rs, ops) && !EndsInStep(rs, ops)
    ensures Fresh(LastDir([], Head(rs, ops)), LeftByAll(rs, ops))
  {
    var h, rem := Head(rs, ops), LeftByAll(rs, ops);
    assert TakesLast(rs, ops) && rem != [] && SortedFrom(None, rs);
    LeftSuffix(rs, ops);
    SuffixSorted(None, rs, |rs| - |rem|);
    ProperNamed(rs);
    HeadNamed(rs, ops);
    if h != [] { LastBefore(rs, ops); }
    hide Proper, Legal, TakesLast, EndsInStep, Head, LeftByAll, SortedFrom, Before, Dir;
    forall k | 0 <= k < |rem| && rem[k].kind == DirDown ensures !(rem[k].path <= LastDir([], h)) {
      if h != [] {
        AllBehind(h[|h| - 1], rem, k);
        NotOnPath(h[|h| - 1], rem[k]);
      }
    }
  }

  lemma {:induction false} AllBehind(h: Rec, rem: seq<Rec>, k: nat)
    requires rem != [] && Before(KeyOf(h), KeyOf(rem[0])) && SortedFrom(None, rem) && k < |rem|
    ensures Before(KeyOf(h), KeyOf(rem[k]))
  {
    hide Before, SortedFrom;
    if k > 0 {
      SortedAt(None, rem, 0, k);
      BeforeTransitive(KeyOf(h), KeyOf(rem[0]), KeyOf(rem[k]));
    }
  }

  /** What is said of a session is what the code does on the compressor's fields. */
  lemma {:induction false} SessionCloses(rs: seq<Rec>, ops: seq<Op>, dirty: bool, f: P.Fields)
    requires Proper(rs) && Legal(rs, ops) && ApplyAll(Open(rs, dirty), ops).dirty
    requires P.Idle(f, Caught(ApplyAll(Open(rs, dirty), ops)).at)
    ensures P.Sound(f) && Does(CloseF(Caught(ApplyAll(Open(rs, dirty), ops)), f), Ending(rs, ops, dirty))
  {
    var s0 := Open(rs, dirty);
    var s, rem := ApplyAll(s0, ops), LeftByAll(rs, ops);
    OpenGood(rs, dirty);
    ApplyAllGood(s0, rs, ops);
    CaughtGood(s, rem);
    SyncedExactly(rs, ops, dirty);
    if EndsInStep(rs, ops) {
      SyncedThere(s, rem);
    } else {
      OutOfStep(rs, ops, dirty);
      FreshLeft(rs, ops);
    }
    hide Good, ApplyAll, LeftByAll, EndsInStep, Legal, Proper, Fresh, P.Idle, P.Sound, CloseF, LeftAs, Does, Synced;
    ClosesAs(Caught(s), Uncaught(s, rem), f);
  }

  /** When a session does not end in step, what closing does is a matter of the
      directory of the last record written and of the records left. */
  lemma {:induction false} BrokenExactly(rs: seq<Rec>, ops: seq<Op>, dirty: bool)
    requires Proper(rs) && Legal(rs, ops) && !EndsInStep(rs, ops)
    ensures var e, rem, at := Ending(rs, ops, dirty), LeftByAll(rs, ops), LastDir([], Head(rs, ops));
            && rem != [] && rem[0].path != [] && Home(rem[0]) != at
            && match FateFrom(at, at, false, rem)
               case Wrecked => e == Wild
               case Refused => e == Kept(false)
               case Closes(left) => e == New(Opening([], Head(rs, ops)) + rem + Travel(left, [], Bogus))
  {
    OutOfStep(rs, ops, dirty);
    WrittenOpening(rs, ops, dirty);
    hide ApplyAll, LeftByAll, Head, FateFrom, EndsInStep, Legal, Proper, Good, Nested, Ending;
    var s := ApplyAll(Open(rs, dirty), ops);
    assert Home(LeftByAll(rs, ops)[0]) == NestAt(s.input);
  }

  // ----------------------------------------------------------- what a reader notices

  /** Without an error what is read is in order. */
  lemma {:induction false} CleanSorted(i: Input, rs: seq<Rec>)
    requires i.lines == Entries(rs) && !i.eof && AllNamed(rs) && (i.prev.Some? ==> i.prev.value.path != [])
    requires ReadAll(i).1 == None
    ensures SortedFrom(if i.prev.Some? then Some(KeyOf(i.prev.value)) else None, rs)
    decreases |rs|
  {
    if rs != [] {
      assert i.lines[1..] == Entries(rs[1..]) && i.lines[0] == Entry(rs[0], true);
      if i.prev.Some? { RecCmpOrder(KeyOf(i.prev.value), KeyOf(rs[0])); }
      assert ReadRaw(i).Got?;
      CleanSorted(ReadRaw(i).rest, rs[1..]);
      hide RecCmp, Before;
    }
  }

  lemma {:induction false} SortedSplit(o: Option<Key>, a: seq<Rec>, b: seq<Rec>)
    requires SortedFrom(o, a + b)
    ensures SortedFrom(if a == [] then o else Some(KeyOf(a[|a| - 1])), b)
    decreases |a|
  {
    if a == [] {
      assert a + b == b;
    } else {
      assert (a + b)[1..] == a[1..] + b;
      SortedSplit(Some(KeyOf(a[0])), a[1..], b);
    }
  }

  /** The end of a directory that was written before the rest cannot come behind the
      rest. */
  lemma {:induction false} LateEnd(h: Rec, z: Rec, left: Path)
    requires h.path != [] && left != [] && left <= Dir(h) && Before(KeyOf(h), KeyOf(z)) && z.path != [] && Dir(z) == []
    ensures !Before(KeyOf(z), Key(left, true))
  {
    var k := KeyOf(h);
    SubtreeBetween(left, k);
    SubtreeBetween(left, KeyOf(z));
    BeforeTotal(k, KeyOf(z));
    BeforeTotal(KeyOf(z), KeyOf(z));
    BeforeTotal(Key(left, false), KeyOf(z));
    hide Before;
    assert left <= h.path && k != Key(left, true);
    LateStart(h, z, left);
    assert left <= z.path ==> left == z.path;
  }

  lemma {:induction false} LateStart(h: Rec, z: Rec, left: Path)
    requires left <= h.path && KeyOf(h) != Key(left, true) && Before(KeyOf(h), KeyOf(z))
    ensures Before(Key(left, false), KeyOf(z))
  {
    var k := KeyOf(h);
    SubtreeBetween(left, k);
    hide Before;
    if k != Key(left, false) {
      BeforeTransitive(Key(left, false), k, KeyOf(z));
    }
  }

  lemma {:induction false} FateLevel(whole: Path, base: Path, hangs: bool, rem: seq<Rec>)
    requires base <= whole
    ensures FateFrom(whole, base, hangs, rem).Closes? ==> FateFrom(whole, base, hangs, rem).at <= whole
    decreases |rem|
  {
    if rem != [] {
      var r, to := rem[0], Dir(rem[0]);
      var es, n := P.Moves(base, to), if hangs then GetCount(r) - 1 else GetCount(r);
      hide P.Moves, Common, Join;
      if n == 0 {
        FateLevel(whole, base, false, rem[1..]);
      } else if n <= |es| {
        match es[n - 1]
        case Up(p) =>
          UpsLead(base, to, n);
          FateLevel(whole, Parent(p), false, rem[1..]);
        case Down(p) =>
          FateLevel(whole, Common(base, to), true, rem[1..]);
      }
    }
  }

  /** A new file that is written out of step reads back without an error if and only if
      no directory is left at the end and the two directories have the same depth: then
      the entries are silently listed in the wrong directory. */
  lemma {:induction false} BrokenReads(rs: seq<Rec>, ops: seq<Op>, dirty: bool)
    requires Proper(rs) && Legal(rs, ops) && !EndsInStep(rs, ops) && Ending(rs, ops, dirty).New?
    ensures var rem, at := LeftByAll(rs, ops), LastDir([], Head(rs, ops));
            && rem != [] && rem[0].path != []
            && (ReadAll(Opened(Ending(rs, ops, dirty).file)).1 == None <==>
                FateFrom(at, at, false, rem) == Closes([]) && |at| == |Home(rem[0])|)
  {
    var s, rem, at := ApplyAll(Open(rs, dirty), ops), LeftByAll(rs, ops), LastDir([], Head(rs, ops));
    OutOfStep(rs, ops, dirty);
    BrokenSorted(rs, ops, dirty);
    WrittenLeads(rs, ops, dirty);
    var nest, left := NestAt(s.input), FateFrom(at, at, false, rem).at;
    assert rem[0].path != [] && nest == Home(rem[0]);
    hide ApplyAll, Open, LeftByAll, Head, EndsInStep, Nested, SortedFrom, Leads, FateFrom, LastDir, Good;
    if left == [] {
      UpsTravel([]);
      assert s.out + rem + [] == s.out + rem;
      SortedReads(Opened(s.out + rem), s.out + rem);
      LeadsBalanced([], s.out, s.at, rem);
      NestedBalanced(nest, rem);
      if Balanced(|s.at|, rem) { BalancedOnce(|s.at|, |nest|, rem); }
    } else {
      LeftOver(rs, ops, dirty, left);
    }
  }

  lemma {:induction false} LeftOver(rs: seq<Rec>, ops: seq<Op>, dirty: bool, left: Path)
    requires Proper(rs) && Legal(rs, ops) && !EndsInStep(rs, ops) && left != []
    requires FateFrom(LastDir([], Head(rs, ops)), LastDir([], Head(rs, ops)), false, LeftByAll(rs, ops)) == Closes(left)
    ensures var s, rem := ApplyAll(Open(rs, dirty), ops), LeftByAll(rs, ops);
            ReadAll(Opened(s.out + rem + Travel(left, [], Bogus))).1 != None
  {
    var s, rem, h := ApplyAll(Open(rs, dirty), ops), LeftByAll(rs, ops), Head(rs, ops);
    OutOfStep(rs, ops, dirty);
    BrokenSorted(rs, ops, dirty);
    ProperNamed(rs);
    HeadNamed(rs, ops);
    FateLevel(LastDir([], h), LastDir([], h), false, rem);
    NestedEnds(NestAt(s.input), rem);
    UpsTravel(left);
    LastBefore(rs, ops);
    LeftSuffix(rs, ops);
    assert SortedFrom(None, rs);
    SuffixSorted(None, rs, |rs| - |rem|);
    hide ApplyAll, Open, LeftByAll, Head, EndsInStep, Nested, SortedFrom, FateFrom, Good, Proper, Legal, Travel,
         TakesLast,
         Before, Opened, ReadAll;
    AllBehind(h[|h| - 1], rem, |rem| - 1);
    LateTravel(s.out + rem, h[|h| - 1], left);
  }

  lemma {:induction false} LateTravel(file: seq<Rec>, h: Rec, left: Path)
    requires AllNamed(file) && file != [] && left != [] && h.path != [] && left <= Dir(h)
    requires var z := file[|file| - 1]; Dir(z) == [] && Before(KeyOf(h), KeyOf(z))
    ensures ReadAll(Opened(file + Travel(left, [], Bogus))).1 != None
  {
    var ups, z := Travel(left, [], Bogus), file[|file| - 1];
    UpsTravel(left);
    TravelNamed(left);
    hide SortedFrom, Travel, Before, Opened, ReadAll;
    NamedPlus(file, ups);
    OpenedIs(file + ups);
    if ReadAll(Opened(file + ups)).1 == None {
      CleanSorted(Opened(file + ups), file + ups);
      SortedSplit(None, file, ups);
      FirstSorted(z, ups);
      LateEnd(h, z, left);
    }
  }

  lemma {:induction false} FirstSorted(z: Rec, ups: seq<Rec>)
    requires SortedFrom(Some(KeyOf(z)), ups) && ups != []
    ensures Before(KeyOf(z), KeyOf(ups[0]))
  {
  }

  lemma {:induction false} OpenedIs(rs: seq<Rec>)
    ensures var i := Opened(rs); i.lines == Entries(rs) && !i.eof && i.prev == None
  {
  }

  lemma {:induction false} TravelNamed(left: Path)
    ensures AllNamed(Travel(left, [], Bogus))
    decreases |left|
  {
    UpsTravel(left);
    if left != [] {
      TravelNamed(Parent(left));
      hide Travel;
    }
  }

  // -------------------------------------------------- the nearest cases, in short

  /** When the reader is below the compressor's directory, closing is undefined unless
      the next record is the end of a directory; then it depends on how far below. */
  lemma {:induction false} FateBelow(at: Path, nest: Path, rem: seq<Rec>)
    requires Nested(nest, rem) && rem != [] && at <= nest && at != nest
    ensures FateFrom(at, at, false, rem) ==
            if rem[0].kind != DirUp then Wrecked else if |nest| <= |at| + 2 then Closes([]) else Refused
  {
    var r, to := rem[0], Dir(rem[0]);
    BelowHome(at, nest, r);
    P.MovesDown(at, to);
    DownsLength(to, |at|);
    var n := GetCount(r);
    if n <= |to| - |at| {
      DownsOnly(to, |at|, n - 1);
      var p := to[..|at| + n];
      assert P.Moves(at, to)[n - 1] == P.Down(p);
      if r.kind == DirDown && p == to {
        CommonBelow(at, to);
        assert rem[1..] != [] && Home(rem[1]) == to;
        PrefixLength(at, to);
        hide Join;
        assert FateFrom(at, at, true, rem[1..]) == Wrecked;
      }
    }
    hide P.Moves, P.Downs, Join;
  }

  /** When the compressor is one directory below the reader's, it is in step again
      behind a file or the end of a directory. */
  lemma {:induction false} FateAbove(at: Path, rem: seq<Rec>)
    requires at != [] && rem != [] && Nested(Parent(at), rem) && rem[0].kind != DirDown
    ensures FateFrom(at, at, false, rem) == Closes([])
  {
    var r, nest := rem[0], Parent(at);
    var to := Dir(r);
    assert P.Moves(at, to) == [P.Up(at)] + P.Moves(nest, to) by { UpFirst(at, to); }
    MovesOne(nest, to);
    var rest := rem[1..];
    assert Nested(to, rest);
    hide Nested, P.Moves, Join;
    BackInStep(at, to, rest);
    FateStep(at, at, false, rem);
  }

  lemma {:induction false} UpFirst(at: Path, to: Path)
    requires at != [] && to <= Parent(at)
    ensures P.Moves(at, to) == [P.Up(at)] + P.Moves(Parent(at), to)
  {
    assert !(at <= to);
  }

  lemma {:induction false} BackInStep(whole: Path, at: Path, rem: seq<Rec>)
    requires at <= whole && Nested(at, rem)
    ensures FateFrom(whole, at, false, rem) == Closes([])
  {
    if rem != [] {
      InStepMoves(at, rem[0]);
    }
  }

  // --------------------------------------------------------- sessions that go wrong

  /** A record put before all that is left. */
  lemma {:induction false} PutInFront(rem: seq<Rec>, r: Rec, ops: seq<Op>)
    requires rem != [] && Before(KeyOf(r), KeyOf(rem[0]))
    ensures Head(rem, [Put(r)] + ops) == [r] + Head(rem, ops)
    ensures LeftByAll(rem, [Put(r)] + ops) == LeftByAll(rem, ops)
  {
    BeforeTotal(KeyOf(r), KeyOf(rem[0]));
    assert rem[0..] == rem && ([Put(r)] + ops)[1..] == ops;
    assert LeftBy(rem, Put(r)) == rem;
    assert rem[..0] + [r] == [r];
  }

  /** The first of what is left, deleted. */
  lemma {:induction false} DeleteFirst(rem: seq<Rec>, ops: seq<Op>)
    requires rem != [] && rem[0].kind != DirUp
    ensures var op := Delete(rem[0].path, false);
            && Takes(rem, op) && Head(rem, [op] + ops) == Head(rem[1..], ops)
            && LeftByAll(rem, [op] + ops) == LeftByAll(rem[1..], ops)
  {
    var op := Delete(rem[0].path, false);
    BeforeTotal(KeyOf(rem[0]), KeyOf(rem[0]));
    assert rem[0..] == rem && ([op] + ops)[1..] == ops;
    assert LeftBy(rem, op) == rem[1..];
    assert rem[..0] + [] + Head(rem[1..], ops) == Head(rem[1..], ops);
  }

  lemma {:induction false} NoMore(rem: seq<Rec>)
    ensures Head(rem, []) == [] && LeftByAll(rem, []) == rem
  {
  }

  lemma {:induction false} TwoFiles(a: Rec, b: Rec)
    requires !IsDir(a) && !IsDir(b) && |a.path| == |b.path| == 1 && Before(KeyOf(a), KeyOf(b))
    ensures Proper([a, b])
  {
    assert [a, b][1..] == [b] && [b][1..] == [];
  }

  /** A file is put in a new directory and the file behind it deleted. */
  predicate OpensDirectory(a: Rec, b: Rec, c: Rec) {
    && !IsDir(a) && !IsDir(b) && !IsDir(c) && |a.path| == 2 && |b.path| == |c.path| == 1
    && Before(KeyOf(a), KeyOf(b)) && Before(KeyOf(b), KeyOf(c)) && a.path[0] != b.path[0]
  }

  /** The end of the new directory is then missing from the new file, which does not
      read back. */
  lemma {:induction false} NewDirectoryLeftOpen(a: Rec, b: Rec, c: Rec)
    requires OpensDirectory(a, b, c)
    ensures var rs, ops := [b, c], [Put(a), Delete(b.path, false)];
            && Proper(rs) && Legal(rs, ops) && !EndsInStep(rs, ops)
            && Ending(rs, ops, false).New? && ReadAll(Opened(Ending(rs, ops, false).file)).1.Some?
  {
    var rs, ops := [b, c], [Put(a), Delete(b.path, false)];
    TwoFiles(b, c);
    OpensLegal(a, b, c);
    assert Nested(Parent(Dir(a)), [c]) by { assert [c][1..] == []; }
    hide ReadAll, Ending, ApplyAll, Legal, Proper, FateFrom, Nested;
    OpensEnd(a, b, c);
    FateAbove(Dir(a), [c]);
    BrokenExactly(rs, ops, false);
    BrokenReads(rs, ops, false);
  }

  lemma {:induction false} OpensLegal(a: Rec, b: Rec, c: Rec)
    requires OpensDirectory(a, b, c)
    ensures Legal([b, c], [Put(a), Delete(b.path, false)])
  {
    var ops := [Put(a), Delete(b.path, false)];
    assert !(b.path < a.path);
    if c.path < a.path {
      SubtreeBetween(c.path, KeyOf(a));
      BeforeTransitive(KeyOf(a), KeyOf(b), KeyOf(c));
      BeforeTotal(KeyOf(a), KeyOf(c));
    }
    hide Before;
    assert OpsNamed(ops) && Increasing(ops) && FilesAreLeaves(ops);
  }

  lemma {:induction false} OpensEnd(a: Rec, b: Rec, c: Rec)
    requires OpensDirectory(a, b, c)
    ensures var rs, ops := [b, c], [Put(a), Delete(b.path, false)];
            TakesLast(rs, ops) && Head(rs, ops) == [a] && LeftByAll(rs, ops) == [c]
  {
    hide Takes, Before, Head, LeftByAll;
    var rs, put, del := [b, c], Put(a), Delete(b.path, false);
    PutInFront(rs, a, [del]);
    PutInFront(rs, a, []);
    DeleteFirst(rs, []);
    NoMore(rs);
    NoMore([c]);
    assert [put, del] == [put] + [del] && [del] == [del] + [] && [put, del][..1] == [put] + [] && rs[1..] == [c];
    assert [a] + [] == [a];
  }

  /** A directory with two files. */
  predicate Directory(d: Rec, y: Rec, z: Rec, e: Rec) {
    && d.kind == DirDown && e.kind == DirUp && !IsDir(y) && !IsDir(z) && d.info == NoInfo
    && |d.path| == 1 && e.path == d.path && |y.path| == |z.path| == 2 && Parent(y.path) == Parent(z.path) == d.path
    && Before(KeyOf(y), KeyOf(z))
  }

  lemma {:induction false} DirectoryProper(d: Rec, y: Rec, z: Rec, e: Rec)
    requires Directory(d, y, z, e)
    ensures Proper([d, y, z, e]) && Before(KeyOf(d), KeyOf(y)) && Before(KeyOf(z), KeyOf(e))
  {
    BeginEnd(d.path);
    SubtreeBetween(d.path, KeyOf(y));
    SubtreeBetween(d.path, KeyOf(z));
    FourProper(d, y, z, e);
  }

  lemma {:induction false} FourProper(d: Rec, y: Rec, z: Rec, e: Rec)
    requires Directory(d, y, z, e) && Before(KeyOf(d), KeyOf(y)) && Before(KeyOf(z), KeyOf(e))
    ensures Proper([d, y, z, e])
  {
    hide Before;
    assert [d, y, z, e][1..] == [y, z, e] && [y, z, e][1..] == [z, e] && [z, e][1..] == [e] && [e][1..] == [];
    var at := d.path;
    assert Dir(d) == Dir(y) == Dir(z) == at && Dir(e) == [];
    assert Nested(at, [e]);
    assert Nested(at, [z, e]);
    assert Nested(at, [y, z, e]);
    assert SortedFrom(Some(KeyOf(z)), [e]);
    assert SortedFrom(Some(KeyOf(y)), [z, e]);
    assert SortedFrom(Some(KeyOf(d)), [y, z, e]);
  }

  /** A file is put in a new directory, and from the next directory its record and its
      first file are deleted. */
  predicate Mixes(a: Rec, d: Rec, y: Rec, z: Rec, e: Rec) {
    && Directory(d, y, z, e) && !IsDir(a) && |a.path| == 2 && Before(KeyOf(a), KeyOf(d)) && a.path[0] != d.path[0]
  }

  function MixedOps(a: Rec, d: Rec, y: Rec): seq<Op> {
    [Put(a), Delete(d.path, false), Delete(y.path, false)]
  }

  /** What is written then reads back without an error, though the second file of the
      directory and its end stand in the new directory. */
  lemma {:induction false} WrongDirectoryUnnoticed(a: Rec, d: Rec, y: Rec, z: Rec, e: Rec)
    requires Mixes(a, d, y, z, e)
    ensures var rs, ops := [d, y, z, e], MixedOps(a, d, y);
            var e := Ending(rs, ops, false);
            && Proper(rs) && Legal(rs, ops) && !EndsInStep(rs, ops)
            && e.New? && ReadAll(Opened(e.file)).1 == None && !Proper(e.file)
  {
    var rs, ops := [d, y, z, e], MixedOps(a, d, y);
    DirectoryProper(d, y, z, e);
    MixedLegal(a, d, y, z, e);
    MixedEnd(a, d, y, z, e);
    MixedFate(Dir(a), z, e);
    hide ReadAll, Ending, ApplyAll, Legal, Proper, Head, LeftByAll, TakesLast, Before, MixedOps, FateFrom;
    assert a.path[..1] != d.path by { assert a.path[..1][0] == a.path[0]; }
    BrokenExactly(rs, ops, false);
    SessionCorrect(rs, ops, false);
    BrokenReads(rs, ops, false);
  }

  lemma {:induction false} MixedFate(at: Path, z: Rec, e: Rec)
    requires |at| == 1 && !IsDir(z) && e.kind == DirUp && |e.path| == 1 && |z.path| == 2 && Parent(z.path) == e.path
    requires at != e.path
    ensures FateFrom(at, at, false, [z, e]) == Closes([])
  {
    UpTop(at, e.path);
    assert [z, e][1..] == [e] && Dir(z) == e.path && Dir(e) == [];
    BackInStep(at, [], []);
    MovesOne([], []);
    hide P.Moves;
    assert FateFrom(at, [], false, [e]) == Closes([]);
  }

  lemma {:induction false} UpTop(at: Path, to: Path)
    requires |at| == 1 && to != [] && at[0] != to[0]
    ensures P.Moves(at, to) == [P.Up(at)] + P.Moves([], to)
  {
    assert !(at <= to) && Parent(at) == [];
  }

  lemma {:induction false} MixedLegal(a: Rec, d: Rec, y: Rec, z: Rec, e: Rec)
    requires Mixes(a, d, y, z, e) && Before(KeyOf(d), KeyOf(y))
    ensures Legal([d, y, z, e], MixedOps(a, d, y))
  {
    BeforeTransitive(KeyOf(a), KeyOf(d), KeyOf(y));
    assert y.path[0] == Parent(y.path)[0] == d.path[0];
    hide Before;
    var ops := MixedOps(a, d, y);
    assert OpsNamed(ops) && Increasing(ops) && FilesAreLeaves(ops);
    assert !(y.path < a.path) && !(z.path < a.path);
  }

  lemma {:induction false} MixedEnd(a: Rec, d: Rec, y: Rec, z: Rec, e: Rec)
    requires Mixes(a, d, y, z, e)
    ensures var rs, ops := [d, y, z, e], MixedOps(a, d, y);
            TakesLast(rs, ops) && Head(rs, ops) == [a] && LeftByAll(rs, ops) == [z, e]
  {
    hide Takes, Before, Head, LeftByAll;
    var rs, put, dir, del := [d, y, z, e], Put(a), Delete(d.path, false), Delete(y.path, false);
    var ops, inside := [put, dir, del], [y, z, e];
    assert rs[1..] == inside && inside[1..] == [z, e];
    PutInFront(rs, a, [dir, del]);
    PutInFront(rs, a, [dir]);
    DeleteFirst(rs, [del]);
    DeleteFirst(rs, []);
    DeleteFirst(inside, []);
    NoMore(inside);
    NoMore([z, e]);
    assert ops == [put] + [dir, del] && [dir, del] == [dir] + [del] && [del] == [del] + [];
    assert ops[..2] == [put] + [dir] && [dir] == [dir] + [];
    assert [a] + [] == [a];
  }

  lemma {:induction false} DirectoryNests(d: Rec, y: Rec, z: Rec, e: Rec)
    requires Directory(d, y, z, e)
    ensures Nested(d.path, [y, z, e])
  {
    hide Before, SortedFrom;
    DirectoryProper(d, y, z, e);
    assert [d, y, z, e][1..] == [y, z, e];
  }

  lemma {:induction false} DirectoryStarts(d: Rec, y: Rec, z: Rec, e: Rec)
    requires Directory(d, y, z, e)
    ensures var rs, ops, rest := [d, y, z, e], [Delete(d.path, false)], [y, z, e];
            && Proper(rs) && Legal(rs, ops) && !EndsInStep(rs, ops) && Nested(d.path, rest)
            && LeftByAll(rs, ops) == rest && Head(rs, ops) == [] && LastDir([], []) == [] && rest[0].kind != DirUp
  {
    var rs, ops, rest := [d, y, z, e], [Delete(d.path, false)], [y, z, e];
    DirectoryProper(d, y, z, e);
    DirectoryNests(d, y, z, e);
    hide Before, Proper, Nested;
    assert rs[1..] == rest && ops == [Delete(d.path, false)] + [] && ops[..0] == [];
    DeleteFirst(rs, []);
    NoMore(rest);
    NoMore(rs);
    assert Legal(rs, ops);
  }

  /** Only the record of a directory is deleted, not what is in it: closing then is
      undefined. */
  lemma {:induction false} DirectoryRecordDeleted(d: Rec, y: Rec, z: Rec, e: Rec)
    requires Directory(d, y, z, e)
    ensures var rs, ops := [d, y, z, e], [Delete(d.path, false)];
            && Proper(rs) && Legal(rs, ops) && !EndsInStep(rs, ops) && Ending(rs, ops, false) == Wild
  {
    hide Ending, Legal, Proper, Head, LeftByAll, Takes, FateFrom, Nested, EndsInStep, LastDir, KeyOf, Before, Compare;
    var rs, ops, rest := [d, y, z, e], [Delete(d.path, false)], [y, z, e];
    DirectoryStarts(d, y, z, e);
    FateBelow([], d.path, rest);
    BrokenExactly(rs, ops, false);
  }

  /** A directory in a directory, with two files. */
  predicate Deeper(b: Rec, q: Rec, y: Rec, z: Rec, u: Rec, v: Rec) {
    && b.kind == q.kind == DirDown && u.kind == v.kind == DirUp && !IsDir(y) && !IsDir(z) && b.info == q.info == NoInfo
    && |b.path| == 1 && |q.path| == 2 && Parent(q.path) == b.path && u.path == q.path && v.path == b.path
    && |y.path| == |z.path| == 3 && Parent(y.path) == Parent(z.path) == q.path && Before(KeyOf(y), KeyOf(z))
  }

  /** A file is put two new directories deep, and from the next directory its record,
      that of a directory in it and of the first file there are deleted. */
  predicate Loses(a: Rec, b: Rec, q: Rec, y: Rec, z: Rec, u: Rec, v: Rec) {
    Deeper(b, q, y, z, u, v) && !IsDir(a) && |a.path| == 3 && a.path[0] != b.path[0] && Before(KeyOf(a), KeyOf(b))
  }

  function LosingOps(a: Rec, b: Rec, q: Rec, y: Rec): seq<Op> {
    [Put(a), Delete(b.path, false), Delete(q.path, false), Delete(y.path, false)]
  }

  /** The end of the inner directory is then printed with a name that is cut, the reader
      finds the end of the outer one out of order, and all updates are lost. */
  lemma {:induction false} UpdatesLost(a: Rec, b: Rec, q: Rec, y: Rec, z: Rec, u: Rec, v: Rec)
    requires Loses(a, b, q, y, z, u, v)
    ensures var rs, ops := [b, q, y, z, u, v], LosingOps(a, b, q, y);
            && Proper(rs) && Legal(rs, ops) && !EndsInStep(rs, ops) && Ending(rs, ops, false) == Kept(false)
  {
    var rs, ops := [b, q, y, z, u, v], LosingOps(a, b, q, y);
    DeeperProper(b, q, y, z, u, v);
    LosingLegal(a, b, q, y, z, u, v);
    LosingEnd(a, b, q, y, z, u, v);
    LosingFate(a, q, z, u, v);
    hide Ending, Legal, Proper, Head, LeftByAll, TakesLast, Before, LosingOps, FateFrom;
    assert !EndsInStep(rs, ops) by { assert Dir(a)[0] == a.path[0]; assert Parent(z.path)[0] == b.path[0]; }
    BrokenExactly(rs, ops, false);
  }

  lemma {:induction false} LosingFate(a: Rec, q: Rec, z: Rec, u: Rec, v: Rec)
    requires !IsDir(a) && |a.path| == 3 && |q.path| == 2 && a.path[0] != q.path[0]
    requires !IsDir(z) && |z.path| == 3 && Parent(z.path) == q.path && u.kind == DirUp && u.path == q.path
    ensures FateFrom(Dir(a), Dir(a), false, [z, u, v]) == Refused
  {
    var at, to := Dir(a), q.path[..1];
    assert at[0] == a.path[0] && Dir(z) == q.path && Dir(u) == to && to[0] == q.path[0];
    assert [z, u, v][1..] == [u, v];
    assert Parent(at) == at[..1];
    assert P.Moves(at, q.path) == [P.Up(at)] + P.Moves(at[..1], q.path) by { assert !(at <= q.path); }
    UpTop(at[..1], to);
    MovesOne([], to);
    hide P.Moves;
    assert P.Moves(at[..1], to) == [P.Up(at[..1]), P.Down(to)];
    assert FateFrom(at, at[..1], false, [u, v]) == Refused;
  }

  lemma {:induction false} DeeperProper(b: Rec, q: Rec, y: Rec, z: Rec, u: Rec, v: Rec)
    requires Deeper(b, q, y, z, u, v)
    ensures Proper([b, q, y, z, u, v])
    ensures Before(KeyOf(b), KeyOf(q)) && Before(KeyOf(q), KeyOf(y))
  {
    BeginEnd(b.path);
    BeginEnd(q.path);
    SubtreeBetween(b.path, KeyOf(q));
    SubtreeBetween(b.path, KeyOf(u));
    SubtreeBetween(q.path, KeyOf(y));
    SubtreeBetween(q.path, KeyOf(z));
    SixProper(b, q, y, z, u, v);
  }

  lemma {:induction false} SixProper(b: Rec, q: Rec, y: Rec, z: Rec, u: Rec, v: Rec)
    requires Deeper(b, q, y, z, u, v) && Before(KeyOf(b), KeyOf(q)) && Before(KeyOf(q), KeyOf(y))
    requires Before(KeyOf(z), KeyOf(u)) && Before(KeyOf(u), KeyOf(v))
    ensures Proper([b, q, y, z, u, v])
  {
    hide Before;
    assert Dir(b) == Dir(u) == b.path && Dir(q) == Dir(y) == Dir(z) == q.path && Dir(v) == [];
    assert [v][1..] == [] && [u, v][1..] == [v] && [z, u, v][1..] == [u, v] && [y, z, u, v][1..] == [z, u, v];
    assert [q, y, z, u, v][1..] == [y, z, u, v] && [b, q, y, z, u, v][1..] == [q, y, z, u, v];
    assert Nested(b.path, [v]);
    assert Nested(q.path, [u, v]);
    assert Nested(q.path, [z, u, v]);
    assert Nested(q.path, [y, z, u, v]);
    assert Nested(b.path, [q, y, z, u, v]);
    assert SortedFrom(Some(KeyOf(u)), [v]);
    assert SortedFrom(Some(KeyOf(z)), [u, v]);
    assert SortedFrom(Some(KeyOf(y)), [z, u, v]);
    assert SortedFrom(Some(KeyOf(q)), [y, z, u, v]);
    assert SortedFrom(Some(KeyOf(b)), [q, y, z, u, v]);
  }

  lemma {:induction false} LosingLegal(a: Rec, b: Rec, q: Rec, y: Rec, z: Rec, u: Rec, v: Rec)
    requires Loses(a, b, q, y, z, u, v) && Before(KeyOf(b), KeyOf(q)) && Before(KeyOf(q), KeyOf(y))
    ensures Legal([b, q, y, z, u, v], LosingOps(a, b, q, y))
  {
    var ops := LosingOps(a, b, q, y);
    BeforeTransitive(KeyOf(a), KeyOf(b), KeyOf(q));
    BeforeTransitive(KeyOf(a), KeyOf(q), KeyOf(y));
    BeforeTransitive(KeyOf(b), KeyOf(q), KeyOf(y));
    FirstNames(b, q, y, z);
    hide Before;
    assert OpsNamed(ops) && Increasing(ops) && FilesAreLeaves(ops);
    assert !(y.path < a.path) && !(z.path < a.path);
  }

  lemma FirstNames(b: Rec, q: Rec, y: Rec, z: Rec)
    requires |b.path| == 1 && |q.path| == 2 && Parent(q.path) == b.path
    requires |y.path| == |z.path| == 3 && Parent(y.path) == Parent(z.path) == q.path
    ensures b.path[0] == q.path[0] == y.path[0] == z.path[0]
  {
    assert Parent(q.path)[0] == q.path[0] && Parent(y.path)[0] == y.path[0] && Parent(z.path)[0] == z.path[0];
  }

  lemma {:induction false} LosingEnd(a: Rec, b: Rec, q: Rec, y: Rec, z: Rec, u: Rec, v: Rec)
    requires Loses(a, b, q, y, z, u, v)
    ensures var rs, ops := [b, q, y, z, u, v], LosingOps(a, b, q, y);
            TakesLast(rs, ops) && Head(rs, ops) == [a] && LeftByAll(rs, ops) == [z, u, v]
  {
    hide Takes, Before, Head, LeftByAll;
    var rs, put, del1, del2, del3 :=
      [b, q, y, z, u, v], Put(a), Delete(b.path, false), Delete(q.path, false), Delete(y.path, false);
    var rs1, rs2, rs3 := [q, y, z, u, v], [y, z, u, v], [z, u, v];
    assert rs[1..] == rs1 && rs1[1..] == rs2 && rs2[1..] == rs3;
    PutInFront(rs, a, [del1, del2, del3]);
    PutInFront(rs, a, [del1, del2]);
    DeleteFirst(rs, [del2, del3]);
    DeleteFirst(rs, [del2]);
    DeleteFirst(rs1, [del3]);
    DeleteFirst(rs1, []);
    DeleteFirst(rs2, []);
    NoMore(rs2);
    NoMore(rs3);
    assert LosingOps(a, b, q, y) == [put] + [del1, del2, del3] && [del1, del2, del3] == [del1] + [del2, del3];
    assert [del2, del3] == [del2] + [del3] && [del3] == [del3] + [] && [del2] == [del2] + [];
    assert LosingOps(a, b, q, y)[..3] == [put] + [del1, del2] && [del1, del2] == [del1] + [del2];
    assert [a] + [] == [a];
  }

  /** There are such sessions. */
  lemma {:induction false} SuchSessions()
    ensures exists a, b, c :: OpensDirectory(a, b, c)
    ensures exists a, d, y, z, e :: Mixes(a, d, y, z, e)
    ensures exists d, y, z, e :: Directory(d, y, z, e)
    ensures exists a, b, q, y, z, u, v :: Loses(a, b, q, y, z, u, v)
  {
    assert Compare("a", "b") < 0 && Compare("b", "c") < 0 && Compare("y", "z") < 0;
    var a, b, c := Rec(CheckoutLive, ["a", "x"], NoInfo), Rec(CheckoutLive, ["b"], NoInfo),
        Rec(CheckoutLive, ["c"], NoInfo);
    assert OpensDirectory(a, b, c);
    var d, e := Rec(DirDown, ["b"], NoInfo), Rec(DirUp, ["b"], Bogus);
    var y, z := Rec(CheckoutLive, ["b", "y"], NoInfo), Rec(CheckoutLive, ["b", "z"], NoInfo);
    assert Mixes(a, d, y, z, e);
    DeepSession(d, e);
  }

  lemma {:induction false} DeepSession(d: Rec, e: Rec)
    requires d == Rec(DirDown, ["b"], NoInfo) && e == Rec(DirUp, ["b"], Bogus)
    ensures exists a, b, q, y, z, u, v :: Loses(a, b, q, y, z, u, v)
  {
    assert Compare("a", "b") < 0 && Compare("y", "z") < 0;
    var a := Rec(CheckoutLive, ["a", "p", "x"], NoInfo);
    var q, u := Rec(DirDown, ["b", "q"], NoInfo), Rec(DirUp, ["b", "q"], Bogus);
    var y, z := Rec(CheckoutLive, ["b", "q", "y"], NoInfo), Rec(CheckoutLive, ["b", "q", "z"], NoInfo);
    var ky, kz := KeyOf(y), KeyOf(z);
    assert Before(Below(Below(ky)), Below(Below(kz)));
    assert Before(Below(ky), Below(kz));
    assert Loses(a, d, q, y, z, u, e);
  }
}
