/** When a session of updates leaves the status file as it should be: the directory
    compressor has to be in step when the rest of the old file is copied. */
module StatusEnd {
  import opened Lines
  import opened Paths
  import opened PathOrder
  import opened StatusList
  import opened StatusSorted
  import opened StatusRead
  import opened StatusMerge
  import opened StatusSession
  import opened StatusSpec
  import opened StatusTail
  import P = PathComp

  // ------------------------------------------------------- the end of a session

  /** What has been written when the last update is done, the rest not yet copied. */
  function Head(rem: seq<Rec>, ops: seq<Op>): seq<Rec>
    decreases |ops|
  {
    if ops == [] then []
    else rem[..CountBefore(rem, OpKey(ops[0]))] + Puts(ops[0]) + Head(LeftBy(rem, ops[0]), ops[1..])
  }

  /** The directory of the last record written. */
  function LastDir(at: Path, m: seq<Rec>): Path {
    if m == [] then at else Dir(m[|m| - 1])
  }

  /** An update takes away the record it finds, and nothing more. */
  predicate Takes(rem: seq<Rec>, op: Op) {
    var rest := rem[CountBefore(rem, OpKey(op))..];
    Found(rest, OpKey(op)) && (op.Put? ==> rest[0].kind != DirDown)
  }

  /** The last update takes away a record. */
  predicate TakesLast(rs: seq<Rec>, ops: seq<Op>) {
    ops != [] && Takes(LeftByAll(rs, ops[..|ops| - 1]), ops[|ops| - 1])
  }

  /** The session does not end by taking away a record, or nothing comes behind that
      record, or what comes behind it is in the directory of the last record written. */
  predicate EndsInStep(rs: seq<Rec>, ops: seq<Op>) {
    var rest := LeftByAll(rs, ops);
    TakesLast(rs, ops) && rest != [] ==> InStep(LastDir([], Head(rs, ops)), rest[0])
  }

  // ------------------------------------------------------ where the session stands

  lemma {:induction false} LastDirPlus(at: Path, a: seq<Rec>, b: seq<Rec>)
    ensures LastDir(LastDir(at, a), b) == LastDir(at, a + b)
  {
  }

  lemma {:induction false} MergedHead(rem: seq<Rec>, ops: seq<Op>)
    ensures Merged(rem, ops) == Head(rem, ops) + LeftByAll(rem, ops)
    decreases |ops|
  {
    if ops == [] {
      assert [] + rem == rem;
    } else {
      assert ops == [ops[0]] + ops[1..];
      MergedCons(rem, ops[0], ops[1..]);
      MergedHead(LeftBy(rem, ops[0]), ops[1..]);
    }
    hide Merged, CountBefore, LeftBy;
  }

  lemma {:induction false} PutAt(s: Session, rem: seq<Rec>, r: Rec)
    requires Good(s, rem) && r.path != []
    ensures PutRec(s, r).at == Dir(r)
  {
    var n := CountBefore(rem, KeyOf(r));
    GetGood(s, rem, KeyOf(r), true, []);
    MakeWayGood(Get(s, KeyOf(r), true).s, rem[n..], r, []);
    hide Good, Get, Compress, CountBefore, MakeWay, Emit, Taken;
  }

  lemma {:induction false} DeleteAt(s: Session, rem: seq<Rec>, k: Key)
    requires Good(s, rem) && k.path != []
    ensures DeleteRec(s, k).at == LastDir(s.at, rem[..CountBefore(rem, k)])
  {
    hide Get, CountBefore, Good;
    GetAt(s, rem, k);
  }

  lemma {:induction false} ApplyAt(s: Session, rem: seq<Rec>, op: Op)
    requires Good(s, rem) && OpKey(op).path != []
    ensures Apply(s, op).at == LastDir(s.at, rem[..CountBefore(rem, OpKey(op))] + Puts(op))
  {
    hide Good, PutRec, DeleteRec, CountBefore;
    var before := rem[..CountBefore(rem, OpKey(op))];
    match op
    case Put(r) =>
      PutAt(s, rem, r);
    case Delete(p, up) =>
      DeleteAt(s, rem, Key(p, up));
      assert before + [] == before;
  }

  lemma {:induction false} OneMore(s: Session, rem: seq<Rec>, ops: seq<Op>)
    requires ops != []
    ensures ApplyAll(s, ops) == ApplyAll(Apply(s, ops[0]), ops[1..])
    ensures LeftByAll(rem, ops) == LeftByAll(LeftBy(rem, ops[0]), ops[1..])
    ensures Head(rem, ops) == rem[..CountBefore(rem, OpKey(ops[0]))] + Puts(ops[0]) +
            Head(LeftBy(rem, ops[0]), ops[1..])
  {
    hide Apply, LeftBy, CountBefore;
  }

  /** Where the compressor is, and what has been written so far. */
  lemma {:induction false} SoFar(s: Session, rem: seq<Rec>, ops: seq<Op>, m: seq<Rec>)
    requires Good(s, rem) && OpsNamed(ops)
    ensures var s2 := ApplyAll(s, ops);
            && Good(s2, LeftByAll(rem, ops)) && s2.at == LastDir(s.at, Head(rem, ops))
            && Total(s2, m) == Total(s, Head(rem, ops) + m)
    decreases |ops|
  {
    hide Good, Apply, Total, LeftBy, CountBefore, OpKey, Puts, Head, ApplyAll, LeftByAll, LastDir;
    if ops == [] {
      SoFarNone(s, rem, m);
    } else {
      NamedParts(ops);
      OneMore(s, rem, ops);
      SoFarStep(s, rem, ops[0], Head(LeftBy(rem, ops[0]), ops[1..]), m);
      SoFar(Apply(s, ops[0]), LeftBy(rem, ops[0]), ops[1..], m);
    }
  }

  lemma {:induction false} NamedParts(ops: seq<Op>)
    requires OpsNamed(ops) && ops != []
    ensures OpKey(ops[0]).path != [] && OpsNamed(ops[1..])
    ensures OpKey(ops[|ops| - 1]).path != [] && OpsNamed(ops[..|ops| - 1])
  {
  }

  lemma {:induction false} SoFarNone(s: Session, rem: seq<Rec>, m: seq<Rec>)
    ensures ApplyAll(s, []) == s && LeftByAll(rem, []) == rem && s.at == LastDir(s.at, Head(rem, []))
    ensures Total(s, m) == Total(s, Head(rem, []) + m)
  {
    assert [] + m == m;
  }

  lemma {:induction false} SoFarStep(s: Session, rem: seq<Rec>, op: Op, last: seq<Rec>, m: seq<Rec>)
    requires Good(s, rem) && OpKey(op).path != []
    ensures var first := rem[..CountBefore(rem, OpKey(op))] + Puts(op);
            var s1 := Apply(s, op);
            && Good(s1, LeftBy(rem, op)) && LastDir(s1.at, last) == LastDir(s.at, first + last)
            && Total(s1, last + m) == Total(s, first + last + m)
  {
    hide Good, Apply, Total, LeftBy, CountBefore, OpKey, Puts;
    var first := rem[..CountBefore(rem, OpKey(op))] + Puts(op);
    ApplyGood(s, rem, op, last + m);
    ApplyAt(s, rem, op);
    LastDirPlus(s.at, first, last);
    assert first + (last + m) == first + last + m;
  }

  /** After looking for a key the first of what is left has been read. */
  lemma {:induction false} GetReads(s: Session, rem: seq<Rec>, k: Key, keep: bool)
    requires Good(s, rem) && k.path != []
    ensures var rest, g := rem[CountBefore(rem, k)..], Get(s, k, keep);
            && g.got == GotAt(rest, k) && Good(g.s, rest) && ReadAhead(g.s, rest)
            && (rest != [] ==> g.s.input.prev == Some(rest[0]))
  {
    GetGood(s, rem, k, keep, []);
    hide Get, CountBefore, GoodInput, GotAt;
  }

  /** What a step leaves: if it took a record away nothing is read ahead, else the
      first of what is left is. */
  predicate StepLeaves(s2: Session, rem: seq<Rec>, op: Op) {
    if Takes(rem, op) then
      s2.dirty && s2.current == None && s2.input.prev == Some(rem[CountBefore(rem, OpKey(op))])
    else ReadAhead(s2, LeftBy(rem, op))
  }

  lemma {:induction false} PutLeaves(s: Session, rem: seq<Rec>, r: Rec)
    requires Good(s, rem) && r.path != []
    ensures StepLeaves(PutRec(s, r), rem, Put(r))
  {
    hide Get, CountBefore, Good, Emit;
    var n, k := CountBefore(rem, KeyOf(r)), KeyOf(r);
    var rest, g := rem[n..], Get(s, k, true);
    GetReads(s, rem, k, true);
    MakeWayGood(g.s, rest, r, []);
    if Found(rest, k) && rest[0].kind == DirDown && IsCheckout(r) {
      GetReads(g.s, rest, Key(r.path, true), false);
    } else {
      assert rest[0..] == rest;
    }
  }

  lemma {:induction false} DeleteLeaves(s: Session, rem: seq<Rec>, p: Path, up: bool)
    requires Good(s, rem) && p != []
    ensures StepLeaves(DeleteRec(s, Key(p, up)), rem, Delete(p, up))
  {
    hide Get, CountBefore, Good;
    var n, k := CountBefore(rem, Key(p, up)), Key(p, up);
    GetReads(s, rem, k, true);
    assert rem[n..][0..] == rem[n..];
  }

  lemma {:induction false} LastStep(s: Session, rem: seq<Rec>, op: Op)
    requires Good(s, rem) && OpKey(op).path != []
    ensures StepLeaves(Apply(s, op), rem, op)
  {
    hide StepLeaves, Good, PutRec, DeleteRec;
    match op
    case Put(r) => PutLeaves(s, rem, r);
    case Delete(p, up) => DeleteLeaves(s, rem, p, up);
  }

  lemma {:induction false} ApplyAllLast(s: Session, ops: seq<Op>, op: Op)
    ensures ApplyAll(s, ops + [op]) == Apply(ApplyAll(s, ops), op)
    decreases |ops|
  {
    if ops == [] {
      assert [] + [op] == [op] && [op][1..] == [];
    } else {
      assert (ops + [op])[1..] == ops[1..] + [op];
      ApplyAllLast(Apply(s, ops[0]), ops[1..], op);
    }
    hide Apply;
  }

  lemma {:induction false} LeftByAllLast(rem: seq<Rec>, ops: seq<Op>, op: Op)
    ensures LeftByAll(rem, ops + [op]) == LeftBy(LeftByAll(rem, ops), op)
    decreases |ops|
  {
    if ops == [] {
      assert [] + [op] == [op] && [op][1..] == [];
    } else {
      assert (ops + [op])[1..] == ops[1..] + [op];
      LeftByAllLast(LeftBy(rem, ops[0]), ops[1..], op);
    }
    hide LeftBy;
  }

  /** A record follows as it is in one directory only. */
  lemma {:induction false} StepAt(at: Path, xs: seq<Rec>, i: Input)
    requires GoodInput(i, xs)
    ensures i.lines == [] <==> xs == []
    ensures xs != [] ==> (InStep(at, xs[0]) <==> at == NestAt(i))
  {
  }

  /** The compressor is in step at the end exactly when the session ends in step. */
  lemma {:induction false} SyncedExactly(rs: seq<Rec>, ops: seq<Op>, dirty: bool)
    requires Proper(rs) && OpsNamed(ops)
    ensures Synced(ApplyAll(Open(rs, dirty), ops)) <==> EndsInStep(rs, ops)
    ensures !EndsInStep(rs, ops) ==> ApplyAll(Open(rs, dirty), ops).dirty
  {
    hide Good, ApplyAll, LeftByAll, Head, Open, Takes, Synced, Proper, LeftBy, Apply;
    var s0 := Open(rs, dirty);
    OpenGood(rs, dirty);
    OpenSynced(rs, dirty);
    if ops != [] {
      var pre, op := ops[..|ops| - 1], ops[|ops| - 1];
      NamedParts(ops);
      assert ops == pre + [op];
      SoFar(s0, rs, pre, []);
      SoFar(s0, rs, ops, []);
      ApplyAllLast(s0, pre, op);
      LeftByAllLast(rs, pre, op);
      StepSynced(ApplyAll(s0, pre), LeftByAll(rs, pre), op, LastDir([], Head(rs, ops)));
    }
  }

  lemma {:induction false} OpenGood(rs: seq<Rec>, dirty: bool)
    requires Proper(rs)
    ensures Good(Open(rs, dirty), rs)
  {
  }

  lemma {:induction false} OpenSynced(rs: seq<Rec>, dirty: bool)
    ensures var s := Open(rs, dirty);
            ApplyAll(s, []) == s && s.at == [] && s.out == [] && Synced(s)
  {
  }

  lemma {:induction false} StepSynced(s: Session, rem: seq<Rec>, op: Op, at: Path)
    requires Good(s, rem) && OpKey(op).path != []
    requires Good(Apply(s, op), LeftBy(rem, op)) && Apply(s, op).at == at
    ensures var s2, rest := Apply(s, op), LeftBy(rem, op);
            && (Synced(s2) <==> (Takes(rem, op) && rest != [] ==> InStep(at, rest[0])))
            && (Takes(rem, op) ==> s2.dirty)
            && (Takes(rem, op) && !Synced(s2) ==> s2.current == None)
  {
    LastStep(s, rem, op);
    var s2, rest := Apply(s, op), LeftBy(rem, op);
    if s2.current == None {
      StepAt(s2.at, rest, s2.input);
    }
    hide Apply, LeftBy, GoodInput, InStep, Takes, NestAt;
  }

  // -------------------------------------------------------------- what is written

  /** The directories entered and left on the way lead from one directory to another. */
  predicate Leads(from: Path, rs: seq<Rec>, to: Path)
    decreases |rs|
  {
    if rs == [] then from == to else InStep(from, rs[0]) && Leads(Dir(rs[0]), rs[1..], to)
  }

  lemma {:induction false} NestedSplits(from: Path, a: seq<Rec>, b: seq<Rec>) returns (mid: Path)
    requires Nested(from, a + b)
    ensures Leads(from, a, mid) && Nested(mid, b)
    decreases |a|
  {
    if a == [] {
      assert a + b == b;
      mid := from;
    } else {
      assert (a + b)[1..] == a[1..] + b;
      mid := NestedSplits(Dir(a[0]), a[1..], b);
    }
  }

  lemma {:induction false} LeadsOnce(from: Path, a: seq<Rec>, to: Path, to2: Path)
    requires Leads(from, a, to) && Leads(from, a, to2)
    ensures to == to2
    decreases |a|
  {
    if a != [] {
      LeadsOnce(Dir(a[0]), a[1..], to, to2);
    }
  }

  lemma {:induction false} LeadsDepth(from: Path, a: seq<Rec>, to: Path)
    requires Leads(from, a, to)
    ensures |from| + Depth(a) == |to|
    decreases |a|
  {
    if a != [] {
      LeadsDepth(Dir(a[0]), a[1..], to);
    }
  }

  lemma {:induction false} HeadNamed(rem: seq<Rec>, ops: seq<Op>)
    requires AllNamed(rem) && OpsNamed(ops)
    ensures AllNamed(Head(rem, ops)) && AllNamed(LeftByAll(rem, ops))
    decreases |ops|
  {
    if ops != [] {
      assert OpKey(ops[0]).path != [];
      assert OpsNamed(ops[1..]);
      assert AllNamed(LeftBy(rem, ops[0]));
      HeadNamed(LeftBy(rem, ops[0]), ops[1..]);
    }
  }

  lemma {:induction false} ClosingFirst(at: Path, mid: Path)
    requires Nested(mid, Compress(at, []))
    ensures mid == at
  {
    TravelCons(at, [], Bogus);
    MovesNone(at);
  }

  lemma {:induction false} MovesNone(at: Path)
    ensures at == [] ==> Travel(at, [], Bogus) == []
  {
    MovesOne(at, []);
  }

  /** At any time what has been written leads into the compressor's directory; so many
      directories are open. */
  lemma {:induction false} WrittenLeads(rs: seq<Rec>, ops: seq<Op>, dirty: bool)
    requires Proper(rs) && OpsNamed(ops)
    ensures var s := ApplyAll(Open(rs, dirty), ops);
            Leads([], s.out, s.at) && Depth(s.out) == |s.at|
  {
    var s0 := Open(rs, dirty);
    var s := ApplyAll(s0, ops);
    OpenGood(rs, dirty);
    SoFar(s0, rs, ops, []);
    ProperNamed(rs);
    HeadNamed(rs, ops);
    assert Head(rs, ops) + [] == Head(rs, ops);
    CompressIsNested([], Head(rs, ops));
    assert s0.out + Compress([], Head(rs, ops)) == Compress([], Head(rs, ops));
    var mid := NestedSplits([], s.out, Compress(s.at, []));
    hide Good, ApplyAll, Nested, Head, Compress;
    ClosingFirst(s.at, mid);
    LeadsDepth([], s.out, s.at);
  }

  lemma {:induction false} ProperNamed(rs: seq<Rec>)
    requires Proper(rs)
    ensures AllNamed(rs)
  {
    forall i | 0 <= i < |rs| ensures rs[i].path != [] {
      NestedNamed([], rs, i);
    }
  }

  // ------------------------------------------------------- what closing leaves behind

  /** What is left behind the record that has been read ahead. */
  function Uncaught(s: Session, rem: seq<Rec>): seq<Rec> {
    if s.current.Some? && rem != [] then rem[1..] else rem
  }

  /** What becomes of the status file `rs` after a session of updates. */
  function Ending(rs: seq<Rec>, ops: seq<Op>, dirty: bool): Outcome {
    var s := ApplyAll(Open(rs, dirty), ops);
    if s.dirty then LeftAs(Caught(s), Uncaught(s, LeftByAll(rs, ops))) else Kept(true)
  }

  lemma {:induction false} CaughtGood(s: Session, rem: seq<Rec>)
    requires Good(s, rem)
    ensures var s1, rest := Caught(s), Uncaught(s, rem);
            && Good(s1, rest) && s1.current == None && Total(s1, rest) == Total(s, rem)
            && (s.current.Some? ==> s1.at == NestAt(s1.input))
  {
    if s.current.Some? {
      var r := s.current.value;
      TakeCurrent(s, rem);
      GoodStays(s.(current := None), Caught(s), rem[1..]);
      WriteReaches(s, r, rem[1..]);
      assert rem == [r] + rem[1..];
    }
    hide Good, Compress, Emit;
  }

  /** In step the rest of what is to be written is written. */
  lemma {:induction false} EndedInStep(s: Session, rem: seq<Rec>)
    requires Good(s, rem) && s.current == None && (rem == [] || s.at == NestAt(s.input))
    ensures LeftAs(s, rem) == New(Total(s, rem))
  {
    if rem == [] {
      assert s.out + [] == s.out;
    } else {
      assert InStep(s.at, rem[0]);
      FateInStep(s.at, rem);
      CompressNested(s.at, rem);
      UpsTravel([]);
      hide FateFrom, Compress, InStep;
      assert s.out + rem + [] == s.out + rem;
    }
  }

  /** If the session ends in step, the status file afterwards is the ordered merge,
      passed through the compressor. */
  lemma {:induction false} SessionWrites(rs: seq<Rec>, ops: seq<Op>, dirty: bool)
    requires Proper(rs) && OpsNamed(ops) && EndsInStep(rs, ops)
    ensures var e, m := Ending(rs, ops, dirty), Compress([], Merged(rs, ops));
            e == New(m) || (e == Kept(true) && rs == m)
  {
    var s0 := Open(rs, dirty);
    var s, rem := ApplyAll(s0, ops), LeftByAll(rs, ops);
    OpenGood(rs, dirty);
    ApplyAllGood(s0, rs, ops);
    SyncedExactly(rs, ops, dirty);
    assert Total(s0, Merged(rs, ops)) == Compress([], Merged(rs, ops));
    if s.dirty {
      CaughtGood(s, rem);
      SyncedThere(s, rem);
      EndedInStep(Caught(s), Uncaught(s, rem));
    } else {
      CleanSession(s0, rs, ops);
      CompressNested([], rs);
    }
    hide Good, LeftAs, Compress, Merged, ApplyAll, LeftByAll, Caught, Uncaught, EndsInStep;
  }

  lemma {:induction false} SyncedThere(s: Session, rem: seq<Rec>)
    requires Good(s, rem) && s.dirty && Synced(s)
    ensures var s1, rest := Caught(s), Uncaught(s, rem); rest == [] || s1.at == NestAt(s1.input)
  {
    if s.current == None {
      StepAt(s.at, rem, s.input);
    }
    hide GoodInput;
  }

  lemma {:induction false} OutOfStep(rs: seq<Rec>, ops: seq<Op>, dirty: bool)
    requires Proper(rs) && OpsNamed(ops) && !EndsInStep(rs, ops)
    ensures var s := ApplyAll(Open(rs, dirty), ops);
            var rem := LeftByAll(rs, ops);
            && Good(s, rem) && rem != [] && s.current == None && s.at != NestAt(s.input) && s.dirty
            && s.at == LastDir([], Head(rs, ops)) && InStep(NestAt(s.input), rem[0])
            && Ending(rs, ops, dirty) == LeftAs(s, rem) && Nested(NestAt(s.input), rem)
  {
    var s0 := Open(rs, dirty);
    OpenGood(rs, dirty);
    SoFar(s0, rs, ops, []);
    SyncedExactly(rs, ops, dirty);
    hide ApplyAll, LeftByAll, Head, LeftAs, Compress, EndsInStep;
  }

  lemma {:induction false} NestedFrom(at: Path, nest: Path, xs: seq<Rec>)
    requires xs != [] && InStep(at, xs[0]) && InStep(nest, xs[0])
    ensures at == nest
  {
  }

  lemma {:induction false} BrokenNest(out: seq<Rec>, at: Path, nest: Path, rem: seq<Rec>)
    requires Leads([], out, at) && rem != [] && InStep(nest, rem[0]) && at != nest
    ensures !Nested([], out + rem)
  {
    if Nested([], out + rem) {
      var mid := NestedSplits([], out, rem);
      LeadsOnce([], out, mid, at);
      NestedFrom(mid, nest, rem);
    }
  }

  /** All file records of the merge are in the new file, in step or not. */
  lemma {:induction false} FilesAnyway(rs: seq<Rec>, ops: seq<Op>, dirty: bool)
    requires Proper(rs) && OpsNamed(ops) && Ending(rs, ops, dirty).New?
    ensures Files(Ending(rs, ops, dirty).file) == Files(Merged(rs, ops))
  {
    var s0 := Open(rs, dirty);
    var s, rem := ApplyAll(s0, ops), LeftByAll(rs, ops);
    if EndsInStep(rs, ops) {
      SessionWrites(rs, ops, dirty);
      FilesKept([], Merged(rs, ops));
    } else {
      OpenGood(rs, dirty);
      OutOfStep(rs, ops, dirty);
      SoFar(s0, rs, ops, rem);
      MergedHead(rs, ops);
      assert s0.out + Compress([], Merged(rs, ops)) == Compress([], Merged(rs, ops));
      FilesKept([], Merged(rs, ops));
      FilesPlus(s.out, Compress(s.at, rem));
      FilesKept(s.at, rem);
      FilesEnded(s, rem);
    }
    hide Good, ApplyAll, LeftByAll, Head, Compress, EndsInStep, Merged, LeftAs, Files;
  }

  lemma {:induction false} FilesEnded(s: Session, rem: seq<Rec>)
    requires LeftAs(s, rem).New?
    ensures Files(LeftAs(s, rem).file) == Files(s.out) + Files(rem)
  {
    var at := FateFrom(s.at, s.at, false, rem).at;
    RenderDirs(P.Moves(at, []), Bogus);
    FilesPlus(s.out, rem);
    FilesPlus(s.out + rem, Travel(at, [], Bogus));
    hide Files, FateFrom;
    assert Files(s.out) + Files(rem) + [] == Files(s.out) + Files(rem);
  }

  lemma {:induction false} BrokenEnded(s: Session, rem: seq<Rec>, nest: Path)
    requires Leads([], s.out, s.at) && rem != [] && InStep(nest, rem[0]) && s.at != nest && LeftAs(s, rem).New?
    ensures !Proper(LeftAs(s, rem).file)
  {
    var ups := Travel(FateFrom(s.at, s.at, false, rem).at, [], Bogus);
    hide FateFrom, Leads, InStep;
    assert (rem + ups)[0] == rem[0] && s.out + rem + ups == s.out + (rem + ups);
    BrokenNest(s.out, s.at, nest, rem + ups);
  }

  /** The status file after a session: a proper listing that reads back without error
      and records at every path exactly the file that is expected there. */
  ghost predicate Right(e: Outcome, rs: seq<Rec>, ops: seq<Op>) {
    var file := if e.New? then e.file else rs;
    && (e.New? || e == Kept(true)) && Proper(file) && ReadAll(Opened(file)) == (file, None)
    && forall p: Path :: FileAt(file, p) == Expected(rs, ops, p)
  }

  /** The status file after a legal session is right if and only if the session ends in
      step; then it is the ordered merge.  Otherwise closing does something undefined, or
      fails and keeps the old file, or leaves a file that is no proper listing, though it
      records the right file at every path. */
  lemma {:induction false} SessionCorrect(rs: seq<Rec>, ops: seq<Op>, dirty: bool)
    requires Proper(rs) && Legal(rs, ops)
    ensures var e := Ending(rs, ops, dirty);
            && (Right(e, rs, ops) <==> EndsInStep(rs, ops))
            && (EndsInStep(rs, ops) ==> (if e.New? then e.file else rs) == Compress([], Merged(rs, ops)))
            && (!EndsInStep(rs, ops) ==> e == Wild || e == Kept(false) || (e.New? && !Proper(e.file)))
            && (e.New? ==> forall p: Path :: FileAt(e.file, p) == Expected(rs, ops, p))
  {
    var e, m := Ending(rs, ops, dirty), Compress([], Merged(rs, ops));
    FilesKept([], Merged(rs, ops));
    forall p: Path
      ensures FileAt(m, p) == Expected(rs, ops, p) && (e.New? ==> FileAt(e.file, p) == Expected(rs, ops, p))
    {
      UpdatesExact(rs, ops, p);
      if e.New? {
        FilesAnyway(rs, ops, dirty);
        FileAtFiles(e.file, p);
        FileAtFiles(m, p);
      }
    }
    if EndsInStep(rs, ops) {
      SessionWrites(rs, ops, dirty);
      SessionProper(rs, ops);
    } else {
      var s := ApplyAll(Open(rs, dirty), ops);
      OutOfStep(rs, ops, dirty);
      WrittenLeads(rs, ops, dirty);
      if e.New? { BrokenEnded(s, LeftByAll(rs, ops), NestAt(s.input)); }
    }
    hide Good, ApplyAll, LeftByAll, Head, Compress, EndsInStep, Merged, Ending, Files, FileAt, Expected, Nested, Leads;
  }

  // ------------------------------------------------ the kinds of last updates

  /** A session that ends with putting a file, or the end of a directory, ends in
      step; one that ends with putting the beginning of a directory does unless that
      takes the place of a file with something behind it. */
  lemma {:induction false} EndingPut(rs: seq<Rec>, pre: seq<Op>, r: Rec)
    requires Proper(rs) && OpsNamed(pre) && r.path != []
    ensures r.kind != DirDown ==> EndsInStep(rs, pre + [Put(r)])
    ensures r.kind == DirDown ==>
              var rem, ops := LeftByAll(rs, pre), pre + [Put(r)];
              EndsInStep(rs, ops) <==> !Takes(rem, Put(r)) || LeftByAll(rs, ops) == []
  {
    hide Good, ApplyAll, LeftByAll, Head, Open, Takes, Synced, Proper, LeftBy, PutRec;
    var s0, ops := Open(rs, false), pre + [Put(r)];
    var s, rem := ApplyAll(s0, pre), LeftByAll(rs, pre);
    OpenGood(rs, false);
    SoFar(s0, rs, pre, []);
    SoFar(s0, rs, ops, []);
    ApplyAllLast(s0, pre, Put(r));
    LeftByAllLast(rs, pre, Put(r));
    SyncedExactly(rs, ops, false);
    PutAt(s, rem, r);
    assert ops[..|ops| - 1] == pre;
    if r.kind != DirDown {
      PutInStep(s, rem, r);
    } else {
      StepSynced(s, rem, Put(r), r.path);
      if Takes(rem, Put(r)) && LeftByAll(rs, ops) != [] {
        FileBehind(s, rem, r);
      }
    }
  }

  lemma {:induction false} FileBehind(s: Session, rem: seq<Rec>, r: Rec)
    requires Good(s, rem) && r.path != [] && r.kind == DirDown && Takes(rem, Put(r)) && LeftBy(rem, Put(r)) != []
    requires Good(PutRec(s, r), LeftBy(rem, Put(r)))
    ensures !InStep(r.path, LeftBy(rem, Put(r))[0])
  {
    LastStep(s, rem, Put(r));
    StepAt(r.path, LeftBy(rem, Put(r)), PutRec(s, r).input);
    var old_rec := rem[CountBefore(rem, KeyOf(r))];
    assert KeyOf(old_rec) == KeyOf(r) && old_rec.kind != DirDown;
    assert Dir(old_rec) == Parent(r.path);
    hide Apply, LeftBy, GoodInput, PutRec;
  }
}
