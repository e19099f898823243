/** What the operations on an open status file do, step by step, and that they write
    the ordered merge up to the place of the last of them. */
module StatusSpec {
  import opened Lines
  import opened Paths
  import opened PathOrder
  import opened StatusList
  import opened StatusRead
  import opened StatusMerge

  /** An open status file: what is left to read, the record read ahead, what has been
      written and the directory the compressor is in. */
  datatype Session = Session(
    input: Input, current: Option<Rec>, out: seq<Rec>, at: Path, error: Option<Error>, dirty: bool)

  datatype Got = Failed | Missing | Present(rec: Rec)

  datatype Step = Step(s: Session, got: Got)

  function WriteRec(s: Session, r: Rec): Session {
    s.(out := s.out + Emit(s.at, r), at := Dir(r))
  }

  /** A record copied as it is, the compressor in step. */
  function CopyRec(s: Session, r: Rec): Session {
    s.(out := s.out + [r], at := Dir(r))
  }

  /** On to the first record that does not come before `k`, copying or dropping. */
  function Seek(s: Session, k: Key, keep: bool): Step
    decreases |s.input.lines|
  {
    match ReadRaw(s.input)
    case Bad(e, rest) => Step(s.(input := rest, error := Some(e)), Failed)
    case End(rest) => Step(s.(input := rest), Missing)
    case Got(rec, parses, rest) =>
      if Cmp(rec, k) < 0 then
        Seek(if keep then CopyRec(s.(input := rest), rec) else s.(input := rest), k, keep)
      else if !parses then Step(s.(input := rest, error := Some(ParseError)), Failed)
      else Step(s.(input := rest, current := Some(rec)), if Cmp(rec, k) == 0 then Present(rec) else Missing)
  }

  function GetFrom(s: Session, r: Rec, k: Key, keep: bool): Step {
    if Cmp(r, k) < 0 then Seek(if keep then WriteRec(s, r) else s, k, keep)
    else Step(s.(current := Some(r)), if Cmp(r, k) == 0 then Present(r) else Missing)
  }

  function Get(s: Session, k: Key, keep: bool): Step {
    if s.input.eof then Step(s, Missing)
    else if s.error.Some? then Step(s, Failed)
    else if s.current.Some? then GetFrom(s.(current := None), s.current.value, k, keep)
    else
      match ReadRaw(s.input)
      case Bad(e, rest) => Step(s.(input := rest, error := Some(e)), Failed)
      case End(rest) => Step(s.(input := rest), Missing)
      case Got(rec, parses, rest) =>
        if !parses then Step(s.(input := rest, error := Some(ParseError)), Failed)
        else GetFrom(s.(input := rest), rec, k, keep)
  }

  /** The old record, once found, makes way for the new one: a file goes, a directory
      only with all that is in it, for a checked-out file. */
  function MakeWay(g: Step, r: Rec): Step
    requires g.got != Failed
  {
    if g.got == Missing then g
    else if g.got.rec.kind != DirDown then Step(g.s.(current := None), Missing)
    else if IsCheckout(r) then Get(g.s, Key(r.path, true), false)
    else g
  }

  function PutRec(s: Session, r: Rec): Session {
    var g := Get(s, KeyOf(r), true);
    if g.got == Failed then g.s
    else
      var g2 := MakeWay(g, r);
      if g2.got == Failed then g2.s else WriteRec(g2.s.(dirty := true), r)
  }

  /** Does a put go through? */
  predicate PutWorks(s: Session, r: Rec) {
    var g := Get(s, KeyOf(r), true);
    g.got != Failed && MakeWay(g, r).got != Failed
  }

  function DeleteRec(s: Session, k: Key): Session {
    var g := Get(s, k, true);
    if g.got.Present? then g.s.(current := None, dirty := true) else g.s
  }

  function Apply(s: Session, op: Op): Session {
    match op
    case Put(r) => PutRec(s, r)
    case Delete(p, up) => DeleteRec(s, Key(p, up))
  }

  function ApplyAll(s: Session, ops: seq<Op>): Session
    decreases |ops|
  {
    if ops == [] then s else ApplyAll(Apply(s, ops[0]), ops[1..])
  }

  function Open(rs: seq<Rec>, dirty: bool): Session {
    Session(Opened(rs), None, [], [], None, dirty)
  }

  // -------------------------------------------------------- reading a good file

  /** The directory the record read last leaves one in. */
  function NestAt(i: Input): Path {
    if i.prev.Some? then Dir(i.prev.value) else []
  }

  /** The rest of the file is the rest of a proper listing. */
  predicate GoodInput(i: Input, xs: seq<Rec>) {
    && i.lines == Entries(xs) && i.depth == |NestAt(i)| && Nested(NestAt(i), xs)
    && (i.prev.Some? ==> i.prev.value.path != [])
    && SortedFrom(if i.prev.Some? then Some(KeyOf(i.prev.value)) else None, xs)
    && (i.eof ==> xs == [])
  }

  /** The session goes well, and `rem` is left: the record read ahead and the rest. */
  predicate Good(s: Session, rem: seq<Rec>) {
    && s.error == None
    && (if s.current.Some? then
          rem != [] && rem[0] == s.current.value && s.input.prev == s.current && !s.input.eof &&
          GoodInput(s.input, rem[1..])
        else GoodInput(s.input, rem))
  }

  function After(i: Input, xs: seq<Rec>): Input
    requires xs != []
  {
    Input(Entries(xs[1..]), Some(xs[0]), |Dir(xs[0])|, false)
  }

  lemma NextGood(i: Input, xs: seq<Rec>)
    requires GoodInput(i, xs) && xs != []
    ensures ReadRaw(i) == StatusRead.Got(xs[0], true, After(i, xs)) && GoodInput(After(i, xs), xs[1..])
    ensures xs[0].path != [] && InStep(NestAt(i), xs[0]) && (xs[0].kind == DirDown ==> xs[0].info == NoInfo)
  {
    NextRead(i, NestAt(i), xs);
  }

  lemma NoneLeft(i: Input)
    requires GoodInput(i, [])
    ensures ReadRaw(i) == End(i.(eof := true)) && GoodInput(i.(eof := true), [])
  {
  }

  lemma {:induction false} CmpOrder(r: Rec, k: Key)
    requires r.path != [] && k.path != []
    ensures Cmp(r, k) < 0 <==> Before(KeyOf(r), k)
    ensures Cmp(r, k) == 0 <==> KeyOf(r) == k && !k.up
  {
    RecCmpOrder(KeyOf(r), k);
  }

  // ------------------------------------------------------------ the loop of a get

  /** What is found at the head of what is left. */
  function GotAt(rem: seq<Rec>, k: Key): Got {
    if Found(rem, k) then Present(rem[0]) else Missing
  }

  lemma Associate(a: seq<Rec>, b: seq<Rec>, c: seq<Rec>)
    ensures a + b + c == a + (b + c)
  {
  }

  lemma {:induction false} CopyReaches(s: Session, r: Rec, m: seq<Rec>)
    requires InStep(s.at, r) && (r.kind == DirDown ==> r.info == NoInfo)
    ensures var s2 := CopyRec(s, r); s2.out + Compress(s2.at, m) == s.out + Compress(s.at, [r] + m)
  {
    hide Compress, Emit, InStep;
    EmitInStep(s.at, r);
    CompressCons(s.at, r, m);
    Associate(s.out, [r], Compress(Dir(r), m));
  }

  lemma {:induction false} WriteReaches(s: Session, r: Rec, m: seq<Rec>)
    ensures var s2 := WriteRec(s, r); s2.out + Compress(s2.at, m) == s.out + Compress(s.at, [r] + m)
  {
    hide Compress, Emit;
    CompressCons(s.at, r, m);
    Associate(s.out, Emit(s.at, r), Compress(Dir(r), m));
  }

  /** What has been written, if `m` is still to be written through the compressor. */
  function Total(s: Session, m: seq<Rec>): seq<Rec> {
    s.out + Compress(s.at, m)
  }

  /** The first of what is left has been read ahead. */
  predicate ReadAhead(s: Session, rem: seq<Rec>) {
    s.current.Some? <==> rem != []
  }

  lemma {:induction false} SplitAt(xs: seq<Rec>, k: Key)
    requires xs != [] && Before(KeyOf(xs[0]), k)
    ensures var n := CountBefore(xs, k);
            n > 0 && n - 1 == CountBefore(xs[1..], k) && xs[..n] == [xs[0]] + xs[1..][..n - 1] &&
                xs[n..] == xs[1..][n - 1..]
  {
  }

  lemma {:induction false} SeekGood(s: Session, xs: seq<Rec>, k: Key, keep: bool, m: seq<Rec>)
    requires Good(s, xs) && s.current == None && k.path != [] && (keep ==> s.at == NestAt(s.input))
    ensures var n, g := CountBefore(xs, k), Seek(s, k, keep);
            && g.got == GotAt(xs[n..], k) && Good(g.s, xs[n..]) && g.s.dirty == s.dirty && ReadAhead(g.s, xs[n..])
            && Total(g.s, m) == Total(s, if keep then xs[..n] + m else m)
    decreases |xs|
  {
    if xs == [] {
      NoneLeft(s.input);
      assert xs[..0] + m == m;
    } else {
      NextGood(s.input, xs);
      CmpOrder(xs[0], k);
      if Before(KeyOf(xs[0]), k) {
        SplitAt(xs, k);
        SeekOn(s, xs, k, keep, m);
      } else {
        SeekStops(s, xs, k, keep);
        assert xs[..0] + m == m && xs[0..] == xs;
      }
    }
  }

  lemma {:induction false} SeekStops(s: Session, xs: seq<Rec>, k: Key, keep: bool)
    requires Good(s, xs) && s.current == None && xs != [] && Cmp(xs[0], k) >= 0
    requires Cmp(xs[0], k) == 0 <==> KeyOf(xs[0]) == k && !k.up
    requires ReadRaw(s.input) == StatusRead.Got(xs[0], true, After(s.input, xs)) &&
             GoodInput(After(s.input, xs), xs[1..])
    ensures var g := Seek(s, k, keep);
            && g.got == GotAt(xs, k) && Good(g.s, xs) && g.s.dirty == s.dirty && ReadAhead(g.s, xs)
            && g.s.out == s.out && g.s.at == s.at
  {
    hide GoodInput, ReadRaw, Cmp;
  }

  lemma {:induction false} SeekOn(s: Session, xs: seq<Rec>, k: Key, keep: bool, m: seq<Rec>)
    requires Good(s, xs) && s.current == None && k.path != [] && (keep ==> s.at == NestAt(s.input))
    requires xs != [] && Cmp(xs[0], k) < 0
    ensures var n, g := CountBefore(xs[1..], k), Seek(s, k, keep);
            && g.got == GotAt(xs[1..][n..], k) && Good(g.s, xs[1..][n..]) && g.s.dirty == s.dirty &&
                ReadAhead(g.s, xs[1..][n..])
            && Total(g.s, m) == Total(s, if keep then [xs[0]] + xs[1..][..n] + m else m)
    decreases |xs|, 0
  {
    hide GoodInput, ReadRaw, Cmp, Compress, CountBefore, InStep;
    NextGood(s.input, xs);
    var n := CountBefore(xs[1..], k);
    var s1 := s.(input := After(s.input, xs));
    var s2 := if keep then CopyRec(s1, xs[0]) else s1;
    if keep { CopyReaches(s1, xs[0], xs[1..][..n] + m); }
    assert [xs[0]] + (xs[1..][..n] + m) == [xs[0]] + xs[1..][..n] + m;
    SeekGood(s2, xs[1..], k, keep, m);
  }

  lemma GoodStays(s: Session, s2: Session, rem: seq<Rec>)
    requires Good(s, rem) && s2.input == s.input && s2.current == s.current && s2.error == s.error
    ensures Good(s2, rem)
  {
    hide GoodInput;
  }

  lemma {:induction false} GetFromGood(s: Session, r: Rec, xs: seq<Rec>, k: Key, keep: bool, m: seq<Rec>)
    requires Good(s, xs) && s.current == None && s.input.prev == Some(r) && !s.input.eof && k.path != []
    ensures var rem, g := [r] + xs, GetFrom(s, r, k, keep);
            var n := CountBefore(rem, k);
            && g.got == GotAt(rem[n..], k) && Good(g.s, rem[n..]) && g.s.dirty == s.dirty && ReadAhead(g.s, rem[n..])
            && Total(g.s, m) == Total(s, if keep then rem[..n] + m else m)
  {
    var rem := [r] + xs;
    CmpOrder(r, k);
    assert rem[1..] == xs;
    if Before(KeyOf(r), k) {
      SplitAt(rem, k);
      hide GoodInput, Compress, Emit, CountBefore, Seek, Cmp, Before;
      var n := CountBefore(xs, k);
      WriteReaches(s, r, xs[..n] + m);
      Associate([r], xs[..n], m);
      GoodStays(s, WriteRec(s, r), xs);
      SeekGood(if keep then WriteRec(s, r) else s, xs, k, keep, m);
    } else {
      assert rem[..0] + m == m && rem[0..] == rem;
    }
  }

  /** Looking for a key goes through what is left up to its place. */
  lemma {:induction false} GetGood(s: Session, rem: seq<Rec>, k: Key, keep: bool, m: seq<Rec>)
    requires Good(s, rem) && k.path != []
    ensures var n, g := CountBefore(rem, k), Get(s, k, keep);
            && g.got == GotAt(rem[n..], k) && Good(g.s, rem[n..]) && g.s.dirty == s.dirty && ReadAhead(g.s, rem[n..])
            && Total(g.s, m) == Total(s, if keep then rem[..n] + m else m)
  {
    if rem == [] {
      NoneLeft(s.input);
      assert rem[..0] + m == m;
    } else {
      assert rem == [rem[0]] + rem[1..];
      if s.current.Some? {
        GetFromGood(s.(current := None), rem[0], rem[1..], k, keep, m);
      } else {
        NextGood(s.input, rem);
        GetFromGood(s.(input := After(s.input, rem)), rem[0], rem[1..], k, keep, m);
      }
      hide GoodInput, Compress, CountBefore, GetFrom, ReadRaw;
    }
  }

  lemma TakeCurrent(s: Session, rem: seq<Rec>)
    requires Good(s, rem) && s.current.Some?
    ensures Good(s.(current := None), rem[1..])
  {
  }

  lemma MakeWayGood(s: Session, rest: seq<Rec>, r: Rec, m: seq<Rec>)
    requires Good(s, rest) && ReadAhead(s, rest) && r.path != []
    ensures var g := MakeWay(Step(s, GotAt(rest, KeyOf(r))), r);
            && g.got != Failed && Good(g.s, rest[Taken(rest, Put(r))..])
            && g.s.dirty == s.dirty && Total(g.s, m) == Total(s, m)
  {
    if Found(rest, KeyOf(r)) {
      if rest[0].kind != DirDown {
        TakeCurrent(s, rest);
      } else if IsCheckout(r) {
        GetGood(s, rest, Key(r.path, true), false, m);
      }
    }
    assert rest[0..] == rest;
    hide Good, Get, Compress, CountBefore;
  }

  predicate Changes(rem: seq<Rec>, op: Op) {
    op.Put? || Found(rem[CountBefore(rem, OpKey(op))..], OpKey(op))
  }

  function Puts(op: Op): seq<Rec> {
    if op.Put? then [op.rec] else []
  }

  function LeftBy(rem: seq<Rec>, op: Op): seq<Rec> {
    var rest := rem[CountBefore(rem, OpKey(op))..];
    rest[Taken(rest, op)..]
  }

  lemma {:induction false} PutGood(s: Session, rem: seq<Rec>, r: Rec, m: seq<Rec>)
    requires Good(s, rem) && r.path != []
    ensures var s2 := PutRec(s, r);
            && Good(s2, LeftBy(rem, Put(r))) && s2.dirty
            && Total(s2, m) == Total(s, rem[..CountBefore(rem, KeyOf(r))] + [r] + m)
  {
    var n := CountBefore(rem, KeyOf(r));
    var g := Get(s, KeyOf(r), true);
    GetGood(s, rem, KeyOf(r), true, [r] + m);
    MakeWayGood(g.s, rem[n..], r, [r] + m);
    var g2 := MakeWay(g, r);
    WriteReaches(g2.s.(dirty := true), r, m);
    assert rem[..n] + ([r] + m) == rem[..n] + [r] + m;
    GoodStays(g2.s, WriteRec(g2.s.(dirty := true), r), LeftBy(rem, Put(r)));
    hide Good, Get, Compress, CountBefore, MakeWay, Emit, Taken;
  }

  lemma {:induction false} DeleteGood(s: Session, rem: seq<Rec>, p: Path, up: bool, m: seq<Rec>)
    requires Good(s, rem) && p != []
    ensures var s2 := DeleteRec(s, Key(p, up));
            && Good(s2, LeftBy(rem, Delete(p, up))) && s2.dirty == (s.dirty || Changes(rem, Delete(p, up)))
            && Total(s2, m) == Total(s, rem[..CountBefore(rem, Key(p, up))] + m)
  {
    var k := Key(p, up);
    var n := CountBefore(rem, k);
    GetGood(s, rem, k, true, m);
    if Found(rem[n..], k) {
      TakeCurrent(Get(s, k, true).s, rem[n..]);
      GoodStays(Get(s, k, true).s.(current := None), Get(s, k, true).s.(current := None, dirty := true), rem[n..][1..]);
    }
    assert rem[n..][0..] == rem[n..];
    hide Good, Get, Compress, CountBefore;
  }

  /** One update writes what comes before its place, and what is put. */
  lemma {:induction false} ApplyGood(s: Session, rem: seq<Rec>, op: Op, m: seq<Rec>)
    requires Good(s, rem) && OpKey(op).path != []
    ensures var s2 := Apply(s, op);
            && Good(s2, LeftBy(rem, op)) && s2.dirty == (s.dirty || Changes(rem, op))
            && Total(s2, m) == Total(s, rem[..CountBefore(rem, OpKey(op))] + Puts(op) + m)
  {
    match op
    case Put(r) => PutGood(s, rem, r, m);
    case Delete(p, up) =>
      DeleteGood(s, rem, p, up, m);
      assert rem[..CountBefore(rem, OpKey(op))] + [] == rem[..CountBefore(rem, OpKey(op))];
  }

  // ----------------------------------------------------------- a whole session

  function LeftByAll(rem: seq<Rec>, ops: seq<Op>): seq<Rec>
    decreases |ops|
  {
    if ops == [] then rem else LeftByAll(LeftBy(rem, ops[0]), ops[1..])
  }

  lemma {:induction false} MergedCons(rem: seq<Rec>, op: Op, ops: seq<Op>)
    ensures Merged(rem, [op] + ops) == rem[..CountBefore(rem, OpKey(op))] + Puts(op) + Merged(LeftBy(rem, op), ops)
  {
    MergedUnfold(rem, op, ops);
    hide Merged, CountBefore, Taken;
  }

  lemma {:induction false} ApplyAllGood(s: Session, rem: seq<Rec>, ops: seq<Op>)
    requires Good(s, rem) && OpsNamed(ops)
    ensures Good(ApplyAll(s, ops), LeftByAll(rem, ops))
    ensures Total(ApplyAll(s, ops), LeftByAll(rem, ops)) == Total(s, Merged(rem, ops))
    decreases |ops|
  {
    if ops != [] {
      assert OpKey(ops[0]).path != [];
      assert OpsNamed(ops[1..]);
      hide Good, Apply, Merged, Total, LeftBy, OpsNamed;
      ApplyGood(s, rem, ops[0], Merged(LeftBy(rem, ops[0]), ops[1..]));
      ApplyAllGood(Apply(s, ops[0]), LeftBy(rem, ops[0]), ops[1..]);
      MergedCons(rem, ops[0], ops[1..]);
      assert ops == [ops[0]] + ops[1..];
    }
  }

  lemma {:induction false} Untouched(rem: seq<Rec>, op: Op)
    requires !Changes(rem, op)
    ensures rem[..CountBefore(rem, OpKey(op))] + Puts(op) + LeftBy(rem, op) == rem
  {
    var n := CountBefore(rem, OpKey(op));
    assert rem[n..][0..] == rem[n..] && rem[..n] + [] + rem[n..] == rem;
  }

  lemma {:induction false} CleanStep(rem: seq<Rec>, op: Op, ops: seq<Op>)
    requires !Changes(rem, op) && Merged(LeftBy(rem, op), ops) == LeftBy(rem, op)
    ensures Merged(rem, [op] + ops) == rem
  {
    hide Merged, LeftBy, Changes, CountBefore, Puts;
    MergedCons(rem, op, ops);
    Untouched(rem, op);
  }

  /** Nothing changed means that nothing was put and nothing to be deleted was there. */
  lemma {:induction false} CleanSession(s: Session, rem: seq<Rec>, ops: seq<Op>)
    requires Good(s, rem) && OpsNamed(ops) && !ApplyAll(s, ops).dirty
    ensures Merged(rem, ops) == rem && !s.dirty
    decreases |ops|
  {
    if ops != [] {
      var op, rest := ops[0], ops[1..];
      assert OpKey(ops[0]).path != [];
      assert OpsNamed(rest);
      assert ops == [op] + rest;
      hide Good, Apply, Merged, Total, LeftBy, OpsNamed, Changes, CountBefore, Compress, OpKey, Puts;
      ApplyGood(s, rem, op, []);
      CleanSession(Apply(s, op), LeftBy(rem, op), rest);
      CleanStep(rem, op, rest);
    }
  }

  /** The compressor is in step when the rest of the file is copied at the end. */
  predicate Synced(s: Session) {
    !s.dirty || s.current.Some? || s.input.lines == [] || s.at == NestAt(s.input)
  }

  // ------------------------------------------------------------ ending in step

  /** Where the compressor is after looking for a key. */
  lemma {:induction false} SeekAt(s: Session, xs: seq<Rec>, k: Key)
    requires Good(s, xs) && s.current == None && k.path != []
    ensures var n := CountBefore(xs, k);
            Seek(s, k, true).s.at == if n == 0 then s.at else Dir(xs[n - 1])
    decreases |xs|
  {
    if xs == [] {
      NoneLeft(s.input);
    } else {
      NextGood(s.input, xs);
      CmpOrder(xs[0], k);
      if Before(KeyOf(xs[0]), k) {
        SplitAt(xs, k);
        var s1 := CopyRec(s.(input := After(s.input, xs)), xs[0]);
        assert Seek(s, k, true) == Seek(s1, k, true);
        hide GoodInput, ReadRaw, Cmp, CountBefore, Seek;
        SeekAt(s1, xs[1..], k);
      }
    }
  }

  lemma {:induction false} GetAt(s: Session, rem: seq<Rec>, k: Key)
    requires Good(s, rem) && k.path != []
    ensures var n := CountBefore(rem, k);
            Get(s, k, true).s.at == if n == 0 then s.at else Dir(rem[n - 1])
  {
    if rem == [] {
      NoneLeft(s.input);
    } else {
      var r, xs := rem[0], rem[1..];
      if s.current == None { NextGood(s.input, rem); }
      var s1 := if s.current.Some? then s.(current := None) else s.(input := After(s.input, rem));
      CmpOrder(r, k);
      if Before(KeyOf(r), k) {
        SplitAt(rem, k);
        SeekAt(WriteRec(s1, r), xs, k);
      }
      hide GoodInput, ReadRaw, Cmp, CountBefore, Seek;
    }
  }

  /** After putting a file, or the end of a directory, the compressor is in step. */
  lemma PutInStep(s: Session, rem: seq<Rec>, r: Rec)
    requires Good(s, rem) && r.path != [] && r.kind != DirDown
    ensures Synced(PutRec(s, r))
  {
    var k := KeyOf(r);
    var rest := rem[CountBefore(rem, k)..];
    GetGood(s, rem, k, true, []);
    MakeWayStep(Get(s, k, true).s, rest, r);
    MakeWayGood(Get(s, k, true).s, rest, r, []);
    hide Get, Compress, CountBefore, Emit, MakeWay, Good;
  }

  lemma MakeWayStep(s: Session, rest: seq<Rec>, r: Rec)
    requires Good(s, rest) && ReadAhead(s, rest) && r.path != [] && r.kind != DirDown
    ensures var i := MakeWay(Step(s, GotAt(rest, KeyOf(r))), r).s;
            i.current.Some? || i.input.lines == [] || (i.input.prev.Some? && Dir(i.input.prev.value) == Dir(r))
  {
    if Found(rest, KeyOf(r)) && rest[0].kind == DirDown && IsCheckout(r) {
      GetGood(s, rest, Key(r.path, true), false, []);
      hide Get, Compress, CountBefore;
    }
  }

  lemma {:induction false} NestedEnds(at: Path, rs: seq<Rec>)
    requires Nested(at, rs) && rs != []
    ensures Dir(rs[|rs| - 1]) == []
    decreases |rs|
  {
    if |rs| > 1 {
      NestedEnds(Dir(rs[0]), rs[1..]);
    }
  }
}
