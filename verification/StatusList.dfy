/** The records of a status file and what the path compressor makes of them:
    missing directory records are added, superfluous ones dropped. */
module StatusList {
  import opened Lines
  import opened Paths
  import opened PathOrder
  import P = PathComp

  datatype Kind = DirDown | CheckoutLive | CheckoutDead | FileLive | FileDead | DirUp

  /** The attributes of a record, as they are written. */
  datatype Info = NoInfo | Bogus | Attr(text: string)

  datatype Rec = Rec(kind: Kind, path: Path, info: Info)

  predicate IsDir(r: Rec) { r.kind == DirDown || r.kind == DirUp }

  function KeyOf(r: Rec): Key { Key(r.path, r.kind == DirUp) }

  function PathKind(r: Rec): P.Kind {
    if r.kind == DirDown then P.DirDown else if r.kind == DirUp then P.DirUp else P.File
  }

  /** The directory one is in after a record. */
  function Dir(r: Rec): Path { P.Target(PathKind(r), r.path) }

  // -------------------------------------------------------------- what is written

  /** Directory records for the compressor's events; the first directory left gets
      the given attributes, the others made-up ones. */
  function Render(es: seq<P.Event>, info: Info): seq<Rec>
  {
    if es == [] then []
    else
      match es[0]
      case Down(p) => [Rec(DirDown, p, NoInfo)] + Render(es[1..], info)
      case Up(p) => [Rec(DirUp, p, info)] + Render(es[1..], Bogus)
  }

  function Travel(at: Path, to: Path, info: Info): seq<Rec> {
    Render(P.Moves(at, to), info)
  }

  /** What writing a record from directory `at` puts into the file. */
  function Emit(at: Path, r: Rec): seq<Rec> {
    Travel(at, Dir(r), if r.kind == DirUp then r.info else Bogus) + (if IsDir(r) then [] else [r])
  }

  /** What writing records one after the other gives, directories closed at the end. */
  function Compress(at: Path, m: seq<Rec>): seq<Rec>
    decreases |m|
  {
    if m == [] then Travel(at, [], Bogus) else Emit(at, m[0]) + Compress(Dir(m[0]), m[1..])
  }

  // ------------------------------------------------------------- proper listings

  /** A record that follows in directory `at` as it is. */
  predicate InStep(at: Path, r: Rec) {
    r.path != [] && (if r.kind == DirUp then r.path == at else Parent(r.path) == at)
  }

  /** The listing of a tree: directories are entered before what they hold and left
      after it; only directory ends and files carry attributes. */
  predicate Nested(at: Path, rs: seq<Rec>)
    decreases |rs|
  {
    if rs == [] then at == []
    else InStep(at, rs[0]) && (rs[0].kind == DirDown ==> rs[0].info == NoInfo) && Nested(Dir(rs[0]), rs[1..])
  }

  predicate SortedFrom(o: Option<Key>, rs: seq<Rec>)
    decreases |rs|
  {
    rs == [] || ((o.Some? ==> Before(o.value, KeyOf(rs[0]))) && SortedFrom(Some(KeyOf(rs[0])), rs[1..]))
  }

  predicate Proper(rs: seq<Rec>) {
    Nested([], rs) && SortedFrom(None, rs)
  }

  function Files(rs: seq<Rec>): seq<Rec> {
    if rs == [] then [] else (if IsDir(rs[0]) then [] else [rs[0]]) + Files(rs[1..])
  }

  // ----------------------------------------------- nothing but directories changes

  lemma {:induction false} FilesPlus(a: seq<Rec>, b: seq<Rec>)
    ensures Files(a + b) == Files(a) + Files(b)
  {
    if a == [] {
      assert a + b == b;
    } else {
      assert (a + b)[1..] == a[1..] + b;
      FilesPlus(a[1..], b);
    }
  }

  lemma {:induction false} RenderDirs(es: seq<P.Event>, info: Info)
    ensures Files(Render(es, info)) == []
  {
    if es != [] {
      RenderDirs(es[1..], info);
      RenderDirs(es[1..], Bogus);
    }
  }

  /** Every file record is written once, and in order. */
  lemma {:induction false} FilesKept(at: Path, m: seq<Rec>)
    ensures Files(Compress(at, m)) == Files(m)
    decreases |m|
  {
    if m == [] {
      RenderDirs(P.Moves(at, []), Bogus);
    } else {
      FilesKept(Dir(m[0]), m[1..]);
      FilesPlus(Emit(at, m[0]), Compress(Dir(m[0]), m[1..]));
      FilesEmitted(at, m[0]);
    }
  }

  lemma {:induction false} FilesEmitted(at: Path, r: Rec)
    ensures Files(Emit(at, r)) == if IsDir(r) then [] else [r]
  {
    var info := if r.kind == DirUp then r.info else Bogus;
    RenderDirs(P.Moves(at, Dir(r)), info);
    var tail: seq<Rec> := if IsDir(r) then [] else [r];
    FilesPlus(Travel(at, Dir(r), info), tail);
    assert Files(tail) == tail;
  }

  lemma {:induction false} MovesOne(at: Path, to: Path)
    ensures to != [] && Parent(to) == at ==> P.Moves(at, to) == [P.Down(to)]
    ensures at != [] && Parent(at) == to ==> P.Moves(at, to) == [P.Up(at)]
    ensures at == to ==> P.Moves(at, to) == []
  {
    if to != [] && Parent(to) == at {
      assert to[..|at| + 1] == to;
      assert P.Moves(to, to) == [];
    }
    if at != [] && Parent(at) == to {
      assert P.Moves(to, to) == [];
    }
  }

  /** A record that follows as it is, is written as it is. */
  lemma EmitInStep(at: Path, r: Rec)
    requires InStep(at, r) && (r.kind == DirDown ==> r.info == NoInfo)
    ensures Emit(at, r) == [r]
  {
    MovesOne(at, Dir(r));
    RenderCons(if r.kind == DirUp then P.Up(at) else P.Down(r.path), [], if r.kind == DirUp then r.info else Bogus);
    assert Travel(at, Dir(r), if r.kind == DirUp then r.info else Bogus) == if IsDir(r) then [r] else [];
  }

  /** The record for one event, and the attributes left for the next. */
  function EventRec(e: P.Event, info: Info): Rec {
    if e.Up? then Rec(DirUp, e.path, info) else Rec(DirDown, e.path, NoInfo)
  }

  function NextInfo(e: P.Event, info: Info): Info {
    if e.Up? then Bogus else info
  }

  lemma {:induction false} RenderCons(e: P.Event, es: seq<P.Event>, info: Info)
    ensures Render([e] + es, info) == [EventRec(e, info)] + Render(es, NextInfo(e, info))
  {
    assert ([e] + es)[1..] == es;
    assert [e] + [] == [e];
  }

  lemma {:induction false} CompressCons(at: Path, r: Rec, m: seq<Rec>)
    ensures Compress(at, [r] + m) == Emit(at, r) + Compress(Dir(r), m)
  {
    assert ([r] + m)[1..] == m;
  }

  /** A proper listing passes through the compressor unchanged. */
  lemma {:induction false} CompressNested(at: Path, rs: seq<Rec>)
    requires Nested(at, rs)
    ensures Compress(at, rs) == rs
    decreases |rs|
  {
    if rs == [] {
      MovesOne(at, []);
    } else {
      var r, m := rs[0], rs[1..];
      CompressNested(Dir(r), m);
      EmitInStep(at, r);
      hide Emit;
      assert rs == [r] + m;
    }
  }

  // ----------------------------------------------------------- the result is nested

  lemma {:induction false} NestedCons(at: Path, r: Rec, rest: seq<Rec>)
    requires InStep(at, r) && (r.kind == DirDown ==> r.info == NoInfo) && Nested(Dir(r), rest)
    ensures Nested(at, [r] + rest)
  {
    assert ([r] + rest)[1..] == rest;
  }

  lemma {:induction false} WalkCons(at: Path, es: seq<P.Event>, info: Info)
    requires P.Walk(at, es).Some? && es != []
    ensures var e := es[0];
            var r := EventRec(e, info);
            P.Walk(at, es) == P.Walk(P.After(e), es[1..]) && InStep(at, r) && Dir(r) == P.After(e) &&
            (r.kind == DirDown ==> r.info == NoInfo)
  {
  }

  /** Balanced events lead to a directory from which the rest is nested. */
  lemma {:induction false} RenderNested(at: Path, es: seq<P.Event>, info: Info, rest: seq<Rec>)
    requires P.Walk(at, es).Some? && Nested(P.Walk(at, es).value, rest)
    ensures Nested(at, Render(es, info) + rest)
    decreases |es|
  {
    if es == [] {
      assert Render(es, info) + rest == rest;
    } else {
      var e, fs := es[0], es[1..];
      var r, next := EventRec(e, info), NextInfo(e, info);
      assert es == [e] + fs;
      WalkCons(at, es, info);
      hide Nested, P.Walk, Render, EventRec, InStep, Dir, P.After;
      RenderNested(P.After(e), fs, next, rest);
      NestedCons(at, r, Render(fs, next) + rest);
      RenderCons(e, fs, info);
      assert [r] + (Render(fs, next) + rest) == ([r] + Render(fs, next)) + rest;
    }
  }

  lemma {:induction false} TravelNested(at: Path, to: Path, info: Info, rest: seq<Rec>)
    requires Nested(to, rest)
    ensures Nested(at, Travel(at, to, info) + rest)
  {
    P.WalkMoves(at, to);
    RenderNested(at, P.Moves(at, to), info, rest);
  }

  lemma {:induction false} EmitNested(at: Path, r: Rec, rest: seq<Rec>)
    requires Nested(Dir(r), rest) && r.path != []
    ensures Nested(at, Emit(at, r) + rest)
  {
    var info := if r.kind == DirUp then r.info else Bogus;
    if IsDir(r) {
      TravelNested(at, Dir(r), info, rest);
      assert Travel(at, Dir(r), info) + [] == Travel(at, Dir(r), info);
    } else {
      NestedCons(Dir(r), r, rest);
      TravelNested(at, Dir(r), info, [r] + rest);
    }
    hide Travel, Nested;
    assert Travel(at, Dir(r), info) + ([r] + rest) == (Travel(at, Dir(r), info) + [r]) + rest;
  }

  predicate AllNamed(m: seq<Rec>) {
    forall i :: 0 <= i < |m| ==> m[i].path != []
  }

  /** Whatever is written, directories are entered and left as they should be. */
  lemma {:induction false} CompressIsNested(at: Path, m: seq<Rec>)
    requires AllNamed(m)
    ensures Nested(at, Compress(at, m))
    decreases |m|
  {
    if m == [] {
      TravelNested(at, [], Bogus, []);
      assert Travel(at, [], Bogus) + [] == Travel(at, [], Bogus);
    } else {
      CompressIsNested(Dir(m[0]), m[1..]);
      EmitNested(at, m[0], Compress(Dir(m[0]), m[1..]));
    }
  }

  /** The end of a directory that is still open when it comes is written with its own
      attributes. */
  lemma {:induction false} EndKept(at: Path, m: seq<Rec>, i: nat)
    requires i < |m| && m[i].kind == DirUp && m[i].path != []
    requires m[i].path == if i == 0 then at else Dir(m[i - 1])
    ensures m[i] in Compress(at, m)
    decreases |m|
  {
    if i == 0 {
      RenderCons(P.Up(at), [], m[0].info);
      MovesOne(at, Dir(m[0]));
      assert m[0] == EventRec(P.Up(at), m[0].info);
      assert m[0] in Emit(at, m[0]);
    } else {
      EndKept(Dir(m[0]), m[1..], i - 1);
    }
  }

  /** Where the reader's count of open directories stands at the end. */
  function Depth(rs: seq<Rec>): int {
    if rs == [] then 0
    else (if rs[0].kind == DirDown then 1 else if rs[0].kind == DirUp then -1 else 0) + Depth(rs[1..])
  }

  lemma {:induction false} DepthPlus(a: seq<Rec>, b: seq<Rec>)
    ensures Depth(a + b) == Depth(a) + Depth(b)
  {
    if a == [] {
      assert a + b == b;
    } else {
      assert (a + b)[1..] == a[1..] + b;
      DepthPlus(a[1..], b);
    }
  }

  lemma {:induction false} NestedDepth(at: Path, rs: seq<Rec>)
    requires Nested(at, rs)
    ensures Depth(rs) == -|at|
    decreases |rs|
  {
    if rs != [] {
      NestedDepth(Dir(rs[0]), rs[1..]);
    }
  }
}
