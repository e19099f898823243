/** The status file as the code works on it: the reader, the record read ahead and
    the path compressor updated in place by put, delete and close. */
module Status {
  import opened Lines
  import opened Paths
  import opened PathOrder
  import opened StatusList
  import opened StatusRead
  import opened StatusSpec
  import opened StatusTail
  import P = PathComp

  /** As far as the rest of the file holds records, they are nested: the reader and
      the compressor keep in step when they are copied as they are. */
  predicate Steps(at: Path, lines: seq<Entry>)
    decreases |lines|
  {
    lines == [] || !lines[0].Entry? ||
    (InStep(at, lines[0].rec) && (lines[0].rec.kind == DirDown ==> lines[0].rec.info == NoInfo) &&
     Steps(Dir(lines[0].rec), lines[1..]))
  }

  predicate Readable(i: Input) {
    Steps(NestAt(i), i.lines) && (i.prev.Some? ==> i.prev.value.path != [])
  }

  lemma ReadNext(i: Input)
    ensures ReadRaw(i).Got? ==> ReadRaw(i).rest.prev == Some(ReadRaw(i).rec) && |ReadRaw(i).rest.lines| < |i.lines|
  {
  }

  lemma NamedLast(i: Input)
    ensures Terminated(LastName(i))
  {
    if i.prev.Some? { P.JoinChars(i.prev.value.path); }
  }

  lemma ReadOn(i: Input)
    requires Readable(i)
    ensures ReadRaw(i).Got? ==>
              Readable(ReadRaw(i).rest) && InStep(NestAt(i), ReadRaw(i).rec) &&
                  ReadRaw(i).rest.prev == Some(ReadRaw(i).rec) &&
              (ReadRaw(i).rec.kind == DirDown ==> ReadRaw(i).rec.info == NoInfo)
    ensures ReadRaw(i).End? ==> Readable(ReadRaw(i).rest)
    ensures !ReadRaw(i).Got? ==> ReadRaw(i).rest.prev == i.prev
  {
    hide RecCmp;
  }

  class StatusFile {
    var rd: seq<Entry>
    var previous: Option<Rec>
    var name: string           // what the buffer of the record read last holds
    var current: Option<Rec>
    var depth: nat
    var eof: bool
    var error: Option<Error>
    var dirty: bool
    var wr: seq<Written>
    const pc: P.PathComp
    ghost var out: seq<Rec>

    ghost predicate Valid()
      reads this, pc
    {
      && pc.IsIdle() && wr == PrintAll(out) && name == LastName(Input(rd, previous, depth, eof))
      && (error == None ==> Readable(Input(rd, previous, depth, eof))) && (current.Some? ==> current == previous)
    }

    ghost function View(): Session
      reads this, pc
    {
      Session(Input(rd, previous, depth, eof), current, out, pc.at, error, dirty)
    }

    constructor (file: seq<Entry>, newscan: bool)
      requires Steps([], file)
      ensures Valid() && fresh(pc)
      ensures View() == Session(Input(file, None, 0, false), None, [], [], None, newscan)
    {
      rd, previous, name, current, depth, eof := file, None, "", None, 0, false;
      error, dirty, wr := None, newscan, [];
      pc := new P.PathComp();
      out := [];
    }

    ghost function In(): Input
      reads this
    {
      Input(rd, previous, depth, eof)
    }

    /** Reads one record and checks its place in the file. */
    method ReadRecord() returns (r: Option<Rec>, parses: bool)
      requires current == None && error == None && Terminated(name)
      modifies this`rd, this`previous, this`name, this`depth, this`eof, this`error
      ensures match ReadAs(old(In()), old(name))
              case Bad(e, rest) => r == None && In() == rest && error == Some(e) && name == old(name)
              case End(rest) => r == None && In() == rest && error == None && name == old(name)
              case Got(rec, p, rest) =>
                r == Some(rec) && parses == p && In() == rest && error == None && name == Join(rec.path)
    {
      r, parses := None, false;
      hide RecCmp;
      if eof {
        return;
      }
      if rd == [] {
        if depth != 0 {
          error := Some(Truncated);
          return;
        }
        eof := true;
        return;
      }
      var line := rd[0];
      rd := rd[1..];
      match line
      case NoName => error := Some(ParseError);
      case BadKind => error := Some(BadType);
      case Entry(rec, ok) =>
        var fine := CheckRecord(rec);
        if fine {
          r, parses := Some(rec), ok;
        }
    }

    /** Counts the directories that are open, and checks the order. */
    method CheckRecord(rec: Rec) returns (fine: bool)
      requires Terminated(name)
      modifies this`previous, this`name, this`depth, this`error
      ensures var i := Input([Entry(rec, true)], old(previous), old(depth), false);
              match ReadAs(i, old(name))
              case Bad(e, rest) =>
                && !fine && error == Some(e) && previous == old(previous) && depth == rest.depth && name == old(name)
              case End(_) => false
              case Got(_, _, rest) =>
                && fine && error == old(error) && previous == Some(rec) && depth == rest.depth && name == Join(rec.path)
    {
      if rec.kind == DirDown {
        depth := depth + 1;
      } else if rec.kind == DirUp {
        if depth == 0 {
          error := Some(BogusDirUp);
          return false;
        }
        depth := depth - 1;
      }
      P.JoinChars(rec.path);
      if previous.Some? {
        var c := StatusRecCmp(previous.value.kind == DirUp, name, rec.kind == DirUp, Join(rec.path));
        if c >= 0 {
          error := Some(Unsorted);
          return false;
        }
      }
      previous, name := Some(rec), Join(rec.path);
      fine := true;
    }

    /** The same while the buffer holds the name that was read. */
    method ReadNamed() returns (r: Option<Rec>, parses: bool)
      requires Valid() && current == None && error == None
      modifies this`rd, this`previous, this`name, this`depth, this`eof, this`error
      ensures Valid()
      ensures match ReadRaw(old(View()).input)
              case Bad(e, rest) => r == None && View() == old(View()).(input := rest, error := Some(e))
              case End(rest) => r == None && View() == old(View()).(input := rest)
              case Got(rec, p, rest) =>
                r == Some(rec) && parses == p && View() == old(View()).(input := rest) &&
                InStep(NestAt(old(View()).input), rec) && (rec.kind == DirDown ==> rec.info == NoInfo)
    {
      NamedLast(In());
      ReadOn(In());
      hide Steps, Readable, PrintAll, ReadAs, P.Idle;
      r, parses := ReadRecord();
    }

    /** Writes the directory records that a record needs, or is. */
    method WriteDirs(r: Rec)
      requires Valid()
      modifies this`wr, this`out, pc
      ensures pc.IsIdle() && pc.at == Dir(r) && wr == PrintAll(out)
      ensures out == old(out) + Travel(old(pc.at), Dir(r), if r.kind == DirUp then r.info else Bogus)
    {
      ghost var out0, at0, info0 := out, pc.at, if r.kind == DirUp then r.info else Bogus;
      var usedirupattr := r.kind == DirUp;
      P.IdlePut(pc.View(), pc.at, PathKind(r), r.path);
      hide Readable, Render, PrintAll, P.Idle, P.Busy, P.Sound;
      var _ := pc.Put(PathKind(r), Join(r.path), r.path);
      var more := true;
      while more
        invariant if more then pc.IsBusy() else pc.IsIdle() && pc.at == pc.to
        invariant pc.to == Dir(r) && P.Sound(pc.View()) && wr == PrintAll(out)
        invariant out + Travel(pc.at, pc.to, if usedirupattr then r.info else Bogus) ==
                  out0 + Travel(at0, Dir(r), info0)
        decreases if more then 1 else 0, |P.Moves(pc.at, pc.to)|
      {
        var wild, kind, file;
        ghost var at1, out1, info1 := pc.at, out, if usedirupattr then r.info else Bogus;
        wild, more, kind, file := pc.Get();
        if more {
          ghost var e := P.Moves(at1, pc.to)[0];
          var info := if kind == P.DirDown then NoInfo else if usedirupattr then r.info else Bogus;
          if kind == P.DirUp {
            usedirupattr := false;
          }
          wr := wr + [Written(if kind == P.DirDown then DirDown else DirUp, file, info)];
          out := out + [EventRec(e, info1)];
          PrintMore(out1, EventRec(e, info1));
          TravelEvent(at1, pc.at, pc.to, out1, info1);
        }
      }
      TravelDone(pc.at);
    }

    /** Writes a record, behind the directory records it needs. */
    method WriteRecord(r: Rec)
      requires Valid()
      modifies this`wr, this`out, pc
      ensures Valid() && View() == WriteRec(old(View()), r)
    {
      hide Readable, Travel, PrintAll, P.Idle, Dir;
      WriteDirs(r);
      if !IsDir(r) {
        wr := wr + [Print(r)];
        PrintMore(out, r);
        out := out + [r];
      }
    }

    /** Copies a record as it was read: one get for a file, two for a directory, and then
        the record is printed with the name that its buffer then holds. */
    method CopyRecord(r: Rec) returns (wild: bool)
      requires P.Sound(pc.View()) && name == Join(r.path)
      modifies this`wr, this`name, pc
      ensures P.Sound(pc.View())
      ensures match CopyRaw(old(pc.View()), r)
              case WildCopy => wild
              case Copied(file, f) =>
                !wild && pc.View() == f && name == file && wr == old(wr) + [Written(r.kind, file, r.info)]
      ensures old(pc.IsIdle() && InStep(pc.at, r)) ==> !wild && pc.IsIdle() && pc.at == Dir(r)
    {
      RelativeJoin(r.path);
      hide P.PutF, SomeGets, P.Sound, Join, P.Moves, P.Idle, P.Busy, P.CStr;
      var _ := pc.Put(PathKind(r), name, r.path);
      ghost var busy := pc.IsBusy();
      MovesOne(pc.at, pc.to);
      wild := DoGets(IsDir(r));
      if !wild {
        if pc.target.Some? {
          name := P.CStr(pc.target.value);
        }
        wr := wr + [Written(r.kind, name, r.info)];
      }
    }

    /** A get, or two. */
    method DoGets(two: bool) returns (wild: bool)
      requires P.Sound(pc.View())
      modifies pc
      ensures P.Sound(pc.View())
      ensures match SomeGets(old(pc.View()), two)
              case Wild => wild
              case Ended(f) => !wild && pc.View() == f
              case Moved(_, _, f) => !wild && pc.View() == f
      ensures old(pc.IsBusy() && |P.Moves(pc.at, pc.to)| == if two then 1 else 0) ==>
                !wild && pc.IsIdle() && pc.at == pc.to == old(pc.to)
    {
      hide P.GetF, P.Sound, P.Moves, P.Idle, P.Busy, P.Finishing;
      var more, kind, file;
      wild, more, kind, file := pc.Get();
      if two && !wild {
        wild, more, kind, file := pc.Get();
      }
    }

    /** In step the record is copied as it is. */
    method CopyInStep(r: Rec)
      requires Valid() && InStep(pc.at, r) && (r.kind == DirDown ==> r.info == NoInfo) && previous == Some(r)
      modifies this`wr, this`name, this`out, pc
      ensures Valid() && View() == CopyRec(old(View()), r)
    {
      IdleOff(pc.View(), pc.at);
      hide Readable, CopyRaw, PrintAll;
      var wild := CopyRecord(r);
      PrintMore(out, r);
      out := out + [r];
    }

    /** Looks for an entry: what comes before it is copied, or dropped. */
    method Get(name: Path, isdirup: bool, deleteto: bool) returns (g: StatusSpec.Got)
      requires Valid()
      modifies this, pc
      ensures Valid() && StatusSpec.Step(View(), g) == StatusSpec.Get(old(View()), Key(name, isdirup), !deleteto)
    {
      if eof {
        return Missing;
      }
      if error.Some? {
        return Failed;
      }
      var sr: Rec;
      if current.Some? {
        sr := current.value;
        current := None;
      } else {
        var r, parses := ReadNamed();
        if r == None {
          return if error.Some? then Failed else Missing;
        }
        if !parses {
          error := Some(ParseError);
          return Failed;
        }
        sr := r.value;
      }
      var k := Key(name, isdirup);
      var c := CompareRecord(sr, k);
      if c < 0 {
        if !deleteto {
          WriteRecord(sr);
        }
        g := Loop(k, deleteto);
      } else {
        current := Some(sr);
        g := if c == 0 then Present(sr) else Missing;
      }
    }

    method Loop(k: Key, deleteto: bool) returns (g: StatusSpec.Got)
      requires Valid() && current == None && error == None && (!deleteto ==> pc.at == NestAt(View().input))
      modifies this, pc
      ensures Valid() && StatusSpec.Step(View(), g) == Seek(old(View()), k, !deleteto)
    {
      ghost var s0 := View();
      hide Readable, Cmp, PrintAll, P.Idle, ReadRaw, Dir;
      while true
        invariant Valid() && current == None && error == None && (!deleteto ==> pc.at == NestAt(View().input))
        invariant Seek(s0, k, !deleteto) == Seek(View(), k, !deleteto)
        decreases |rd|
      {
        ReadNext(View().input);
        var r, parses := ReadNamed();
        if r == None {
          return if error.Some? then Failed else Missing;
        }
        var sr := r.value;
        var c := CompareRecord(sr, k);
        if c >= 0 {
          if !parses {
            error := Some(ParseError);
            return Failed;
          }
          current := Some(sr);
          return if c == 0 then Present(sr) else Missing;
        }
        if !deleteto {
          CopyInStep(sr);
        }
      }
    }

    /** Makes way for an entry: one of the same name goes, a directory with all that
        is in it for a checked-out file. */
    method Replace(sr: Rec) returns (ok: bool)
      requires Valid()
      modifies this, pc
      ensures Valid() && ok == PutWorks(old(View()), sr)
      ensures var g := StatusSpec.Get(old(View()), KeyOf(sr), true);
              View() == if g.got == Failed then g.s else MakeWay(g, sr).s
    {
      hide Readable, PrintAll, P.Idle, StatusSpec.Get;
      var old_ := Get(sr.path, sr.kind == DirUp, false);
      if old_ == Failed {
        return false;
      }
      if old_.Present? {
        if old_.rec.kind == DirDown {
          if sr.kind == CheckoutLive || sr.kind == CheckoutDead {
            var ret := Get(sr.path, true, true);
            return ret != Failed;
          }
        } else {
          current := None;
        }
      }
      ok := true;
    }

    /** Puts an entry, in place of one of the same name. */
    method Put(sr: Rec) returns (ok: bool)
      requires Valid()
      modifies this, pc
      ensures Valid() && View() == PutRec(old(View()), sr) && ok == PutWorks(old(View()), sr)
    {
      hide Readable, PrintAll, P.Idle, StatusSpec.Get, MakeWay, Emit;
      ok := Replace(sr);
      if ok {
        dirty := true;
        WriteRecord(sr);
      }
    }

    method Delete(name: Path, isdirup: bool) returns (ok: bool)
      requires Valid()
      modifies this, pc
      ensures Valid() && View() == DeleteRec(old(View()), Key(name, isdirup))
      ensures ok == (StatusSpec.Get(old(View()), Key(name, isdirup), true).got != Failed)
    {
      hide Readable, Seek, Travel, Emit, PrintAll;
      var sr := Get(name, isdirup, false);
      if sr.Present? {
        current := None;
        dirty := true;
      }
      ok := sr != Failed;
    }

    /** Copies the rest of the file, in step or not. */
    method CopyTail() returns (wild: bool)
      requires P.Sound(pc.View()) && Terminated(name) && current == None && error == None
      modifies this`rd, this`previous, this`name, this`depth, this`eof, this`error, this`wr, pc
      ensures P.Sound(pc.View())
      ensures match StatusTail.CopyTail(old(pc.View()), old(In()), old(name))
              case WildTail => wild
              case Stopped(e) => !wild && error == Some(e)
              case Rest(ws, f) => !wild && error == None && pc.View() == f && wr == old(wr) + ws
    {
      ghost var t, ws := StatusTail.CopyTail(pc.View(), In(), name), [];
      wild := false;
      hide P.Sound, CopyRaw, ReadAs;
      assert BehindAll([], t) == t && wr + [] == wr;
      while true
        invariant P.Sound(pc.View()) && Terminated(name) && current == None && error == None && wr == old(wr) + ws
        invariant t == BehindAll(ws, StatusTail.CopyTail(pc.View(), In(), name))
        decreases |rd|
      {
        ghost var f, i, last := pc.View(), In(), name;
        var r, parses := ReadRecord();
        if r == None {
          TailEnds(f, i, last);
          return;
        }
        NameChars(f, r.value);
        TailGoes(f, i, last, ws);
        wild := CopyRecord(r.value);
        if wild {
          return;
        }
        ws := ws + [Written(r.value.kind, name, r.value.info)];
      }
    }

    /** Ends an update: if something has changed the temporary file becomes the status
        file, unless there was an error. */
    method Close() returns (c: Option<Closing>)
      requires Valid() && error == None
      modifies this, pc
      ensures c == None <==> !old(dirty)
      ensures c.Some? ==>
                exists f :: P.Sound(f) && P.Idle(f, Caught(old(View())).at) && c.value == CloseF(Caught(old(View())), f)
    {
      if !dirty {
        return None;
      }
      hide Readable, PrintAll, P.Idle;
      ghost var s := Caught(View());
      if current.Some? {
        WriteRecord(current.value);
        current := None;
      }
      P.IdlePut(pc.View(), pc.at, P.File, []);
      NamedLast(In());
      hide P.Sound, StatusTail.CopyTail, LastUps;
      ghost var f := pc.View();
      assert View() == s && wr == PrintAll(s.out) && name == LastName(s.input);
      var wild := CopyTail();
      if wild {
        c := Some(Undefined);
      } else if error.Some? {
        c := Some(Aborted(error.value));
      } else {
        pc.Finish();
        wild := CloseDirs();
        c := Some(if wild then Undefined else Replaced(wr));
      }
      assert c.value == CloseF(s, f);
    }

    /** Leaves every directory that is still open. */
    method CloseDirs() returns (wild: bool)
      requires P.Sound(pc.View()) && pc.goal == pc.targetlen == 0 && pc.target == None
      modifies this`wr, pc
      ensures match LastUps(old(pc.View()))
              case None => wild
              case Some(us) => !wild && wr == old(wr) + us
    {
      ghost var us, all := [], LastUps(pc.View());
      var more := true;
      wild := false;
      assert wr + [] == wr;
      UpsAll(all);
      while more
        invariant P.Sound(pc.View()) && pc.goal == pc.targetlen == 0 && pc.target == None && !wild && wr == old(wr) + us
        invariant if more then all == UpsBehind(us, LastUps(pc.View())) else all == Some(us)
        decreases more, pc.curlen
      {
        var kind, file;
        ghost var f := pc.View();
        UpsNext(f, us);
        hide P.Sound, LastUps;
        wild, more, kind, file := pc.Get();
        if wild {
          return;
        }
        if more {
          wr := wr + [Written(DirUp, file, Bogus)];
          us := us + [Written(DirUp, file, Bogus)];
        }
      }
    }
  }

  function UpsBehind(ws: seq<Written>, us: Option<seq<Written>>): Option<seq<Written>> {
    if us.Some? then Some(ws + us.value) else None
  }

  lemma UpsAll(us: Option<seq<Written>>)
    ensures UpsBehind([], us) == us
  {
    if us.Some? { assert [] + us.value == us.value; }
  }

  lemma {:induction false} UpsNext(f: P.Fields, ws: seq<Written>)
    requires P.Sound(f) && f.goal == f.targetlen == 0 && f.target == None
    ensures match P.GetF(f)
            case Wild => LastUps(f) == None
            case Ended(f2) => f2 == f && UpsBehind(ws, LastUps(f)) == Some(ws)
            case Moved(_, n, f2) =>
              && P.Sound(f2) && f2.goal == f2.targetlen == 0 && f2.target == None && f2.curlen < f.curlen
              && UpsBehind(ws, LastUps(f)) == UpsBehind(ws + [Written(DirUp, n, Bogus)], LastUps(f2))
  {
    hide P.CStr, P.LastAt;
    assert ws + [] == ws;
    var g := P.GetF(f);
    if g.Moved? && LastUps(g.f).Some? {
      var w, us := Written(DirUp, g.name, Bogus), LastUps(g.f).value;
      assert ws + ([w] + us) == ws + [w] + us;
    }
  }

  lemma {:induction false} TailEnds(f: P.Fields, i: Input, last: string)
    requires P.Sound(f)
    ensures match ReadAs(i, last)
            case Bad(e, _) => StatusTail.CopyTail(f, i, last) == Stopped(e)
            case End(_) => StatusTail.CopyTail(f, i, last) == Rest([], f)
            case Got(_, _, _) => true
  {
    hide ReadAs;
  }

  lemma {:induction false} TailGoes(f: P.Fields, i: Input, last: string, ws: seq<Written>)
    requires P.Sound(f) && ReadAs(i, last).Got?
    ensures var r, rest := ReadAs(i, last).rec, ReadAs(i, last).rest;
            match CopyRaw(f, r)
            case WildCopy => StatusTail.CopyTail(f, i, last) == WildTail
            case Copied(name, f2) =>
              BehindAll(ws, StatusTail.CopyTail(f, i, last)) ==
              BehindAll(ws + [Written(r.kind, name, r.info)], StatusTail.CopyTail(f2, rest, name))
  {
    hide ReadAs;
    var r, rest, c := ReadAs(i, last).rec, ReadAs(i, last).rest, CopyRaw(f, ReadAs(i, last).rec);
    hide CopyRaw;
    if c.Copied? {
      var w, t := Written(r.kind, c.name, r.info), StatusTail.CopyTail(c.f, rest, c.name);
      if t.Rest? { assert ws + ([w] + t.lines) == ws + [w] + t.lines; }
    }
  }

  method CompareRecord(a: Rec, b: Key) returns (c: int)
    ensures c == Cmp(a, b)
  {
    P.JoinChars(a.path);
    P.JoinChars(b.path);
    c := StatusRecCmp(a.kind == DirUp, Join(a.path), b.up, Join(b.path));
  }

  lemma TravelDone(at: Path)
    ensures forall info :: Travel(at, at, info) == []
  {
    MovesOne(at, at);
  }

  lemma {:induction false} TravelEvent(at: Path, at2: Path, to: Path, written: seq<Rec>, info: Info)
    requires var es := P.Moves(at, to); es != [] && P.Moves(at2, to) == es[1..]
    ensures var e := P.Moves(at, to)[0];
            written + [EventRec(e, info)] + Travel(at2, to, NextInfo(e, info)) == written + Travel(at, to, info)
  {
    var es := P.Moves(at, to);
    assert es == [es[0]] + es[1..];
    RenderCons(es[0], es[1..], info);
    hide P.Moves, Render, EventRec, NextInfo;
    assert written + ([EventRec(es[0], info)] + Render(es[1..], NextInfo(es[0], info)))
        == written + [EventRec(es[0], info)] + Render(es[1..], NextInfo(es[0], info));
  }
}
