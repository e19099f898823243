/** Closing a changed status file: what is left of the old file is copied record by
    record, without asking the path compressor for more than a record in step needs.
    What that does on the compressor's own fields, in step or not. */
module StatusTail {
  import opened Lines
  import opened Paths
  import opened PathOrder
  import opened StatusList
  import opened StatusRead
  import opened StatusSpec
  import StatusSorted
  import P = PathComp

  /** A line of the written file. */
  datatype Written = Written(kind: Kind, file: string, info: Info)

  function Print(r: Rec): Written {
    Written(r.kind, Join(r.path), r.info)
  }

  function PrintAll(rs: seq<Rec>): (ws: seq<Written>)
    ensures |ws| == |rs| && forall i :: 0 <= i < |rs| ==> ws[i] == Print(rs[i])
  {
    if rs == [] then [] else [Print(rs[0])] + PrintAll(rs[1..])
  }

  lemma {:induction false} PrintMore(rs: seq<Rec>, r: Rec)
    ensures PrintAll(rs + [r]) == PrintAll(rs) + [Print(r)]
  {
  }

  lemma {:induction false} PrintPlus(a: seq<Rec>, b: seq<Rec>)
    ensures PrintAll(a + b) == PrintAll(a) + PrintAll(b)
  {
  }

  // ------------------------------------------------------------------- the code

  /** A get for a file, two for a directory. */
  function SomeGets(f: P.Fields, two: bool): (g: P.Gotten)
    requires P.Sound(f)
    ensures !g.Wild? ==> P.Sound(g.f)
  {
    var g := P.GetF(f);
    if g.Wild? || !two then g else P.GetF(g.f)
  }

  /** A record put through the compressor and printed as its buffer then is. */
  datatype Copy = WildCopy | Copied(name: string, f: P.Fields)

  lemma {:induction false} RelativeJoin(p: Path)
    ensures Relative(Join(p))
  {
    JoinEmpty(p);
  }

  function CopyRaw(f: P.Fields, r: Rec): (c: Copy)
    requires P.Sound(f)
    ensures c.Copied? ==> P.Sound(c.f)
  {
    RelativeJoin(r.path);
    match SomeGets(P.PutF(f, PathKind(r), Join(r.path)), IsDir(r))
    case Wild => WildCopy
    case Ended(f2) => Copied(NameIn(f2, r), f2)
    case Moved(_, _, f2) => Copied(NameIn(f2, r), f2)
  }

  /** What the buffer of the name holds. */
  function NameIn(f: P.Fields, r: Rec): string {
    if f.target.Some? then P.CStr(f.target.value) else Join(r.path)
  }

  datatype Tail = WildTail | Stopped(error: Error) | Rest(lines: seq<Written>, f: P.Fields)

  /** The rest of the file, read and copied; `last` is what the buffer of the record
      read last holds. */
  function CopyTail(f: P.Fields, i: Input, last: string): (t: Tail)
    requires P.Sound(f)
    ensures t.Rest? ==> P.Sound(t.f)
    decreases |i.lines|
  {
    match ReadAs(i, last)
    case Bad(e, _) => Stopped(e)
    case End(_) => Rest([], f)
    case Got(rec, _, rest) =>
      match CopyRaw(f, rec)
      case WildCopy => WildTail
      case Copied(name, f2) => Behind(Written(rec.kind, name, rec.info), CopyTail(f2, rest, name))
  }

  function Behind(w: Written, t: Tail): (u: Tail) {
    if t.Rest? then t.(lines := [w] + t.lines) else t
  }

  function BehindAll(ws: seq<Written>, t: Tail): (u: Tail) {
    if t.Rest? then t.(lines := ws + t.lines) else t
  }

  /** The directories left when no more path is to come. */
  function LastUps(f: P.Fields): Option<seq<Written>>
    requires P.Sound(f) && f.goal == f.targetlen == 0 && f.target == None
    decreases f.curlen
  {
    match P.GetF(f)
    case Wild => None
    case Ended(_) => Some([])
    case Moved(_, name, f2) =>
      match LastUps(f2)
      case None => None
      case Some(ws) => Some([Written(DirUp, name, Bogus)] + ws)
  }

  datatype Closing = Undefined | Aborted(error: Error) | Replaced(lines: seq<Written>)

  /** Closing with the compressor's fields `f`, no record being read ahead. */
  function CloseF(s: Session, f: P.Fields): Closing
    requires P.Sound(f)
  {
    match CopyTail(f, s.input, LastName(s.input))
    case WildTail => Undefined
    case Stopped(e) => Aborted(e)
    case Rest(ws, f2) =>
      match LastUps(P.FinishF(f2))
      case None => Undefined
      case Some(us) => Replaced(PrintAll(s.out) + ws + us)
  }

  /** The record that has been read ahead is written first. */
  function Caught(s: Session): Session {
    if s.current.Some? then WriteRec(s, s.current.value).(current := None) else s
  }

  /** A buffer of bytes of names, slashes and terminators. */
  predicate Bytes(s: string) {
    forall i :: 0 <= i < |s| ==> s[i] == '\0' || 2 <= s[i] as int < 128
  }

  lemma {:induction false} CStrBytes(s: string)
    requires Bytes(s)
    ensures Terminated(P.CStr(s))
  {
    if s != "" && s[0] != '\0' {
      CStrBytes(s[1..]);
    }
  }

  lemma {:induction false} GetBytes(f: P.Fields)
    requires P.Sound(f) && (f.target.Some? ==> Bytes(f.target.value))
    ensures var g := P.GetF(f); !g.Wild? && g.f.target.Some? ==> Bytes(g.f.target.value)
  {
    hide P.CStr, P.LastAt, P.NextSlash;
  }

  /** What is printed as a name is a string of such bytes. */
  lemma {:induction false} NameChars(f: P.Fields, r: Rec)
    requires P.Sound(f)
    ensures CopyRaw(f, r).Copied? ==> Terminated(CopyRaw(f, r).name)
  {
    RelativeJoin(r.path);
    P.JoinChars(r.path);
    var f1 := P.PutF(f, PathKind(r), Join(r.path));
    GetBytes(f1);
    var g := P.GetF(f1);
    hide P.GetF, Join, P.CStr;
    if !g.Wild? { GetBytes(g.f); }
    if CopyRaw(f, r).Copied? {
      var f2 := CopyRaw(f, r).f;
      if f2.target.Some? { CStrBytes(f2.target.value); }
    }
  }

  // ---------------------------------------------------------- where that leads to

  /** Undefined, refused by the reader's check of the order, or done, with the
      directory that is then left. */
  datatype Fate = Wrecked | Refused | Closes(at: Path)

  function GetCount(r: Rec): nat { if IsDir(r) then 2 else 1 }

  /** What becomes of copying records when the compressor's previous path is a prefix
      `base` of the path `whole` that it got to last.  When it `hangs` it has gone down
      to the reader's directory without being done with the path. */
  function FateFrom(whole: Path, base: Path, hangs: bool, rem: seq<Rec>): Fate
    requires base <= whole
    decreases |rem|, 1
  {
    if rem == [] then Closes(base)
    else
      var r, to := rem[0], Dir(rem[0]);
      var es, n := P.Moves(base, to), if hangs then GetCount(r) - 1 else GetCount(r);
      if hangs && (r.path == [] || |Join(Home(r))| > |Join(whole)|) then Wrecked
      else if |es| < n then Closes([])
      else if n == 0 then FateFrom(whole, base, false, rem[1..])
      else MovedFate(whole, base, r, rem[1..], n)
  }

  /** After the `n`th move, when there are so many: another record if it was upwards or
      ended at the directory that the record begins.  Otherwise the name is cut. */
  function MovedFate(whole: Path, base: Path, r: Rec, rest: seq<Rec>, n: nat): Fate
    requires base <= whole && 0 < n <= |P.Moves(base, Dir(r))|
    decreases |rest|, 2
  {
    match P.Moves(base, Dir(r))[n - 1]
    case Up(p) =>
      UpsLead(base, Dir(r), n);
      FateFrom(whole, Parent(p), false, rest)
    case Down(p) =>
      if r.kind == DirDown && p == Dir(r) then FateFrom(whole, Common(base, Dir(r)), true, rest)
      else if r.kind == DirUp then Refused
      else Wrecked
  }

  /** The directory in which a record follows as it is. */
  function Home(r: Rec): Path
    requires r.path != []
  {
    if r.kind == DirUp then r.path else Parent(r.path)
  }

  /** The moves up lead along the path. */
  lemma {:induction false} UpsLead(at: Path, to: Path, n: nat)
    requires 0 < n <= |P.Moves(at, to)| && P.Moves(at, to)[n - 1].Up?
    ensures var p := P.Moves(at, to)[n - 1].path;
            p != [] && p <= at && |p| == |at| - (n - 1) && |p| > |Common(at, to)|
    decreases n
  {
    if at <= to {
      P.MovesDown(at, to);
      DownsOnly(to, |at|, n - 1);
    } else {
      P.CommonParent(at, to);
      assert P.Moves(at, to) == [P.Up(at)] + P.Moves(Parent(at), to);
      if n > 1 {
        UpsLead(Parent(at), to, n - 1);
      }
    }
  }

  lemma {:induction false} DownsOnly(to: Path, n: nat, i: nat)
    requires n <= |to| && i < |P.Downs(to, n)|
    ensures |P.Downs(to, n)| == |to| - n && P.Downs(to, n)[i] == P.Down(to[..n + 1 + i])
    decreases i
  {
    DownsLength(to, n);
    if i > 0 {
      DownsOnly(to, n + 1, i - 1);
    }
  }

  lemma {:induction false} DownsLength(to: Path, n: nat)
    requires n <= |to|
    ensures |P.Downs(to, n)| == |to| - n
    decreases |to| - n
  {
    if n < |to| {
      DownsLength(to, n + 1);
    }
  }

  // ------------------------------------------------ the previous path, cut in places

  /** The buffer of the previous path still begins with `base`; behind that, the
      slashes are gone. */
  ghost predicate Chain(prev: string, whole: Path, base: Path) {
    && base <= whole && |prev| == |Join(whole)| && Join(base) <= prev && Relative(prev)
    && (forall i :: |Join(base)| <= i < |prev| ==> prev[i] == '\0' || prev[i] == Join(whole)[i])
    && (forall i :: |Join(base)| < i < |prev| ==> prev[i] != '/')
    && (base != whole && base != [] ==> |Join(base)| < |prev| && prev[|Join(base)|] == '/')
  }

  ghost predicate PrevIs(f: P.Fields, whole: Path, base: Path) {
    if f.prev.Some? then Chain(f.prev.value, whole, base) else whole == base == []
  }

  /** The directory is not in the part of the path that is gone. */
  predicate Apart(whole: Path, base: Path, to: Path)
    requires base <= whole
  {
    base == whole || !(whole[..|base| + 1] <= to)
  }

  lemma {:induction false} ChainStart(whole: Path)
    ensures Chain(Join(whole), whole, whole)
  {
    RelativeJoin(whole);
  }

  lemma {:induction false} BoundaryHere(prev: string, whole: Path, base: Path, c: Path)
    requires Chain(prev, whole, base) && c <= base
    ensures Join(c) <= prev && Boundary(prev, |Join(c)|)
  {
    PrefixStrings(c, base);
    JoinEmpty(c);
    hide Join;
    if |Join(c)| < |Join(base)| {
      assert Join(base)[|Join(c)|] == prev[|Join(c)|];
    }
  }

  /** What the previous path has in common with a directory. */
  lemma {:induction false} CommonChain(prev: string, whole: Path, base: Path, to: Path)
    requires Chain(prev, whole, base) && Apart(whole, base, to)
    ensures CommonLen(prev, Join(to)) == |Join(Common(base, to))|
  {
    var c, t := Common(base, to), Join(to);
    var r := CommonLen(prev, t);
    BoundaryHere(prev, whole, base, c);
    PrefixStrings(c, to);
    assert CommonBoundary(prev, t, |Join(c)|);
    hide CommonLen, Common;
    if r <= |Join(base)| {
      CommonShort(prev, whole, base, t, r);
      CommonLength(base, to);
    } else {
      CommonLong(prev, whole, base, to, r);
    }
  }

  lemma {:induction false} CommonShort(prev: string, whole: Path, base: Path, t: string, r: nat)
    requires Chain(prev, whole, base) && CommonBoundary(prev, t, r) && r <= |Join(base)|
    ensures r <= CommonLen(Join(base), t)
  {
    var b := Join(base);
    hide Join, CommonLen;
    assert b == prev[..|b|];
    assert b[..r] == prev[..r];
    if r < |b| { assert b[r] == prev[r]; }
    assert CommonBoundary(b, t, r);
  }

  lemma {:induction false} CommonLong(prev: string, whole: Path, base: Path, to: Path, r: nat)
    requires Chain(prev, whole, base) && CommonBoundary(prev, Join(to), r) && r > |Join(base)|
    ensures !Apart(whole, base, to)
  {
    var t := Join(to);
    P.JoinChars(to);
    PrefixStrings(base, whole);
    PrefixStrings(whole, to);
    hide Join;
    assert r == |prev|;
    assert prev == t[..r];
    forall i | 0 <= i < |prev| ensures prev[i] == Join(whole)[i] {
      assert prev[i] == t[..r][i] == t[i];
      if i < |Join(base)| { assert Join(base)[i] == prev[i]; }
    }
    assert prev == Join(whole);
    assert base != whole;
  }

  // ------------------------------------------------------------- one record copied

  /** Between two records: the compressor's previous path is a prefix of `whole`; it is
      there, or hangs at the reader's directory. */
  ghost predicate Off(f: P.Fields, whole: Path, base: Path, hangs: bool, nest: Path) {
    && P.Sound(f) && !f.stale && f.trashed == None && base <= whole && PrevIs(f, whole, base)
    && (if hangs then base <= nest && base != nest && f.curlen == |Join(nest)| else f.curlen == |Join(base)|)
  }

  lemma {:induction false} PutGoal(f: P.Fields, whole: Path, base: Path, kind: P.Kind, path: Path)
    requires P.Sound(f) && base <= whole && PrevIs(f, whole, base) && Apart(whole, base, P.Target(kind, path))
    ensures Relative(Join(path))
    ensures var to, g := P.Target(kind, path), P.PutF(f, kind, Join(path));
            var common := |Join(Common(base, to))|;
            && to <= path && g.target == Some(Join(path)) && g.targetlen == |Join(to)| && g.trashed == None
            && g.stale == (f.stale || f.trashed.Some?) && g.prev == f.prev && g.curlen == f.curlen
            && g.goal == if f.curlen == common then |Join(to)| else common
  {
    var to := P.Target(kind, path);
    P.TargetLenOf(kind, path);
    RelativeJoin(path);
    JoinEmpty([]);
    if f.prev.Some? { CommonChain(f.prev.value, whole, base, to); }
    hide Join, P.TargetLen, CommonLen, Chain, Apart;
  }

  /** A path put while the compressor is at its previous path. */
  lemma {:induction false} PutOff(f: P.Fields, whole: Path, base: Path, kind: P.Kind, path: Path)
    requires Off(f, whole, base, false, []) && Apart(whole, base, P.Target(kind, path))
    ensures Relative(Join(path))
    ensures var g := P.PutF(f, kind, Join(path)); P.Busy(g, base, P.Target(kind, path), path) && g.prev == f.prev
  {
    var to := P.Target(kind, path);
    PutGoal(f, whole, base, kind, path);
    P.CommonOf(base, to);
    JoinEmpty(base);
    hide Join, Common, P.PutF, Apart;
    if f.prev.Some? { assert f.prev.value[..f.curlen] == Join(base); }
  }

  lemma {:induction false} ChainUp(prev: string, whole: Path, base: Path)
    requires Chain(prev, whole, base) && base != []
    ensures Chain(P.Cut(prev, |Join(base)|), whole, Parent(base))
  {
    var n, m := |Join(base)|, |Join(Parent(base))|;
    P.LastSlash(base);
    PrefixStrings(base, whole);
    PrefixLength(base, whole);
    JoinEmpty(base);
    JoinEmpty(Parent(base));
    assert Parent(base) <= whole;
    var q, x := P.Cut(prev, n), base[|base| - 1];
    hide Join;
    assert Join(Parent(base)) <= q;
    forall i | m <= i < |q| ensures q[i] == '\0' || q[i] == Join(whole)[i] {
      if i < n { assert prev[i] == Join(base)[i] == Join(whole)[i]; }
    }
    forall i | m < i < |q| ensures q[i] != '/' {
      if i < n { InName(base, i); }
    }
    if Parent(base) != [] { assert prev[m] == Join(base)[m]; }
  }

  lemma {:induction false} InName(base: Path, i: nat)
    requires base != [] && |Join(Parent(base))| < i < |Join(base)|
    ensures Join(base)[i] != '/'
  {
    P.LastSlash(base);
    var x := base[|base| - 1];
    if |base| == 1 {
      assert Join(base)[i] == x[i];
    } else {
      assert Join(base)[i] == x[i - |Join(Parent(base))| - 1];
    }
  }

  /** A get that leaves a directory. */
  lemma {:induction false} GetUp(f: P.Fields, whole: Path, base: Path, to: Path, path: Path)
    requires P.Busy(f, base, to, path) && PrevIs(f, whole, base) && !(base <= to)
    ensures P.Sound(f) && base != []
    ensures var g := P.GetF(f);
            g.Moved? && P.Busy(g.f, Parent(base), to, path) && PrevIs(g.f, whole, Parent(base)) && g.f.trashed == None
  {
    P.BusyGet(f, base, to, path);
    P.Phase(f, base, to, path);
    P.CommonParent(base, to);
    assert P.Moves(base, to)[0] == P.Up(base);
    if f.prev.Some? { ChainUp(f.prev.value, whole, base); }
    hide Join, Chain, Common, P.Busy, P.Moves;
    assert P.GetF(f).f.prev == Some(P.Cut(f.prev.value, f.curlen));
  }

  /** A get that enters a directory. */
  lemma {:induction false} GetDown(f: P.Fields, at: Path, to: Path, path: Path)
    requires P.Busy(f, at, to, path) && at <= to && at != to
    ensures P.Sound(f)
    ensures var g, next := P.GetF(f), to[..|at| + 1];
            && g.Moved? && P.Busy(g.f, next, to, path) && g.f.prev == f.prev
            && (g.f.trashed.Some? <==> next != path)
  {
    P.BusyGet(f, at, to, path);
    P.Phase(f, at, to, path);
    var next := to[..|at| + 1];
    assert P.Moves(at, to)[0] == P.Down(next);
    P.RestoreStep(f, at, to, path);
    PrefixLength(next, path);
    hide Join, P.Moves;
    assert P.GetF(f).f.curlen == |Join(next)|;
  }

  /** The end of a path that has been got to. */
  lemma {:induction false} GetEnd(f: P.Fields, to: Path, path: Path)
    requires P.Busy(f, to, to, path)
    ensures P.Sound(f) && P.GetF(f).Ended? && P.Idle(P.GetF(f).f, to)
  {
    P.BusyGet(f, to, to, path);
    assert P.Moves(to, to) == [];
  }

  lemma {:induction false} GetIdle(f: P.Fields, at: Path)
    requires P.Idle(f, at)
    ensures P.Sound(f) && P.GetF(f) == P.Ended(f)
  {
    RelativeJoin(at);
  }

  /** What some gets do, from the previous path `base`. */
  ghost predicate Got(g: P.Gotten, whole: Path, base: Path, to: Path, path: Path, n: nat)
    requires n > 0
  {
    var es := P.Moves(base, to);
    if |es| < n then g.Ended? && P.Idle(g.f, to)
    else
      match es[n - 1]
      case Up(p) =>
        p != [] && g.Moved? && P.Busy(g.f, Parent(p), to, path) && PrevIs(g.f, whole, Parent(p)) && g.f.trashed == None
      case Down(p) =>
        && g.Moved? && p <= to && P.Busy(g.f, p, to, path) && PrevIs(g.f, whole, Common(base, to))
        && (g.f.trashed.Some? <==> p != path)
  }

  lemma {:induction false} GetOne(f: P.Fields, whole: Path, base: Path, to: Path, path: Path)
    requires P.Busy(f, base, to, path) && PrevIs(f, whole, base) && base <= whole
    ensures P.Sound(f) && Got(P.GetF(f), whole, base, to, path, 1)
  {
    hide P.Busy, PrevIs, P.Idle, P.GetF, P.Sound, Common;
    if !(base <= to) {
      GetUp(f, whole, base, to, path);
      assert P.Moves(base, to)[0] == P.Up(base);
    } else if base != to {
      GetDown(f, base, to, path);
      assert P.Moves(base, to)[0] == P.Down(to[..|base| + 1]);
      CommonBelow(base, to);
      SamePrev(f, P.GetF(f).f, whole, base);
    } else {
      GetEnd(f, to, path);
      assert P.Moves(base, to) == [];
    }
  }

  lemma {:induction false} CommonBelow(base: Path, to: Path)
    requires base <= to
    ensures Common(base, to) == base
  {
    CommonLongest(base, to, base);
  }

  lemma SamePrev(f: P.Fields, g: P.Fields, whole: Path, base: Path)
    requires PrevIs(f, whole, base) && g.prev == f.prev
    ensures PrevIs(g, whole, base)
  {
    hide Chain;
  }

  lemma {:induction false} GetTwo(f: P.Fields, whole: Path, base: Path, to: Path, path: Path)
    requires P.Busy(f, base, to, path) && PrevIs(f, whole, base) && base <= whole
    ensures P.Sound(f) && Got(SomeGets(f, true), whole, base, to, path, 2)
  {
    GetOne(f, whole, base, to, path);
    var g, es := P.GetF(f), P.Moves(base, to);
    if es == [] {
      hide P.Idle, P.GetF, P.Sound, P.Busy;
      GetIdle(g.f, to);
    } else if !(base <= to) {
      P.CommonParent(base, to);
      assert es == [P.Up(base)] + P.Moves(Parent(base), to);
      hide P.Idle, P.GetF, P.Sound, P.Busy, PrevIs, Common;
      GetOne(g.f, whole, Parent(base), to, path);
    } else {
      var next := to[..|base| + 1];
      assert es == [P.Down(next)] + P.Moves(next, to);
      hide P.Idle, P.GetF, P.Sound, P.Busy, PrevIs, Common;
      CommonBelow(base, to);
      DownOn(g.f, whole, base, next, to, path);
    }
  }

  lemma {:induction false} DownOn(f: P.Fields, whole: Path, base: Path, at: Path, to: Path, path: Path)
    requires P.Busy(f, at, to, path) && PrevIs(f, whole, base) && at <= to
    ensures P.Sound(f)
    ensures var g := P.GetF(f);
            if P.Moves(at, to) == [] then g.Ended? && P.Idle(g.f, to)
            else
              && P.Moves(at, to)[0].Down? && P.Moves(at, to)[0].path <= to
              && g.Moved? && P.Busy(g.f, P.Moves(at, to)[0].path, to, path) && PrevIs(g.f, whole, base)
              && (g.f.trashed.Some? <==> P.Moves(at, to)[0].path != path)
  {
    hide P.Busy, PrevIs, P.Idle, P.GetF, P.Sound;
    if at == to {
      GetEnd(f, to, path);
    } else {
      GetDown(f, at, to, path);
      SamePrev(f, P.GetF(f).f, whole, base);
    }
  }

  // --------------------------------------------------- hanging below the previous path

  /** From further down the previous path is cut in the wrong place, but left at the
      right one; or its buffer is left. */
  lemma {:induction false} UpHang(f: P.Fields, whole: Path, base: Path, nest: Path)
    requires P.Sound(f) && base <= whole && PrevIs(f, whole, base) && base <= nest && base != nest
    requires f.curlen == |Join(nest)| && f.goal == |Join(base)|
    ensures f.curlen > f.goal
    ensures |Join(nest)| > |Join(whole)| ==> P.UpF(f) == P.Wild
    ensures |Join(nest)| <= |Join(whole)| ==>
              var g := P.UpF(f);
              && g.Moved? && PrevIs(g.f, whole, base)
              && g.f == f.(prev := g.f.prev, curlen := |Join(base)|, goal := f.targetlen)
  {
    PrefixLength(base, nest);
    JoinEmpty(nest);
    JoinEmpty([]);
    if |Join(nest)| <= |Join(whole)| {
      var prev := f.prev.value;
      var p := P.Cut(prev, f.curlen);
      LastHang(prev, whole, base, f.curlen);
      hide Join, P.LastAt, P.CStr;
      assert Chain(p, whole, base);
    }
  }

  lemma {:induction false} LastHang(prev: string, whole: Path, base: Path, n: nat)
    requires Chain(prev, whole, base) && |Join(base)| < n <= |prev|
    ensures var slash := P.LastAt(P.Cut(prev, n), n, '/'); (if slash >= 0 then slash else 0) == |Join(base)|
  {
    JoinEmpty(base);
    var p, m := P.Cut(prev, n), |Join(base)|;
    var slash := P.LastAt(p, n, '/');
    hide Join, P.LastAt;
    assert slash < n && (slash >= 0 ==> p[slash] == prev[slash]);
    if base == whole { assert false; }
    if base != [] { assert p[m] == prev[m] == '/'; }
  }

  /** A record put while the compressor hangs at the reader's directory. */
  lemma {:induction false} PutHang(f: P.Fields, whole: Path, base: Path, nest: Path, r: Rec)
    requires Off(f, whole, base, true, nest) && InStep(nest, r) && Apart(whole, base, Dir(r))
    ensures Relative(Join(r.path))
    ensures var f1 := P.PutF(f, PathKind(r), Join(r.path));
            if |Join(nest)| > |Join(whole)| then P.GetF(f1) == P.Wild
            else
              var g := P.GetF(f1);
              && g.Moved? && P.Busy(g.f, base, Dir(r), r.path) && PrevIs(g.f, whole, base) && g.f.trashed == None
  {
    var to := Dir(r);
    BelowHome(base, nest, r);
    CommonBelow(base, to);
    PrefixLength(base, nest);
    PrefixLength(base, to);
    PutGoal(f, whole, base, PathKind(r), r.path);
    var f1 := P.PutF(f, PathKind(r), Join(r.path));
    hide Join, P.PutF, Common, PrevIs, P.UpF, Apart;
    SamePrev(f, f1, whole, base);
    UpHang(f1, whole, base, nest);
    if |Join(nest)| <= |Join(whole)| {
      var g := P.GetF(f1);
      BusyThere(g.f, base, to, r.path);
    }
  }

  lemma {:induction false} BusyThere(f: P.Fields, base: Path, to: Path, path: Path)
    requires base <= to <= path && P.Sound(f) && !f.stale && f.trashed == None
    requires f.target == Some(Join(path)) && f.targetlen == f.goal == |Join(to)| && f.curlen == |Join(base)|
    ensures P.Busy(f, base, to, path)
  {
    hide Join;
  }

  lemma {:induction false} BelowHome(base: Path, nest: Path, r: Rec)
    requires InStep(nest, r) && base <= nest && base != nest
    ensures base <= Dir(r)
  {
  }

  // ----------------------------------------------------------- what a copy comes to

  /** The name in the buffer: cut at the directory entered, or whole. */
  lemma {:induction false} NameBusy(f: P.Fields, at: Path, r: Rec)
    requires P.Busy(f, at, Dir(r), r.path)
    ensures NameIn(f, r) == Join(if f.trashed.Some? then at else r.path)
  {
    var t := Join(r.path);
    P.JoinChars(r.path);
    PrefixStrings(at, r.path);
    hide Join, P.CStr;
    if f.trashed.Some? {
      var i := f.trashed.value;
      assert at <= Dir(r) <= r.path;
      P.CStrOf(f.target.value, i);
    } else {
      P.CStrOf(t, |t|);
    }
  }

  lemma {:induction false} DownBelow(at: Path, to: Path, n: nat)
    requires 0 < n <= |P.Moves(at, to)| && P.Moves(at, to)[n - 1].Down?
    ensures var p := P.Moves(at, to)[n - 1].path; p <= to && Common(at, to) <= p && Common(at, to) != p
    decreases n
  {
    if at <= to {
      P.MovesDown(at, to);
      DownsOnly(to, |at|, n - 1);
      CommonBelow(at, to);
    } else {
      P.CommonParent(at, to);
      assert P.Moves(at, to) == [P.Up(at)] + P.Moves(Parent(at), to);
      DownBelow(Parent(at), to, n - 1);
    }
  }

  /** The state behind a name that has been cut. */
  ghost predicate Hurt(f: P.Fields, whole: Path, base: Path, p: Path, r: Rec) {
    && P.Busy(f, p, Dir(r), r.path) && f.trashed.Some? && PrevIs(f, whole, base)
    && base <= whole && base <= p && base != p && p <= Dir(r)
  }

  /** What is printed and left behind when the last get made is a move. */
  ghost predicate MovedAs(e: P.Event, name: string, f: P.Fields, whole: Path, base: Path, r: Rec)
    requires base <= whole
  {
    var to := Dir(r);
    match e
    case Up(p) => p != [] && Parent(p) <= whole && name == Join(r.path) && Off(f, whole, Parent(p), false, to)
    case Down(p) =>
      if p == r.path then name == Join(r.path) && Off(f, whole, Common(base, to), true, to)
      else p != [] && name == Join(p) && Hurt(f, whole, Common(base, to), p, r)
  }

  /** What copying one record comes to. */
  ghost predicate CopiedAs(c: Copy, whole: Path, base: Path, hangs: bool, r: Rec)
    requires r.path != [] && base <= whole
  {
    var to := Dir(r);
    var es, n := P.Moves(base, to), if hangs then GetCount(r) - 1 else GetCount(r);
    if hangs && |Join(Home(r))| > |Join(whole)| then c == WildCopy
    else
      && c.Copied?
      && if |es| < n then c.name == Join(r.path) && P.Idle(c.f, to)
         else if n == 0 then c.name == Join(r.path) && Off(c.f, whole, base, false, to)
         else MovedAs(es[n - 1], c.name, c.f, whole, base, r)
  }

  /** What some gets come to. */
  lemma {:induction false} GotCopied(g: P.Gotten, whole: Path, base: Path, r: Rec, n: nat)
    requires n > 0 && r.path != [] && base <= whole && Got(g, whole, base, Dir(r), r.path, n)
    ensures !g.Wild?
    ensures var es, to, name := P.Moves(base, Dir(r)), Dir(r), NameIn(g.f, r);
            if |es| < n then name == Join(r.path) && P.Idle(g.f, to)
            else MovedAs(es[n - 1], name, g.f, whole, base, r)
  {
    var es, to := P.Moves(base, Dir(r)), Dir(r);
    if |es| >= n {
      match es[n - 1]
      case Up(p) =>
        UpsLead(base, to, n);
        P.BusySound(g.f, Parent(p), to, r.path);
        NameBusy(g.f, Parent(p), r);
      case Down(p) =>
        DownBelow(base, to, n);
        P.BusySound(g.f, p, to, r.path);
        NameBusy(g.f, p, r);
    }
    hide Join, Common, P.Moves, PrevIs, P.Sound;
  }

  /** One record copied, in step or not. */
  lemma {:induction false} CopyOff(f: P.Fields, whole: Path, base: Path, hangs: bool, nest: Path, r: Rec)
    requires Off(f, whole, base, hangs, nest) && InStep(nest, r) && Apart(whole, base, Dir(r))
    ensures CopiedAs(CopyRaw(f, r), whole, base, hangs, r)
  {
    RelativeJoin(r.path);
    var to, f1 := Dir(r), P.PutF(f, PathKind(r), Join(r.path));
    var n := if hangs then GetCount(r) - 1 else GetCount(r);
    hide Join, P.PutF, Common, PrevIs, P.Busy, P.Idle, P.GetF, P.Sound, P.Moves, Apart, NameIn, Got, Hurt;
    if hangs {
      PutHang(f, whole, base, nest, r);
      assert Home(r) == nest;
      if |Join(nest)| <= |Join(whole)| {
        var f2 := P.GetF(f1).f;
        if IsDir(r) {
          GetOne(f2, whole, base, to, r.path);
          GotCopied(P.GetF(f2), whole, base, r, 1);
        } else {
          NameBusy(f2, base, r);
          BusyOff(f2, whole, base, r);
        }
      }
    } else {
      OffBase(f, whole, base, nest);
      PutOff(f, whole, base, PathKind(r), r.path);
      SamePrev(f, f1, whole, base);
      if IsDir(r) {
        GetTwo(f1, whole, base, to, r.path);
      } else {
        GetOne(f1, whole, base, to, r.path);
      }
      GotCopied(SomeGets(f1, IsDir(r)), whole, base, r, n);
    }
  }

  lemma OffBase(f: P.Fields, whole: Path, base: Path, nest: Path)
    requires Off(f, whole, base, false, nest)
    ensures Off(f, whole, base, false, []) && PrevIs(f, whole, base) && base <= whole
  {
  }

  lemma BusyOff(f: P.Fields, whole: Path, base: Path, r: Rec)
    requires P.Busy(f, base, Dir(r), r.path) && PrevIs(f, whole, base) && f.trashed == None && base <= whole
    ensures Off(f, whole, base, false, Dir(r))
  {
    P.BusySound(f, base, Dir(r), r.path);
    hide Join, PrevIs;
  }

  // ------------------------------------------------------------ the records to come

  /** No directory that is still to be entered is on the path. */
  predicate Fresh(whole: Path, xs: seq<Rec>) {
    forall k :: 0 <= k < |xs| && xs[k].kind == DirDown ==> !(xs[k].path <= whole)
  }

  lemma {:induction false} ApartNext(whole: Path, base: Path, nest: Path, r: Rec)
    requires base <= whole && Apart(whole, base, nest) && InStep(nest, r)
    requires r.kind == DirDown ==> !(r.path <= whole)
    ensures Apart(whole, base, Dir(r))
  {
    if base != whole {
      var next := whole[..|base| + 1];
      assert next <= Dir(r) && r.kind == DirDown ==> next == r.path;
    }
  }

  lemma {:induction false} ApartUp(whole: Path, base: Path, to: Path, n: nat)
    requires base <= whole && 0 < n <= |P.Moves(base, to)| && P.Moves(base, to)[n - 1].Up?
    ensures var p := P.Moves(base, to)[n - 1].path; p != [] && Parent(p) <= whole && Apart(whole, Parent(p), to)
  {
    UpsLead(base, to, n);
    var p := P.Moves(base, to)[n - 1].path;
    assert whole[..|p|] == p;
    if p <= to { CommonLongest(base, to, p); }
  }

  lemma {:induction false} ApartDown(whole: Path, base: Path, to: Path)
    requires base <= whole && Apart(whole, base, to)
    ensures Common(base, to) <= whole && Apart(whole, Common(base, to), to)
  {
    var c := Common(base, to);
    if c != base {
      var next := whole[..|c| + 1];
      assert next == base[..|c| + 1];
      if next <= to { CommonLongest(base, to, next); }
    }
  }

  /** The next record of a good file, whatever the buffer holds. */
  lemma {:induction false} ReadCut(i: Input, xs: seq<Rec>, last: string)
    requires GoodInput(i, xs) && xs != [] && i.prev.Some?
    ensures ReadAs(i, last) ==
            if RecCmp(i.prev.value.kind == DirUp, last, xs[0].kind == DirUp, Join(xs[0].path)) >= 0
            then Bad(Unsorted, i.(lines := Entries(xs[1..]), depth := |Dir(xs[0])|))
            else StatusRead.Got(xs[0], true, After(i, xs))
  {
    hide RecCmp, SortedFrom;
    assert i.lines[1..] == Entries(xs[1..]);
  }

  /** What is read after a name that has been cut comes behind that name, unless that
      is the end of a directory. */
  lemma {:induction false} CutOrder(p: Path, up: bool, nest: Path, r: Rec)
    requires InStep(nest, r) && p != [] && p <= nest
    ensures var c := RecCmp(up, Join(p), r.kind == DirUp, Join(r.path)); if up then c >= 0 else c < 0
  {
    var k := KeyOf(r);
    assert p <= k.path;
    RecCmpOrder(Key(p, up), k);
    SubtreeBetween(p, k);
    BeforeTotal(Key(p, false), k);
    BeforeTotal(Key(p, true), k);
    StatusSorted.BeginEnd(p);
    hide Before, RecCmp, Join;
    if k == Key(p, false) { assert false; }
  }

  lemma {:induction false} NextNest(i: Input, xs: seq<Rec>)
    requires GoodInput(i, xs) && xs != []
    ensures InStep(NestAt(i), xs[0]) && NestAt(After(i, xs)) == Dir(xs[0]) && xs[0].path != []
    ensures GoodInput(After(i, xs), xs[1..]) && After(i, xs).prev == Some(xs[0])
    ensures Dir(xs[0]) != [] ==> xs[1..] != []
    ensures LastName(After(i, xs)) == Join(xs[0].path)
    ensures ReadAs(i, LastName(i)) == StatusRead.Got(xs[0], true, After(i, xs))
  {
    NextGood(i, xs);
  }

  /** Behind a name cut in the end of a directory the reader finds the next record out
      of order. */
  lemma {:induction false} RefusedNext(f: P.Fields, i: Input, xs: seq<Rec>, p: Path)
    requires GoodInput(i, xs) && xs != [] && i.prev.Some? && i.prev.value.kind == DirUp && P.Sound(f)
    requires p != [] && p <= NestAt(i)
    ensures CopyTail(f, i, Join(p)) == Stopped(Unsorted)
  {
    NextNest(i, xs);
    ReadCut(i, xs, Join(p));
    CutOrder(p, true, NestAt(i), xs[0]);
    hide RecCmp, Join, CopyRaw, GoodInput;
  }

  /** Going on after a name that has been cut: a slash is put back into a buffer that
      is gone, if not at the next record then at the one after it. */
  lemma {:induction false} HurtTwice(f: P.Fields, whole: Path, base: Path, i: Input, xs: seq<Rec>)
    requires P.Sound(f) && f.stale && f.trashed == None && base <= whole && PrevIs(f, whole, base)
    requires f.curlen == |Join(base)| && GoodInput(i, xs) && Fresh(whole, xs) && Apart(whole, base, NestAt(i))
    requires base <= NestAt(i) && base != NestAt(i) && xs != []
    ensures CopyTail(f, i, LastName(i)) == WildTail
  {
    NextNest(i, xs);
    var r := xs[0];
    ApartNext(whole, base, NestAt(i), r);
    BelowHome(base, NestAt(i), r);
    CommonBelow(base, Dir(r));
    PutGoal(f, whole, base, PathKind(r), r.path);
    PrefixLength(base, Dir(r));
    hide Join, P.PutF, Common, PrevIs, GoodInput, Apart, P.UpF, ReadAs;
    var g := P.PutF(f, PathKind(r), Join(r.path));
    assert P.GetF(g) == P.Wild;
  }

  lemma {:induction false} HurtOnce(f: P.Fields, whole: Path, base: Path, p: Path, r: Rec, i: Input, xs: seq<Rec>)
    requires Hurt(f, whole, base, p, r) && GoodInput(i, xs) && i.prev == Some(r) && r.kind != DirUp && p != []
    requires Fresh(whole, xs) && Apart(whole, base, Dir(r)) && xs != [] && P.Sound(f)
    ensures CopyTail(f, i, Join(p)) == WildTail
  {
    var r2, nest := xs[0], Dir(r);
    NextNest(i, xs);
    ReadCut(i, xs, Join(p));
    CutOrder(p, false, nest, r2);
    ApartNext(whole, base, nest, r2);
    assert base <= nest && base != nest;
    hide RecCmp, Join, CopyTail, CopyRaw, GoodInput, ReadAs, Fresh, Apart;
    HurtCopy(f, whole, base, p, r, r2);
    TailStep(f, i, Join(p), r2, After(i, xs));
    if CopyRaw(f, r2).Copied? {
      HurtTwice(CopyRaw(f, r2).f, whole, base, After(i, xs), xs[1..]) by {
        FreshRest(whole, xs);
      }
    }
  }

  lemma FreshRest(whole: Path, xs: seq<Rec>)
    requires Fresh(whole, xs) && xs != []
    ensures Fresh(whole, xs[1..]) && (xs[0].kind == DirDown ==> !(xs[0].path <= whole))
  {
  }

  lemma {:induction false} TailStep(f: P.Fields, i: Input, last: string, r: Rec, rest: Input)
    requires P.Sound(f) && ReadAs(i, last) == StatusRead.Got(r, true, rest)
    ensures CopyTail(f, i, last) == OnAs(CopyRaw(f, r), r, rest)
  {
    hide ReadAs, CopyRaw;
  }

  /** The record behind a name that has been cut. */
  lemma {:induction false} HurtCopy(f: P.Fields, whole: Path, base: Path, p: Path, r: Rec, r2: Rec)
    requires Hurt(f, whole, base, p, r) && P.Sound(f) && InStep(Dir(r), r2) && Apart(whole, base, Dir(r2))
    ensures var c := CopyRaw(f, r2);
            c == WildCopy ||
            (!IsDir(r2) && c.Copied? && c.name == Join(r2.path) && c.f.stale && c.f.trashed == None &&
             c.f.curlen == |Join(base)| && PrevIs(c.f, whole, base))
  {
    var to, nest := Dir(r2), Dir(r);
    RelativeJoin(r2.path);
    BelowHome(base, nest, r2);
    CommonBelow(base, to);
    PrefixLength(base, p);
    PrefixLength(base, to);
    PutGoal(f, whole, base, PathKind(r2), r2.path);
    var f1 := P.PutF(f, PathKind(r2), Join(r2.path));
    assert f.curlen == |Join(p)|;
    P.JoinChars(r2.path);
    P.CStrOf(Join(r2.path), |Join(r2.path)|);
    hide Join, P.PutF, Common, PrevIs, P.UpF, Apart, P.Busy, P.CStr;
    SamePrev(f, f1, whole, base);
    UpHang(f1, whole, base, p);
    var g := P.GetF(f1);
    if g.Moved? && IsDir(r2) {
      assert P.GetF(g.f) == P.Wild;
    }
  }

  // ---------------------------------------------------------------- the whole rest

  /** What copying the rest comes to. */
  ghost predicate TailAs(t: Tail, fate: Fate, xs: seq<Rec>) {
    match fate
    case Wrecked => t == WildTail
    case Refused => t == Stopped(Unsorted)
    case Closes(at) => t.Rest? && P.Sound(t.f) && t.lines == PrintAll(xs) && P.Finishing(P.FinishF(t.f), at)
  }

  lemma {:induction false} TailNone(f: P.Fields, whole: Path, base: Path, i: Input)
    requires Off(f, whole, base, false, []) && GoodInput(i, [])
    ensures TailAs(CopyTail(f, i, LastName(i)), Closes(base), [])
  {
    P.NoCommon(base);
    JoinEmpty(base);
    NoneLeft(i);
    hide Join, Common;
    if f.prev.Some? { assert f.prev.value[..f.curlen] == Join(base); }
  }

  lemma TailCons(t: Tail, fate: Fate, r: Rec, xs: seq<Rec>)
    requires TailAs(t, fate, xs)
    ensures TailAs(Behind(Print(r), t), fate, [r] + xs)
  {
    assert ([r] + xs)[1..] == xs;
    hide P.Finishing;
  }

  lemma {:induction false} IdleOff(f: P.Fields, at: Path)
    requires P.Idle(f, at)
    ensures Off(f, at, at, false, at)
  {
    RelativeJoin(at);
    ChainStart(at);
    hide Join, Chain;
  }

  /** In step every record is copied as it is. */
  lemma {:induction false} TailInStep(f: P.Fields, i: Input, xs: seq<Rec>)
    requires P.Idle(f, NestAt(i)) && GoodInput(i, xs)
    ensures P.Sound(f) && TailAs(CopyTail(f, i, LastName(i)), Closes([]), xs)
    decreases |xs|
  {
    var at := NestAt(i);
    IdleOff(f, at);
    hide Off, P.Idle, P.Sound, Join, CopyTail, CopyRaw, TailAs, ReadAs, PrintAll, Behind;
    if xs == [] {
      assert at == [];
      OffBase(f, at, at, at);
      TailNone(f, at, at, i);
    } else {
      NextNest(i, xs);
      hide GoodInput, LastName;
      var r := xs[0];
      CopyOff(f, at, at, false, at, r);
      InStepMoves(at, r);
      TailStep(f, i, LastName(i), r, After(i, xs));
      var f2 := CopyRaw(f, r).f;
      TailInStep(f2, After(i, xs), xs[1..]);
      assert [r] + xs[1..] == xs;
      TailCons(CopyTail(f2, After(i, xs), LastName(After(i, xs))), Closes([]), r, xs[1..]);
    }
  }

  lemma {:induction false} InStepMoves(at: Path, r: Rec)
    requires InStep(at, r)
    ensures |P.Moves(at, Dir(r))| < GetCount(r)
  {
    MovesOne(at, Dir(r));
  }

  /** Out of step. */
  lemma {:induction false} TailOff(f: P.Fields, whole: Path, base: Path, hangs: bool, i: Input, xs: seq<Rec>)
    requires Off(f, whole, base, hangs, NestAt(i)) && GoodInput(i, xs) && Fresh(whole, xs)
    requires base <= whole && Apart(whole, base, NestAt(i))
    ensures P.Sound(f) && TailAs(CopyTail(f, i, LastName(i)), FateFrom(whole, base, hangs, xs), xs)
    decreases |xs|
  {
    hide P.Sound, Join, CopyTail, CopyRaw, TailAs, ReadAs, PrintAll, Behind, Apart, Fresh, PrevIs;
    if xs == [] {
      assert NestAt(i) == [] && !hangs;
      OffBase(f, whole, base, []);
      TailNone(f, whole, base, i);
    } else {
      NextNest(i, xs);
      FreshRest(whole, xs);
      hide GoodInput, LastName, Off, FateFrom;
      ApartNext(whole, base, NestAt(i), xs[0]);
      CopyOff(f, whole, base, hangs, NestAt(i), xs[0]);
      TailStep(f, i, LastName(i), xs[0], After(i, xs));
      TailOn(CopyRaw(f, xs[0]), whole, base, hangs, i, xs);
    }
  }

  /** One record more. */
  lemma {:induction false} TailOn(c: Copy, whole: Path, base: Path, hangs: bool, i: Input, xs: seq<Rec>)
    requires base <= whole && xs != [] && xs[0].path != [] && GoodInput(i, xs) && Fresh(whole, xs)
    requires Apart(whole, base, Dir(xs[0])) && CopiedAs(c, whole, base, hangs, xs[0]) && (c.Copied? ==> P.Sound(c.f))
    ensures TailAs(OnAs(c, xs[0], After(i, xs)), FateFrom(whole, base, hangs, xs), xs)
    decreases |xs|, 2
  {
    hide P.Sound, Join, CopyTail, TailAs, PrintAll, Apart, Fresh, GoodInput, LastName, Off, P.Moves, P.Idle, Hurt,
         Common, Dir, Home, FateFrom, OnAs, MovedFate, CopiedAs, MovedAs, After;
    var r := xs[0];
    var es, n := P.Moves(base, Dir(r)), if hangs then GetCount(r) - 1 else GetCount(r);
    FateStep(whole, base, hangs, xs);
    if hangs && |Join(Home(r))| > |Join(whole)| {
      assert c == WildCopy by { CopiedParts(c, whole, base, hangs, r); }
      TailWild(c, r, After(i, xs), xs);
    } else if |es| < n {
      CopiedParts(c, whole, base, hangs, r);
      TailThere(c, i, xs);
    } else if n == 0 {
      CopiedParts(c, whole, base, hangs, r);
      TailStay(c, whole, base, i, xs);
    } else {
      CopiedMoved(c, whole, base, hangs, r);
      TailMoved(c, whole, base, i, xs, n);
    }
  }

  lemma TailWild(c: Copy, r: Rec, rest: Input, xs: seq<Rec>)
    requires c == WildCopy
    ensures TailAs(OnAs(c, r, rest), Wrecked, xs)
  {
  }

  lemma {:induction false} CopiedParts(c: Copy, whole: Path, base: Path, hangs: bool, r: Rec)
    requires r.path != [] && base <= whole && CopiedAs(c, whole, base, hangs, r)
    ensures var es, n := P.Moves(base, Dir(r)), if hangs then GetCount(r) - 1 else GetCount(r);
            if hangs && |Join(Home(r))| > |Join(whole)| then c == WildCopy
            else
              && c.Copied? && (|es| < n ==> c.name == Join(r.path) && P.Idle(c.f, Dir(r)))
              && (|es| >= n == 0 ==> c.name == Join(r.path) && Off(c.f, whole, base, false, Dir(r)))
  {
    hide P.Idle, Off, P.Moves, Join, Dir, Home, Hurt, Common;
  }

  lemma {:induction false} CopiedMoved(c: Copy, whole: Path, base: Path, hangs: bool, r: Rec)
    requires r.path != [] && base <= whole && CopiedAs(c, whole, base, hangs, r)
    requires !(hangs && |Join(Home(r))| > |Join(whole)|)
    requires 0 < (if hangs then GetCount(r) - 1 else GetCount(r)) <= |P.Moves(base, Dir(r))|
    ensures c.Copied?
    ensures var n := if hangs then GetCount(r) - 1 else GetCount(r);
            MovedAs(P.Moves(base, Dir(r))[n - 1], c.name, c.f, whole, base, r)
  {
    hide P.Idle, Off, P.Moves, Join, Dir, Home, Hurt, Common, MovedAs;
  }

  function OnAs(c: Copy, r: Rec, rest: Input): Tail
    requires c.Copied? ==> P.Sound(c.f)
  {
    match c
    case WildCopy => WildTail
    case Copied(name, f2) => Behind(Written(r.kind, name, r.info), CopyTail(f2, rest, name))
  }

  lemma {:induction false} FateStep(whole: Path, base: Path, hangs: bool, xs: seq<Rec>)
    requires base <= whole && xs != [] && xs[0].path != []
    ensures var r, to := xs[0], Dir(xs[0]);
            var es, n := P.Moves(base, to), if hangs then GetCount(r) - 1 else GetCount(r);
            FateFrom(whole, base, hangs, xs) ==
            if hangs && |Join(Home(r))| > |Join(whole)| then Wrecked
            else if |es| < n then Closes([])
            else if n == 0 then FateFrom(whole, base, false, xs[1..])
            else MovedFate(whole, base, r, xs[1..], n)
  {
    hide P.Moves, Common, Join, Dir;
  }

  lemma {:induction false} TailThere(c: Copy, i: Input, xs: seq<Rec>)
    requires xs != [] && GoodInput(i, xs)
    requires c.Copied? && P.Sound(c.f) && c.name == Join(xs[0].path) && P.Idle(c.f, Dir(xs[0]))
    ensures TailAs(OnAs(c, xs[0], After(i, xs)), Closes([]), xs)
    decreases |xs|, 0
  {
    var r, rest := xs[0], After(i, xs);
    NextNest(i, xs);
    assert [r] + xs[1..] == xs;
    hide P.Sound, Join, CopyTail, TailAs, PrintAll, GoodInput, LastName, P.Idle, Dir;
    TailInStep(c.f, rest, xs[1..]);
    TailCons(CopyTail(c.f, rest, LastName(rest)), Closes([]), r, xs[1..]);
  }

  lemma {:induction false} TailStay(c: Copy, whole: Path, base: Path, i: Input, xs: seq<Rec>)
    requires base <= whole && xs != [] && GoodInput(i, xs) && Fresh(whole, xs) && Apart(whole, base, Dir(xs[0]))
    requires c.Copied? && P.Sound(c.f) && c.name == Join(xs[0].path) && Off(c.f, whole, base, false, Dir(xs[0]))
    ensures TailAs(OnAs(c, xs[0], After(i, xs)), FateFrom(whole, base, false, xs[1..]), xs)
    decreases |xs|, 0
  {
    var r, rest := xs[0], After(i, xs);
    NextNest(i, xs);
    FreshRest(whole, xs);
    assert [r] + xs[1..] == xs;
    hide P.Sound, Join, CopyTail, TailAs, PrintAll, GoodInput, LastName, Off, Dir, FateFrom, Fresh, Apart;
    TailOff(c.f, whole, base, false, rest, xs[1..]);
    TailCons(CopyTail(c.f, rest, LastName(rest)), FateFrom(whole, base, false, xs[1..]), r, xs[1..]);
  }

  lemma {:induction false} TailMoved(c: Copy, whole: Path, base: Path, i: Input, xs: seq<Rec>, n: nat)
    requires base <= whole && xs != [] && GoodInput(i, xs) && Fresh(whole, xs) && Apart(whole, base, Dir(xs[0]))
    requires xs[0].path != [] && 0 < n <= |P.Moves(base, Dir(xs[0]))| && c.Copied? && P.Sound(c.f)
    requires MovedAs(P.Moves(base, Dir(xs[0]))[n - 1], c.name, c.f, whole, base, xs[0])
    ensures TailAs(OnAs(c, xs[0], After(i, xs)), MovedFate(whole, base, xs[0], xs[1..], n), xs)
    decreases |xs|, 1
  {
    var r, rest, to := xs[0], After(i, xs), Dir(xs[0]);
    hide P.Sound, Join, CopyTail, TailAs, PrintAll, GoodInput, LastName, Off, Dir, FateFrom, Fresh, Apart, Hurt,
         P.Moves, Common, OnAs;
    match P.Moves(base, to)[n - 1]
    case Up(p) =>
      ApartUp(whole, base, to, n);
      TailStay(c, whole, Parent(p), i, xs);
    case Down(p) =>
      ApartDown(whole, base, to);
      DownBelow(base, to, n);
      TailDown(c, whole, base, i, xs, p);
  }

  lemma WildAs(xs: seq<Rec>)
    ensures TailAs(WildTail, Wrecked, xs)
    ensures TailAs(Stopped(Unsorted), Refused, xs)
  {
  }

  lemma {:induction false} TailDown(c: Copy, whole: Path, base: Path, i: Input, xs: seq<Rec>, p: Path)
    requires base <= whole && xs != [] && GoodInput(i, xs) && Fresh(whole, xs)
    requires c.Copied? && P.Sound(c.f) && xs[0].path != []
    requires var r, b2 := xs[0], Common(base, Dir(xs[0]));
             && b2 <= whole && Apart(whole, b2, Dir(r)) && p <= Dir(r) && b2 <= p && b2 != p
             && if p == r.path then c.name == Join(r.path) && Off(c.f, whole, b2, true, Dir(r))
                else p != [] && c.name == Join(p) && Hurt(c.f, whole, b2, p, r)
    ensures var r, b2 := xs[0], Common(base, Dir(xs[0]));
            TailAs(OnAs(c, r, After(i, xs)),
                   if r.kind == DirDown && p == Dir(r) then FateFrom(whole, b2, true, xs[1..])
                   else if r.kind == DirUp then Refused
                   else Wrecked, xs)
    decreases |xs|, 0
  {
    var r, rest := xs[0], After(i, xs);
    var to, b2 := Dir(r), Common(base, Dir(r));
    NextNest(i, xs);
    FreshRest(whole, xs);
    assert [r] + xs[1..] == xs;
    assert r.kind == DirDown ==> to == r.path;
    assert r.kind != DirDown ==> to == Parent(r.path);
    hide P.Sound, Join, CopyTail, CopyRaw, TailAs, ReadAs, PrintAll, Apart, Fresh, PrevIs, GoodInput, LastName, Off,
         P.Moves, P.Idle, Hurt, InStep, Common, Dir, FateFrom;
    if p == r.path {
      TailOff(c.f, whole, b2, true, rest, xs[1..]);
      TailCons(CopyTail(c.f, rest, LastName(rest)), FateFrom(whole, b2, true, xs[1..]), r, xs[1..]);
    } else if r.kind == DirUp {
      RefusedNext(c.f, rest, xs[1..], p);
      WildAs(xs);
    } else {
      HurtOnce(c.f, whole, b2, p, r, rest, xs[1..]);
      WildAs(xs);
    }
  }

  // ------------------------------------------------------------------- the closing

  lemma {:induction false} UpsTravel(at: Path)
    ensures at == [] ==> Travel(at, [], Bogus) == []
    ensures at != [] ==> Travel(at, [], Bogus) == [Rec(DirUp, at, Bogus)] + Travel(Parent(at), [], Bogus)
  {
    if at != [] {
      RenderCons(P.Up(at), P.Moves(Parent(at), []), Bogus);
    }
  }

  /** Every directory that is left is closed. */
  lemma {:induction false} LastUpsAre(f: P.Fields, at: Path)
    requires P.Finishing(f, at) && P.Sound(f)
    ensures f.goal == 0 && LastUps(f) == Some(PrintAll(Travel(at, [], Bogus)))
    decreases |at|
  {
    P.FinishingGet(f, at);
    P.NoCommon(at);
    UpsTravel(at);
    hide P.Finishing, P.Sound, Join, Travel, P.GetF;
    if at != [] {
      LastUpsAre(P.GetF(f).f, Parent(at));
      var r, us := Rec(DirUp, at, Bogus), Travel(Parent(at), [], Bogus);
      assert ([r] + us)[1..] == us;
    }
  }

  /** What becomes of the file when a session in which something changed is closed. */
  datatype Outcome = Wild | Kept(ok: bool) | New(file: seq<Rec>)

  function LeftAs(s: Session, rem: seq<Rec>): Outcome {
    match FateFrom(s.at, s.at, false, rem)
    case Wrecked => Wild
    case Refused => Kept(false)
    case Closes(at) => New(s.out + rem + Travel(at, [], Bogus))
  }

  /** That is what the code does. */
  ghost predicate Does(c: Closing, o: Outcome) {
    match o
    case Wild => c == Undefined
    case Kept(_) => c == Aborted(Unsorted)
    case New(file) => c == Replaced(PrintAll(file))
  }

  lemma {:induction false} FateInStep(at: Path, rem: seq<Rec>)
    requires rem != [] && InStep(at, rem[0])
    ensures FateFrom(at, at, false, rem) == Closes([])
  {
    InStepMoves(at, rem[0]);
  }

  /** The fields of the compressor lead where its directories say, in step or not. */
  lemma {:induction false} ClosesAs(s: Session, rem: seq<Rec>, f: P.Fields)
    requires Good(s, rem) && s.current == None && P.Idle(f, s.at)
    requires rem == [] || s.at == NestAt(s.input) || Fresh(s.at, rem)
    ensures P.Sound(f) && Does(CloseF(s, f), LeftAs(s, rem))
  {
    hide P.Sound, Join, CopyTail, PrintAll, GoodInput, LastName, P.Idle, Apart, Fresh, LastUps, Off, P.Finishing,
         Travel, InStep, NestAt, CloseF;
    var i := s.input;
    IdleOff(f, s.at);
    if rem == [] {
      OffBase(f, s.at, s.at, s.at);
      TailNone(f, s.at, s.at, i);
      ClosesRest(s, rem, f, s.at);
    } else if s.at == NestAt(i) {
      NextNest(i, rem);
      FateInStep(s.at, rem);
      TailInStep(f, i, rem);
      ClosesRest(s, rem, f, []);
    } else {
      OffAny(f, s.at, NestAt(i));
      assert Apart(s.at, s.at, NestAt(i)) by { ApartSelf(s.at, NestAt(i)); }
      hide FateFrom;
      TailOff(f, s.at, s.at, false, i, rem);
      var fate := FateFrom(s.at, s.at, false, rem);
      if fate.Closes? { ClosesRest(s, rem, f, fate.at); } else { ClosesNot(s, rem, f, fate); }
    }
  }

  lemma {:induction false} ClosesNot(s: Session, rem: seq<Rec>, f: P.Fields, fate: Fate)
    requires P.Sound(f) && !fate.Closes? && TailAs(CopyTail(f, s.input, LastName(s.input)), fate, rem)
    ensures CloseF(s, f) == if fate == Wrecked then Undefined else Aborted(Unsorted)
  {
    hide P.Sound, Join, CopyTail, LastName, LastUps;
  }

  lemma OffAny(f: P.Fields, at: Path, nest: Path)
    requires Off(f, at, at, false, at)
    ensures Off(f, at, at, false, nest)
  {
  }

  lemma ApartSelf(at: Path, to: Path)
    ensures Apart(at, at, to)
  {
  }

  lemma {:induction false} ClosesRest(s: Session, rem: seq<Rec>, f: P.Fields, at: Path)
    requires P.Sound(f) && TailAs(CopyTail(f, s.input, LastName(s.input)), Closes(at), rem)
    ensures CloseF(s, f) == Replaced(PrintAll(s.out + rem + Travel(at, [], Bogus)))
  {
    var t := CopyTail(f, s.input, LastName(s.input));
    hide P.Sound, Join, CopyTail, LastName, LastUps, P.Finishing, PrintAll;
    LastUpsAre(P.FinishF(t.f), at);
    PrintPlus(s.out, rem);
    PrintPlus(s.out + rem, Travel(at, [], Bogus));
  }
}
