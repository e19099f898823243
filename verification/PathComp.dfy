/** The path compressor: given the paths of entries in turn, says which directories
    to leave and which to enter. */
module PathComp {
  import opened Lines
  import opened Paths

  datatype Kind = DirDown | File | DirUp

  datatype Event = Down(path: Path) | Up(path: Path)

  /** The directory an entry leaves the compressor in. */
  function Target(kind: Kind, p: Path): Path {
    if kind == DirDown || p == [] then p else Parent(p)
  }

  /** The directory one is in after an event. */
  function After(e: Event): Path {
    match e
    case Down(p) => p
    case Up(p) => if p == [] then [] else Parent(p)
  }

  /** Out of directories until the goal is below, then into directories. */
  function Moves(at: Path, to: Path): seq<Event>
    decreases if at <= to then 0 else 1, if at <= to then |to| - |at| else |at|
  {
    if at == to then []
    else if at <= to then [Down(to[..|at| + 1])] + Moves(to[..|at| + 1], to)
    else [Up(at)] + Moves(Parent(at), to)
  }

  // ----------------------------------------------------------- what moves achieve

  function Ups(at: Path, n: nat): seq<Event>
    requires n <= |at|
  {
    if n == |at| then [] else [Up(at)] + Ups(Parent(at), n)
  }

  function Downs(to: Path, n: nat): seq<Event>
    requires n <= |to|
    decreases |to| - n
  {
    if n == |to| then [] else [Down(to[..n + 1])] + Downs(to, n + 1)
  }

  lemma {:induction false} MovesDown(at: Path, to: Path)
    requires at <= to
    ensures Moves(at, to) == Downs(to, |at|)
    decreases |to| - |at|
  {
    if at != to {
      MovesDown(to[..|at| + 1], to);
    }
  }

  /** Exactly to the longest common directory prefix, then exactly the target's
      remaining directories. */
  lemma {:induction false} MovesCommon(at: Path, to: Path)
    ensures Moves(at, to) == Ups(at, |Common(at, to)|) + Downs(to, |Common(at, to)|)
    decreases |at|
  {
    if at <= to {
      CommonLongest(at, to, at);
      MovesDown(at, to);
    } else {
      CommonParent(at, to);
      MovesCommon(Parent(at), to);
      assert [Up(at)] + (Ups(Parent(at), |Common(at, to)|) + Downs(to, |Common(at, to)|))
          == [Up(at)] + Ups(Parent(at), |Common(at, to)|) + Downs(to, |Common(at, to)|);
    }
  }

  lemma {:induction false} CommonParent(at: Path, to: Path)
    requires !(at <= to)
    ensures at != [] && Common(Parent(at), to) == Common(at, to) && |Common(at, to)| < |at|
  {
    var c, d := Common(at, to), Common(Parent(at), to);
    assert c != at;
    assert c <= Parent(at);
    CommonLongest(Parent(at), to, c);
    CommonLongest(at, to, d);
  }

  /** Events are balanced from `at`: each enters a child of the current directory
      or leaves the current directory; the result is where they end. */
  function Walk(at: Path, es: seq<Event>): Option<Path>
    decreases |es|
  {
    if es == [] then Some(at)
    else
      match es[0]
      case Down(p) => if p != [] && Parent(p) == at then Walk(p, es[1..]) else None
      case Up(p) => if p != [] && p == at then Walk(Parent(p), es[1..]) else None
  }

  lemma {:induction false} WalkPlus(at: Path, es: seq<Event>, fs: seq<Event>)
    requires Walk(at, es).Some?
    ensures Walk(at, es + fs) == Walk(Walk(at, es).value, fs)
    decreases |es|
  {
    if es == [] {
      assert es + fs == fs;
    } else {
      assert (es + fs)[1..] == es[1..] + fs;
      WalkPlus(After(es[0]), es[1..], fs);
    }
  }

  lemma {:induction false} WalkMoves(at: Path, to: Path)
    ensures Walk(at, Moves(at, to)) == Some(to)
    decreases if at <= to then 0 else 1, if at <= to then |to| - |at| else |at|
  {
    if at == to {
    } else if at <= to {
      assert Parent(to[..|at| + 1]) == at;
      WalkMoves(to[..|at| + 1], to);
    } else {
      WalkMoves(Parent(at), to);
    }
  }

  /** The events of a whole run of puts, closed off at the end. */
  function RunMoves(at: Path, targets: seq<Path>): seq<Event>
    decreases |targets|
  {
    if targets == [] then Moves(at, []) else Moves(at, targets[0]) + RunMoves(targets[0], targets[1..])
  }

  /** Over any run, every directory entered is left again, innermost first. */
  lemma {:induction false} RunBalanced(at: Path, targets: seq<Path>)
    ensures Walk(at, RunMoves(at, targets)) == Some([])
    decreases |targets|
  {
    if targets == [] {
      WalkMoves(at, []);
    } else {
      WalkMoves(at, targets[0]);
      WalkPlus(at, Moves(at, targets[0]), RunMoves(targets[0], targets[1..]));
      RunBalanced(targets[0], targets[1..]);
    }
  }

  // ------------------------------------------------------------- strings in place

  /** The string up to its terminator. */
  function CStr(s: string): string {
    if s == "" || s[0] == '\0' then "" else [s[0]] + CStr(s[1..])
  }

  lemma {:induction false} CStrOf(s: string, k: nat)
    requires k <= |s| && (k == |s| || s[k] == '\0')
    requires forall i :: 0 <= i < k ==> s[i] != '\0'
    ensures CStr(s) == s[..k]
  {
    if k > 0 {
      CStrOf(s[1..], k - 1);
      assert s[..k] == [s[0]] + s[1..][..k - 1];
    }
  }

  lemma {:induction false} JoinChars(p: Path)
    ensures Terminated(Join(p))
  {
    if |p| > 1 {
      JoinChars(p[1..]);
    }
  }

  /** The last slash of a path is where its parent ends. */
  lemma {:induction false} LastSlash(p: Path)
    requires p != []
    ensures Join(p) == if |p| == 1 then p[0] else Join(Parent(p)) + "/" + p[|p| - 1]
  {
    hide Join;
    JoinSnoc(Parent(p), p[|p| - 1]);
    assert Parent(p) + [p[|p| - 1]] == p;
  }

  /** Where the next name begins behind a directory's string. */
  function Start(at: Path): (n: nat)
    ensures n == if |Join(at)| == 0 then 0 else |Join(at)| + 1
  {
    JoinEmpty(at);
    if at == [] then 0 else |Join(at)| + 1
  }

  /** Where the name behind `at` is in a path's string. */
  lemma {:induction false} NameAt(path: Path, at: Path, next: Path)
    requires |at| < |path| && at == path[..|at|] && next == path[..|at| + 1]
    ensures Start(at) <= |Join(next)| <= |Join(path)| && Join(next) == Join(path)[..|Join(next)|]
    ensures Join(next)[Start(at)..] == path[|at|]
    ensures |Join(next)| == |Join(path)| || Join(path)[|Join(next)|] == '/'
  {
    PrefixBoundary(path, |next|);
    assert at + [path[|at|]] == next;
    JoinSnoc(at, path[|at|]);
    hide Join, IsName;
    if at != [] {
      assert Join(next) == Join(at) + "/" + path[|at|];
    }
  }

  /** The last place of `c` before position `n`; -1 when there is none. */
  method LastIndex(s: string, n: nat, c: char) returns (r: int)
    requires n <= |s|
    ensures IsLastIndex(s, n, c, r)
  {
    r := n - 1;
    while r >= 0
      invariant -1 <= r < n && forall i :: r < i < n ==> s[i] != c
    {
      if s[r] == c {
        return;
      }
      r := r - 1;
    }
  }

  predicate IsLastIndex(s: string, n: nat, c: char, r: int)
    requires n <= |s|
  {
    -1 <= r < n && (r >= 0 ==> s[r] == c) && forall i :: r < i < n ==> s[i] != c
  }

  lemma {:induction false} UpPrefix(p: Path)
    requires p != []
    ensures Join(Parent(p)) <= Join(p)
  {
    LastSlash(p);
  }

  /** The last slash says where the parent's string ends. */
  lemma {:induction false} ParentEnds(p: Path, s: string, slash: int)
    requires p != [] && Join(p) <= s && IsLastIndex(s, |Join(p)|, '/', slash)
    ensures (if slash == -1 then 0 else slash) == |Join(Parent(p))|
  {
    LastSlash(p);
    var n, x := |Join(Parent(p))|, p[|p| - 1];
    if |p| == 1 {
      assert forall i :: 0 <= i < |x| ==> s[i] == x[i];
      assert Parent(p) == [];
    } else {
      assert s[n] == Join(p)[n] == '/';
      assert forall i :: n < i < |Join(p)| ==> s[i] == Join(p)[i] == x[i - n - 1];
    }
  }

  /** Nothing is to be left exactly when the whole path is in common. */
  lemma {:induction false} CommonOf(at: Path, to: Path)
    ensures |Join(at)| == |Join(Common(at, to))| <==> at <= to
    ensures |Join(at)| >= |Join(Common(at, to))|
  {
    PrefixLength(Common(at, to), at);
    if at <= to {
      CommonLongest(at, to, at);
    }
  }

  // ------------------------------------------------------- the compressor's state

  /** The fields of a compressor.  The target is the buffer of the name put last, in
      which `trashed` is where a slash is overwritten.  It is `stale` when the slash
      still to be put back is in a buffer that is gone. */
  datatype Fields = Fields(
    target: Option<string>, targetlen: nat, trashed: Option<nat>, stale: bool,
    prev: Option<string>, goal: nat, curlen: nat)

  /** The fields of a compressor at any time. */
  predicate Sound(f: Fields) {
    && (f.curlen < f.goal ==> f.target.Some? && f.goal <= |f.target.value|)
    && (f.target.Some? ==> f.targetlen <= |f.target.value| && Relative(f.target.value))
    && (f.target == None ==> f.targetlen == 0)
    && (f.prev.Some? ==> Relative(f.prev.value))
    && (f.trashed.Some? ==> f.target.Some? && 0 < f.trashed.value < |f.target.value|)
  }

  /** The overwritten slash is put back. */
  function Restore(f: Fields): Fields
    requires f.target.Some? && (f.trashed.Some? ==> f.trashed.value < |f.target.value|)
  {
    if f.trashed.Some? then f.(target := Some(f.target.value[f.trashed.value := '/']), trashed := None) else f
  }

  /** What a get does: an event, the end of the path, or something undefined, when it
      leaves the previous path's buffer or writes into one that is gone. */
  datatype Gotten = Wild | Ended(f: Fields) | Moved(kind: Kind, name: string, f: Fields)

  function LastAt(s: string, n: nat, c: char): (r: int)
    requires n <= |s|
    ensures IsLastIndex(s, n, c, r)
  {
    if n == 0 then -1 else if s[n - 1] == c then n - 1 else LastAt(s, n - 1, c)
  }

  /** The first slash from `start` on, or the end. */
  function NextSlash(s: string, start: nat, end: nat): (r: nat)
    requires start <= end <= |s|
    ensures start <= r <= end && (r < end ==> s[r] == '/') && forall i :: start <= i < r ==> s[i] != '/'
    decreases end - start
  {
    if start == end || s[start] == '/' then start else NextSlash(s, start + 1, end)
  }

  /** How much of the name is the directory an entry leads to. */
  function TargetLen(kind: Kind, name: string): (n: nat)
    ensures n <= |name|
  {
    if kind == DirDown then |name| else (var slash := LastAt(name, |name|, '/'); if slash == -1 then 0 else slash)
  }

  /** A relative path is put. */
  function PutF(f: Fields, kind: Kind, name: string): (g: Fields)
    requires Sound(f) && Relative(name)
    ensures Sound(g)
  {
    var n := TargetLen(kind, name);
    var common := if f.prev.Some? then CommonLen(f.prev.value, name[..n]) else 0;
    Fields(Some(name), n, None, f.stale || f.trashed.Some?, f.prev, if f.curlen == common then n else common, f.curlen)
  }

  function Cut(s: string, i: nat): (t: string)
    ensures |t| == |s|
  {
    if i < |s| then s[i := '\0'] else s
  }

  function UpF(f: Fields): (g: Gotten)
    requires Sound(f) && f.curlen > f.goal
    ensures (g.Moved? ==> Sound(g.f) && g.kind == DirUp) && !g.Ended?
  {
    if f.prev == None || f.curlen > |f.prev.value| then Wild
    else
      var p := Cut(f.prev.value, f.curlen);
      var slash := LastAt(p, f.curlen, '/');
      var c: nat := if slash >= 0 then slash else 0;
      Moved(DirUp, CStr(p), f.(prev := Some(p), curlen := c, goal := if c <= f.goal then f.targetlen else f.goal))
  }

  function DownF(f: Fields): (g: Gotten)
    requires Sound(f) && f.curlen < f.goal
    ensures (g.Moved? ==> Sound(g.f) && g.kind == DirDown) && !g.Ended?
  {
    if f.stale then Wild
    else
      var t := Restore(f).target.value;
      var slash := NextSlash(t, if f.curlen == 0 then 0 else f.curlen + 1, f.goal);
      Moved(DirDown, CStr(Cut(t, slash)),
            f.(target := Some(Cut(t, slash)), trashed := if slash < |t| then Some(slash) else None, curlen := slash))
  }

  function GetF(f: Fields): (g: Gotten)
    requires Sound(f)
    ensures !g.Wild? ==> Sound(g.f)
  {
    if f.curlen > f.goal then UpF(f)
    else if f.curlen < f.goal then DownF(f)
    else if f.target == None then Ended(f)
    else if f.stale then Wild
    else
      var t := Restore(f).target.value;
      Ended(f.(target := None, targetlen := 0, trashed := None, prev := Some(t[..f.targetlen])))
  }

  /** No more path is to come; a slash still to be put back is not looked at again. */
  function FinishF(f: Fields): (g: Fields)
    requires Sound(f)
    ensures Sound(g)
  {
    f.(target := None, targetlen := 0, trashed := None, stale := f.stale || f.trashed.Some?, goal := 0)
  }

  /** Nothing is being worked on: the directory `at` has been reached. */
  ghost predicate Idle(f: Fields, at: Path) {
    && f.target == None && f.targetlen == 0 && f.trashed == None && !f.stale && f.goal == f.curlen == |Join(at)|
    && (f.prev == None ==> at == []) && (f.prev.Some? ==> f.prev.value == Join(at))
  }

  /** Out of the previous path's directories. */
  ghost predicate Leaving(f: Fields, at: Path, to: Path) {
    && f.trashed == None && f.prev.Some? && f.curlen <= |f.prev.value| && f.prev.value[..f.curlen] == Join(at)
    && f.goal == |Join(Common(at, to))|
  }

  /** Into the target's directories; the slash behind the one reached may be
      overwritten. */
  ghost predicate Entering(f: Fields, to: Path, path: Path) {
    && f.target.Some? && f.goal == |Join(to)|
    && (match f.trashed
        case None => f.target.value == Join(path)
        case Some(i) => i == f.curlen < |Join(path)| && f.target.value == Join(path)[i := '\0'] && Join(path)[i] == '/')
  }

  /** `path` has been put, `at` reached and `to` is to be reached. */
  ghost predicate Busy(f: Fields, at: Path, to: Path, path: Path) {
    && f.curlen == |Join(at)| && f.target.Some? && to <= path && f.targetlen == |Join(to)| && !f.stale
    && (f.prev.Some? ==> Relative(f.prev.value))
    && (if at <= to then Entering(f, to, path) else Leaving(f, at, to) && f.target.value == Join(path))
  }

  /** No more path is to come: every directory is to be left. */
  ghost predicate Finishing(f: Fields, at: Path) {
    && f.target == None && f.targetlen == 0 && f.curlen == |Join(at)| && f.trashed == None
    && (f.prev.Some? ==> Relative(f.prev.value))
    && (at == [] ==> f.goal == 0) && (at != [] ==> Leaving(f, at, []))
  }

  lemma {:induction false} NoCommon(at: Path)
    ensures Common(at, []) == [] && Join([]) == ""
  {
  }

  /** The first goal of a path that has been put. */
  lemma {:induction false} PutStep(f: Fields, at: Path, to: Path, path: Path, common: nat)
    requires f.curlen == |Join(at)| && f.trashed == None && !f.stale && f.prev.Some? && f.prev.value == Join(at)
    requires to <= path && f.target == Some(Join(path)) && f.targetlen == |Join(to)|
    requires common == |Join(Common(at, to))|
    ensures Busy(f.(goal := if f.curlen == common then f.targetlen else common), at, to, path)
  {
    CommonOf(at, to);
    JoinEmpty(at);
    hide Join, Common;
    assert f.prev.value[..f.curlen] == Join(at);
  }

  /** The previous path cut at the directory left, and what is left of it. */
  lemma {:induction false} UpStep(f: Fields, at: Path, to: Path, prev2: string, slash: int)
    requires Leaving(f, at, to) && f.curlen == |Join(at)| && !(at <= to)
    requires prev2 == if f.curlen < |f.prev.value| then f.prev.value[f.curlen := '\0'] else f.prev.value
    requires IsLastIndex(prev2, f.curlen, '/', slash)
    ensures var curlen := if slash >= 0 then slash else 0;
            curlen == |Join(Parent(at))| && curlen <= |prev2| && prev2[..curlen] == Join(Parent(at)) &&
            (curlen <= f.goal <==> Parent(at) <= to) && f.goal == |Join(Common(Parent(at), to))|
    ensures CStr(prev2) == Join(at)
  {
    hide Join, Common, IsName, CStr;
    CommonParent(at, to);
    assert prev2[..f.curlen] == f.prev.value[..f.curlen] == Join(at);
    CutHolds(at, prev2);
    ParentEnds(at, prev2, slash);
    CommonOf(Parent(at), to);
  }

  /** A buffer that holds a path's string, terminated, holds its parent's too. */
  lemma {:induction false} CutHolds(at: Path, s: string)
    requires at != [] && |Join(at)| <= |s| && s[..|Join(at)|] == Join(at)
    requires |s| == |Join(at)| || s[|Join(at)|] == '\0'
    ensures CStr(s) == Join(at)
    ensures |Join(Parent(at))| <= |s| && s[..|Join(Parent(at))|] == Join(Parent(at))
  {
    JoinChars(at);
    UpPrefix(at);
    hide Join, CStr;
    assert forall i :: 0 <= i < |Join(at)| ==> s[i] == Join(at)[i];
    CStrOf(s, |Join(at)|);
  }

  lemma NoSlashInside(s: string, start: nat, end: nat, x: Name)
    requires start <= end <= |s| && s[..end][start..] == x
    ensures forall i :: start <= i < end ==> s[i] != '/'
  {
    assert forall i :: start <= i < end ==> s[i] == s[..end][start..][i - start] == x[i - start];
  }

  /** Where the next directory of the target ends. */
  lemma {:induction false} DownPlace(at: Path, to: Path, path: Path, next: Path)
    requires at <= to && at != to && to <= path && next == to[..|at| + 1]
    ensures Start(at) <= |Join(next)| <= |Join(to)| <= |Join(path)| && Join(path)[..|Join(next)|] == Join(next)
    ensures |Join(next)| == |Join(path)| || Join(path)[|Join(next)|] == '/'
    ensures forall i :: Start(at) <= i < |Join(next)| ==> Join(path)[i] != '/'
  {
    assert at == path[..|at|] && next == path[..|at| + 1];
    PrefixLength(next, to);
    PrefixLength(to, path);
    NameAt(path, at, next);
    hide Join, IsName, Start;
    NoSlashInside(Join(path), Start(at), |Join(next)|, path[|at|]);
  }

  /** The target cut behind the directory entered. */
  lemma DownStep(f: Fields, at: Path, to: Path, path: Path, slash: nat)
    requires f.trashed == None && Busy(f, at, to, path) && at <= to && at != to
    requires slash == |Join(to[..|at| + 1])|
    ensures slash <= |f.target.value|
    ensures var target2 := if slash < |f.target.value| then f.target.value[slash := '\0'] else f.target.value;
            var trashed2 := if slash < |f.target.value| then Some(slash) else None;
            CStr(target2) == Join(to[..|at| + 1]) &&
            Busy(f.(target := Some(target2), trashed := trashed2, curlen := slash), to[..|at| + 1], to, path)
  {
    DownPlace(at, to, path, to[..|at| + 1]);
    JoinChars(path);
    hide Join, IsName;
    var target2 := if slash < |f.target.value| then f.target.value[slash := '\0'] else f.target.value;
    assert target2[..slash] == Join(to[..|at| + 1]);
    CStrOf(target2, slash);
  }

  lemma {:induction false} RestoreStep(f: Fields, at: Path, to: Path, path: Path)
    requires Busy(f, at, to, path) && at <= to
    ensures f.target.Some? && (f.trashed.Some? ==> f.trashed.value < |f.target.value|) && to <= path
    ensures Busy(Restore(f), at, to, path) && Restore(f).trashed == None && Restore(f).target == Some(Join(path))
  {
    hide Join;
    if f.trashed.Some? {
      var i := f.trashed.value;
      assert Join(path)[i := '\0'][i := '/'] == Join(path);
    }
  }

  /** How far the compressor is shows in its lengths. */
  lemma Phase(f: Fields, at: Path, to: Path, path: Path)
    ensures Busy(f, at, to, path) ==>
            (f.curlen > f.goal <==> !(at <= to)) && (f.curlen < f.goal <==> at <= to && at != to)
    ensures Finishing(f, at) && to == [] ==> (f.curlen > f.goal <==> at != []) && f.curlen >= f.goal
  {
    CommonOf(at, to);
    PrefixLengths(at, to);
    JoinEmpty(at);
    NoCommon(at);
    hide Join, Common;
  }

  // ----------------------------------------------------- the steps keep the phases

  lemma {:induction false} BusySound(f: Fields, at: Path, to: Path, path: Path)
    requires Busy(f, at, to, path)
    ensures Sound(f)
  {
    PrefixLength(to, path);
    JoinEmpty(path);
    CommonOf(at, to);
    PrefixLength(Common(at, to), to);
    hide Join, Common;
  }

  lemma {:induction false} TargetLenOf(kind: Kind, p: Path)
    ensures var n := TargetLen(kind, Join(p));
            Target(kind, p) <= p && n == |Join(Target(kind, p))| && Join(p)[..n] == Join(Target(kind, p))
  {
    var name := Join(p);
    if kind != DirDown && p != [] {
      ParentEnds(p, name, LastAt(name, |name|, '/'));
      UpPrefix(p);
      hide Join;
    } else {
      assert name[..|name|] == name;
    }
  }

  /** A path that is put is worked on. */
  lemma {:induction false} IdlePut(f: Fields, at: Path, kind: Kind, path: Path)
    requires Idle(f, at)
    ensures Sound(f) && Relative(Join(path)) && Busy(PutF(f, kind, Join(path)), at, Target(kind, path), path)
  {
    JoinEmpty(path);
    JoinEmpty(at);
    TargetLenOf(kind, path);
    var to := Target(kind, path);
    hide Join, TargetLen;
    if f.prev.Some? {
      CommonLength(at, to);
      PutStep(f.(target := Some(Join(path)), targetlen := |Join(to)|), at, to, path, |Join(Common(at, to))|);
    } else {
      NoPrevious(f, to, path);
    }
    hide CommonLen, Common;
  }

  lemma {:induction false} NoPrevious(f: Fields, to: Path, path: Path)
    requires Idle(f, []) && f.prev == None && to <= path
    ensures Busy(Fields(Some(Join(path)), |Join(to)|, None, false, None, |Join(to)|, 0), [], to, path)
  {
    hide Common;
  }

  /** A get does the next move, or ends the path when there is none. */
  lemma {:induction false} BusyGet(f: Fields, at: Path, to: Path, path: Path)
    requires Busy(f, at, to, path)
    ensures Sound(f)
    ensures Moves(at, to) == [] ==>
              at == to && GetF(f).Ended? && Idle(GetF(f).f, at) && GetF(f).f.prev == Some(Join(at))
    ensures Moves(at, to) != [] ==>
              var e := Moves(at, to)[0];
              && GetF(f).Moved? && GetF(f).kind == (if e.Down? then DirDown else DirUp) && GetF(f).name == Join(e.path)
              && Busy(GetF(f).f, After(e), to, path) && Moves(After(e), to) == Moves(at, to)[1..]
  {
    BusySound(f, at, to, path);
    Phase(f, at, to, path);
    hide Join, Common, Busy, Sound, UpF, DownF;
    if f.curlen > f.goal {
      BusyUp(f, at, to, path);
    } else if f.curlen < f.goal {
      BusyDown(f, at, to, path);
    } else {
      BusyEnd(f, to, path);
    }
  }

  lemma {:induction false} BusyUp(f: Fields, at: Path, to: Path, path: Path)
    requires Busy(f, at, to, path) && Sound(f) && !(at <= to) && f.curlen > f.goal
    ensures var g := UpF(f);
            && g.Moved? && g.kind == DirUp && g.name == Join(at) && at != [] && Busy(g.f, Parent(at), to, path)
  {
    hide Join, Common, CStr;
    var p := Cut(f.prev.value, f.curlen);
    UpStep(f, at, to, p, LastAt(p, f.curlen, '/'));
  }

  lemma {:induction false} BusyDown(f: Fields, at: Path, to: Path, path: Path)
    requires Busy(f, at, to, path) && Sound(f) && at <= to && at != to && f.curlen < f.goal
    ensures var g, next := DownF(f), to[..|at| + 1];
            && g.Moved? && g.kind == DirDown && g.name == Join(next) && Busy(g.f, next, to, path)
  {
    var next := to[..|at| + 1];
    RestoreStep(f, at, to, path);
    DownPlace(at, to, path, next);
    Lengths(Restore(f), at, to, path);
    var t := Join(path);
    hide Join, CStr, Busy;
    assert Restore(f).target.value == t && !f.stale && f.goal == |Join(to)|;
    var slash := NextSlash(t, Start(at), f.goal);
    assert slash == |Join(next)| by { NextEnds(at, to, next, t, slash); }
    DownStep(Restore(f), at, to, path, slash);
  }

  lemma {:induction false} NextEnds(at: Path, to: Path, next: Path, t: string, slash: nat)
    requires at <= to && at != to && next == to[..|at| + 1]
    requires Start(at) <= |Join(next)| <= |Join(to)| <= |t| && slash == NextSlash(t, Start(at), |Join(to)|)
    requires |Join(next)| == |t| || t[|Join(next)|] == '/'
    requires forall i :: Start(at) <= i < |Join(next)| ==> t[i] != '/'
    ensures slash == |Join(next)|
  {
    hide Join, NextSlash;
  }

  lemma {:induction false} BusyEnd(f: Fields, to: Path, path: Path)
    requires Busy(f, to, to, path) && Sound(f) && f.curlen == f.goal
    ensures var g := GetF(f); g.Ended? && Idle(g.f, to) && g.f.prev == Some(Join(to))
  {
    RestoreStep(f, to, to, path);
    PrefixStrings(to, path);
    hide Join;
    assert f.curlen == f.targetlen == |Join(to)|;
  }

  /** When no more path is to come a get leaves a directory. */
  lemma {:induction false} FinishingGet(f: Fields, at: Path)
    requires Finishing(f, at)
    ensures Sound(f)
    ensures at == [] ==> GetF(f) == Ended(f)
    ensures at != [] ==>
              && GetF(f).Moved? && GetF(f).kind == DirUp && GetF(f).name == Join(at)
              && Finishing(GetF(f).f, Parent(at))
  {
    Phase(f, at, [], []);
    NoCommon(at);
    hide Join, Common, CStr;
    if at != [] {
      NoCommon(Parent(at));
      var p := Cut(f.prev.value, f.curlen);
      UpStep(f, at, [], p, LastAt(p, f.curlen, '/'));
    }
  }

  lemma {:induction false} IdleFinish(f: Fields, at: Path)
    requires Idle(f, at)
    ensures Sound(f) && Finishing(FinishF(f), at)
  {
    NoCommon(at);
    JoinEmpty(at);
    assert f.prev.Some? ==> f.prev.value[..f.curlen] == f.prev.value;
    hide Join, Common;
  }

  method FindSlash(s: string, start: nat, end: nat) returns (slash: nat)
    requires start <= end <= |s|
    ensures slash == NextSlash(s, start, end)
  {
    slash := start;
    while slash < end && s[slash] != '/'
      invariant start <= slash <= end && NextSlash(s, start, end) == NextSlash(s, slash, end)
    {
      slash := slash + 1;
    }
  }

  class PathComp {
    var target: Option<string>
    var targetlen: nat
    var trashed: Option<nat>
    var stale: bool
    var prev: Option<string>
    var goal: nat
    var curlen: nat
    ghost var at: Path       // the directory that has been reached
    ghost var to: Path       // the one to be reached
    ghost var path: Path     // the path put last

    function View(): Fields
      reads this
    {
      Fields(target, targetlen, trashed, stale, prev, goal, curlen)
    }

    ghost predicate IsIdle()
      reads this
    {
      Idle(View(), at)
    }

    ghost predicate IsBusy()
      reads this
    {
      Busy(View(), at, to, path)
    }

    ghost predicate IsFinishing()
      reads this
    {
      Finishing(View(), at) && to == []
    }

    constructor ()
      ensures IsIdle() && at == []
    {
      curlen, target, targetlen, trashed, stale, prev, goal := 0, None, 0, None, false, None, 0;
      at, to, path := [], [], [];
    }

    /** Puts a path; an absolute one is refused. */
    method Put(kind: Kind, name: string, ghost p: Path) returns (ok: bool)
      requires Sound(View()) && (name == Join(p) || !Relative(name))
      modifies this
      ensures at == old(at) && ok == Relative(name)
      ensures View() == if ok then PutF(old(View()), kind, name) else old(View())
      ensures ok && old(IsIdle()) ==> IsBusy() && to == Target(kind, p) && path == p
    {
      if name != "" && name[0] == '/' {
        return false;
      }
      ok := true;
      if IsIdle() { IdlePut(View(), at, kind, p); }
      hide Busy, Idle, PutF, Sound;
      path, to := p, Target(kind, p);
      Take(kind, name);
    }

    /** The name becomes the target, and how far to go up is found out. */
    method Take(kind: Kind, name: string)
      requires Sound(View()) && Relative(name)
      modifies this`target, this`targetlen, this`trashed, this`stale, this`goal
      ensures View() == PutF(old(View()), kind, name)
    {
      hide CommonLen, LastAt;
      stale, trashed := stale || trashed.Some?, None;
      target := Some(name);
      targetlen := |name|;
      if kind != DirDown {
        var slash := LastIndex(name, |name|, '/');
        targetlen := if slash == -1 then 0 else slash;
      }
      if prev.Some? {
        goal := CommonPathLength(prev.value, name[..targetlen]);
      } else {
        goal := 0;
      }
      if curlen == goal {
        goal := targetlen;
      }
    }

    /** One directory up: the previous path is cut at the one left. */
    method GoUp() returns (wild: bool, name: string)
      requires Sound(View()) && curlen > goal
      modifies this`prev, this`curlen, this`goal
      ensures match UpF(old(View()))
              case Wild => wild && View() == old(View())
              case Ended(_) => false
              case Moved(_, n, f) => !wild && name == n && View() == f
    {
      wild, name := prev == None || curlen > |prev.value|, "";
      if !wild {
        if curlen < |prev.value| {
          prev := Some(prev.value[curlen := '\0']);
        }
        var slash := LastIndex(prev.value, curlen, '/');
        name := CStr(prev.value);
        curlen := if slash >= 0 then slash else 0;
        if curlen <= goal {
          goal := targetlen;
        }
      }
    }

    /** One directory down: the target is cut behind the one entered. */
    method GoDown() returns (wild: bool, name: string)
      requires Sound(View()) && curlen < goal
      modifies this`target, this`trashed, this`curlen
      ensures match DownF(old(View()))
              case Wild => wild && View() == old(View())
              case Ended(_) => false
              case Moved(_, n, f) => !wild && name == n && View() == f
    {
      wild, name := stale, "";
      if !wild {
        if trashed.Some? {
          target := Some(target.value[trashed.value := '/']);
          trashed := None;
        }
        var slash := FindSlash(target.value, if curlen == 0 then 0 else curlen + 1, goal);
        if slash < |target.value| {
          trashed := Some(slash);
          target := Some(target.value[slash := '\0']);
        }
        curlen := slash;
        name := CStr(target.value);
      }
    }

    /** The next directory to leave or to enter, if there is one.  Nothing is defined
        when a slash would be put back into a buffer that is gone, or the previous path
        be cut behind its end. */
    method Get() returns (wild: bool, more: bool, kind: Kind, name: string)
      requires Sound(View())
      modifies this
      ensures to == old(to) && path == old(path)
      ensures match GetF(old(View()))
              case Wild => wild && View() == old(View())
              case Ended(f) => !wild && !more && View() == f
              case Moved(k, n, f) => !wild && more && kind == k && name == n && View() == f
      ensures old(IsBusy() || IsFinishing()) ==>
                && !wild && more == (Moves(old(at), to) != []) && (if old(IsBusy()) && !more then IsIdle() else true)
                && (!more ==> at == old(at) == to && (old(IsBusy()) || IsFinishing()))
      ensures old(IsBusy() || IsFinishing()) && more ==>
                var e := Moves(old(at), to)[0];
                kind == (if e.Down? then DirDown else DirUp) && name == Join(e.path) && at == After(e) &&
                Moves(at, to) == Moves(old(at), to)[1..] && (if old(IsBusy()) then IsBusy() else IsFinishing())
    {
      hide Join, Common, IsName, UpF, DownF, Sound;
      if IsBusy() {
        BusyGet(View(), at, to, path);
        at := if Moves(at, to) == [] then at else After(Moves(at, to)[0]);
      } else if IsFinishing() {
        FinishingGet(View(), at);
        at := if Moves(at, to) == [] then at else After(Moves(at, to)[0]);
      }
      hide Moves, Busy, Finishing, Idle;
      wild, more, kind, name := false, true, DirUp, "";
      if curlen > goal {
        wild, name := GoUp();
      } else if curlen < goal {
        kind := DirDown;
        wild, name := GoDown();
      } else {
        more := false;
        wild := Reached();
      }
    }

    /** The target is the next previous path. */
    method Reached() returns (wild: bool)
      requires Sound(View()) && curlen == goal
      modifies this`target, this`targetlen, this`trashed, this`prev
      ensures match GetF(old(View()))
              case Wild => wild && View() == old(View())
              case Ended(f) => !wild && View() == f
              case Moved(_, _, _) => false
    {
      wild := target.Some? && stale;
      if target.Some? && !wild {
        if trashed.Some? {
          target := Some(target.value[trashed.value := '/']);
          trashed := None;
        }
        prev := Some(target.value[..targetlen]);
        target, targetlen := None, 0;
      }
    }

    /** No more path is to come. */
    method Finish()
      requires Sound(View())
      modifies this
      ensures at == old(at) && View() == FinishF(old(View()))
      ensures old(IsIdle()) ==> IsFinishing()
    {
      if IsIdle() { IdleFinish(View(), at); }
      target, targetlen, stale, trashed, goal := None, 0, stale || trashed.Some?, None, 0;
      to := [];
    }
  }

  lemma {:induction false} Lengths(f: Fields, at: Path, to: Path, path: Path)
    requires Busy(f, at, to, path) && at <= to && f.trashed == None
    ensures f.curlen == |Join(at)| && f.goal == |Join(to)| && f.target == Some(Join(path))
  {
  }

  lemma {:induction false} PrefixLengths(at: Path, to: Path)
    ensures at <= to ==> |Join(at)| <= |Join(to)| && (|Join(at)| == |Join(to)| <==> at == to)
  {
    if at <= to {
      PrefixLength(at, to);
    }
  }
}
