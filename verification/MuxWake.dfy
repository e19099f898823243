/** Waking the sender: application threads and the receiver change channels and
    then signal a sender that scans, channel by channel, under the multiplexer's
    lock and sleeps when the scan finds nothing. */
module MuxWake {
  import opened MuxLink

  const CHANNELS := 2

  /** Where a thread other than the sender is. */
  datatype Thread =
    | Away
    | Writing(id: nat, left: nat)    // in the loop of a write, `left` > 0 bytes to go
    | Changed                        // has changed a channel, will wake the sender
    | Saw(waiting: bool)             // has read the waiting mark, will signal if it was set

  /** Where the sender is.  It holds the multiplexer's lock while scanning; `at`
      is the channel examined last once the scan has `begun`. */
  datatype Where =
    | Scanning(at: nat, begun: bool)
    | Sleeping
    | Signalled
    | Busy(id: nat, what: Flag)
    | Sent(id: nat, size: nat)

  datatype State = State(chans: seq<Chan>, lastid: nat, waiting: bool, snd: Where, threads: seq<Thread>)

  /** The state in which the multiplexer is opened: the sender waits for work. */
  function Fresh(n: nat): State {
    State([], 0, true, Sleeping, seq(n, _ => Away))
  }

  // ------------------------------------------------------- changes to a channel

  datatype Move = MListen | MConnect | MClose | MRead(n: nat) | MPacket(p: Packet)

  predicate Enabled(c: Chan, m: Move) {
    match m
    case MListen => c.state == Unused
    case MConnect => c.state == Unused
    case MClose => c.state == Established || c.state == RdClosed
    case MRead(n) => CanRead(c) && n <= |c.recvbuf|
    case MPacket(p) => Acceptable(c, p)
  }

  function Moved(c: Chan, m: Move): Chan
    requires Enabled(c, m)
  {
    match m
    case MListen => c.(state := Listening)
    case MConnect => c.(state := Connecting, flags := c.flags + {FConnect})
    case MClose => CloseChan(c)
    case MRead(n) => ReadChan(c, n)
    case MPacket(p) =>
      if p.PData? then c.(recvbuf := c.recvbuf + p.bytes)
      else if p.PClose? then c.(state := if c.state == Established then RdClosed else Closed)
      else ReceiveChan(c, p)
  }

  /** Does the code call for the sender after this change? */
  predicate Wakes(c: Chan, m: Move)
    requires Enabled(c, m)
  {
    match m
    case MListen => false
    case MPacket(p) =>
      p.PConnect? || (p.PAccept? && c.state != Connecting) ||
      (p.PWindow? && (c.state == Established || c.state == RdClosed))
    case _ => true
  }

  // -------------------------------------------------------------------- steps

  /** What is asked of a multiplexer: no write is larger than `limit`, and `late`
      says whether a listen may find a channel on which a reset is pending, because
      the peer has tried to connect it before. */
  datatype Use = Use(limit: nat, late: bool)

  predicate Late(c: Chan, m: Move) {
    m == MListen && FReset in c.flags
  }

  datatype Step =
    | Create
    | Change(t: nat, id: nat, m: Move)
    | StartWrite(t: nat, id: nat, size: nat)
    | Put(t: nat, bytes: seq<Byte>)
    | Look(t: nat)
    | Signal(t: nat)
    | Spurious | Resume | Examine | Build | Done

  /** The sender takes the lock and starts a scan; with no channel it sleeps. */
  function Rescan(s: State): State {
    if s.chans == [] then s.(snd := Sleeping, waiting := true)
    else s.(snd := Scanning(s.lastid, false))
  }

  function ExamineNext(s: State): State
    requires s.snd.Scanning? && s.chans != []
  {
    var id := if s.snd.at + 1 >= |s.chans| then 0 else s.snd.at + 1;
    var c := s.chans[id];
    if ScanFlags(c) != {} then
      s.(chans := s.chans[id := ScanChan(c)], lastid := id, waiting := false, snd := Busy(id, Top(ScanFlags(c))))
    else if id != s.lastid then s.(snd := Scanning(id, true))
    else s.(snd := Sleeping, waiting := true)
  }

  /** Where a write is with `left` bytes to go: out of its loop after the last. */
  function Loop(id: nat, left: nat): Thread {
    if left == 0 then Changed else Writing(id, left)
  }

  /** One more turn of the loop in a write: as many bytes as there is room for;
      the write gives up, waking nobody, when the channel is not open. */
  function PutNext(s: State, t: nat, bytes: seq<Byte>): Option<State>
    requires t < |s.threads| && s.threads[t].Writing?
  {
    var Writing(id, left) := s.threads[t];
    if id >= |s.chans| || left < |bytes| then None
    else
      var c := s.chans[id];
      if c.state != Established && c.state != RdClosed then Some(s.(threads := s.threads[t := Away]))
      else if |c.sendbuf| >= SBSIZE || |bytes| != Min(SBSIZE - |c.sendbuf|, left) then None
      else
        Some(s.(chans := s.chans[id := WriteChan(c, bytes)], threads := s.threads[t := Loop(id, left - |bytes|)]))
  }

  /** The step `a`; None when it is not enabled. */
  function Do(u: Use, s: State, a: Step): Option<State> {
    match a
    case Create =>
      if s.snd.Scanning? || |s.chans| >= CHANNELS then None else Some(s.(chans := s.chans + [NEW_CHAN]))
    case Change(t, id, m) =>
      if t < |s.threads| && s.threads[t] == Away && id < |s.chans| && Enabled(s.chans[id], m) &&
         (Late(s.chans[id], m) ==> u.late)
      then
        Some(s.(chans := s.chans[id := Moved(s.chans[id], m)],
                threads := if Wakes(s.chans[id], m) then s.threads[t := Changed] else s.threads))
      else None
    case StartWrite(t, id, size) =>
      if t < |s.threads| && s.threads[t] == Away && id < |s.chans| && size <= u.limit then
        Some(s.(threads := s.threads[t := Loop(id, size)]))
      else None
    case Put(t, bytes) => if t < |s.threads| && s.threads[t].Writing? then PutNext(s, t, bytes) else None
    case Look(t) =>
      if t < |s.threads| && s.threads[t] == Changed && !s.snd.Scanning? then
        Some(s.(threads := s.threads[t := Saw(s.waiting)]))
      else None
    case Signal(t) =>
      if t < |s.threads| && s.threads[t].Saw? then
        Some(s.(threads := s.threads[t := Away],
                snd := if s.threads[t].waiting && s.snd == Sleeping then Signalled else s.snd))
      else None
    case Spurious => if s.snd == Sleeping then Some(s.(snd := Signalled)) else None
    case Resume => if s.snd == Signalled then Some(Rescan(s)) else None
    case Examine => if s.snd.Scanning? && s.chans != [] then Some(ExamineNext(s)) else None
    case Build =>
      if s.snd.Busy? && s.snd.id < |s.chans| then
        Some(s.(snd := Sent(s.snd.id, if s.snd.what == FData then DataSize(s.chans[s.snd.id]) else 0)))
      else None
    case Done =>
      if s.snd.Sent? && s.snd.id < |s.chans| && s.snd.size <= |s.chans[s.snd.id].sendbuf| then
        Some(Rescan(s.(chans := s.chans[s.snd.id := SentChan(s.chans[s.snd.id], s.snd.size)])))
      else None
  }

  // ---------------------------------------------------------------- invariant

  /** Does the scan stop at this channel? */
  predicate Works(c: Chan) { ScanFlags(c) != {} }

  /** Has the scan that goes round from `lastid` and is at `at` passed `id`? */
  predicate Seen(lastid: nat, at: nat, id: nat) {
    if lastid < at then lastid < id <= at else lastid < id || id <= at
  }

  /** A thread is on its way to wake the sender; with `asleep`, one that has read
      the waiting mark will do. */
  ghost predicate Owed(threads: seq<Thread>, asleep: bool) {
    exists t :: 0 <= t < |threads| && (threads[t] == Changed || (asleep && threads[t] == Saw(true)))
  }

  predicate Calm(c: Chan) {
    && |c.sendbuf| <= SBSIZE
    && (c.state == Unused || c.state == Listening || c.state == Connecting ==> c.sendbuf == [])
    && (c.state == Unused ==> c.flags <= {FReset})
  }

  /** Work the sender may have missed: for all channels while it sleeps, for
      those already passed while it scans. */
  predicate Missed(s: State, id: nat)
    requires id < |s.chans|
  {
    Works(s.chans[id]) &&
    (s.snd == Sleeping || (s.snd.Scanning? && s.snd.begun && Seen(s.lastid, s.snd.at, id)))
  }

  predicate Placed(s: State) {
    && (s.chans != [] ==> s.lastid < |s.chans|)
    && (s.snd.Scanning? ==> s.snd.at < |s.chans| && (s.snd.begun ==> s.snd.at != s.lastid) &&
                            (!s.snd.begun ==> s.snd.at == s.lastid))
    && (s.snd == Sleeping ==> s.waiting)
    && (s.chans == [] ==> s.lastid == 0)
  }

  ghost predicate Inv(s: State) {
    && Placed(s)
    && (forall id :: 0 <= id < |s.chans| ==> Calm(s.chans[id]))
    && (forall t :: 0 <= t < |s.threads| && s.threads[t].Writing? ==> s.threads[t].left <= SBSIZE)
    && (forall id :: 0 <= id < |s.chans| && Missed(s, id) ==> Owed(s.threads, s.snd == Sleeping))
  }

  /** Writes that fit the send buffer, and listens in time. */
  predicate Tame(u: Use) {
    u.limit <= SBSIZE && !u.late
  }

  // ------------------------------------------------------------- step by step

  /** A change that is not followed by a wakeup makes no work, unless it brings out
      the reset that the scan passes over on an unused channel. */
  lemma QuietMove(c: Chan, m: Move)
    requires Calm(c) && Enabled(c, m)
    ensures Calm(Moved(c, m))
    ensures !Wakes(c, m) && Works(Moved(c, m)) ==> Works(c) || Late(c, m)
  {
  }

  lemma StillOwed(threads: seq<Thread>, t: nat, now: Thread, asleep: bool)
    requires t < |threads| && Owed(threads, asleep)
    requires threads[t] != Changed && !(asleep && threads[t] == Saw(true))
    ensures Owed(threads[t := now], asleep)
  {
    var w :| 0 <= w < |threads| && (threads[w] == Changed || (asleep && threads[w] == Saw(true)));
    assert threads[t := now][w] == threads[w];
  }

  lemma NowOwed(threads: seq<Thread>, t: nat, now: Thread, asleep: bool)
    requires t < |threads| && (now == Changed || (asleep && now == Saw(true)))
    ensures Owed(threads[t := now], asleep)
  {
    assert threads[t := now][t] == now;
  }

  lemma KeepChange(u: Use, s: State, t: nat, id: nat, m: Move, s2: State)
    requires Inv(s) && Do(u, s, Change(t, id, m)) == Some(s2) && Tame(u)
    ensures Inv(s2)
  {
    hide Works, Calm, Moved, Wakes, Enabled, Late;
    QuietMove(s.chans[id], m);
    if Wakes(s.chans[id], m) {
      NowOwed(s.threads, t, Changed, s.snd == Sleeping);
    } else {
      assert forall k :: 0 <= k < |s.chans| && Missed(s2, k) ==> Missed(s, k);
    }
  }

  /** A write that leaves bytes behind has filled the buffer, and there was data
      in it before: it makes no work of its own. */
  lemma PutMove(c: Chan, left: nat, bytes: seq<Byte>)
    requires Calm(c) && CanWrite(c) && left <= SBSIZE && |bytes| == Min(SBSIZE - |c.sendbuf|, left)
    ensures Calm(WriteChan(c, bytes))
    ensures |bytes| < left && Works(WriteChan(c, bytes)) ==> Works(c)
  {
  }

  lemma KeepPut(u: Use, s: State, t: nat, bytes: seq<Byte>, s2: State)
    requires Inv(s) && Do(u, s, Put(t, bytes)) == Some(s2)
    ensures Inv(s2)
  {
    hide Works, Calm, Owed;
    var Writing(id, left) := s.threads[t];
    var c := s.chans[id];
    if CanWrite(c) {
      PutMove(c, left, bytes);
      if left == |bytes| {
        NowOwed(s.threads, t, Changed, s.snd == Sleeping);
      } else {
        KeepThreads(s, t, Writing(id, left - |bytes|));
        var s1 := s.(threads := s2.threads);
        assert forall k :: 0 <= k < |s.chans| && Missed(s2, k) ==> Missed(s1, k);
      }
    } else {
      KeepThreads(s, t, Away);
    }
  }

  /** A thread that owes nothing may move on. */
  lemma KeepThreads(s: State, t: nat, now: Thread)
    requires Inv(s) && t < |s.threads| && (now.Writing? ==> now.left <= SBSIZE)
    requires s.threads[t] != Changed && !(s.snd == Sleeping && s.threads[t] == Saw(true))
    ensures Inv(s.(threads := s.threads[t := now]))
  {
    hide Works, Calm, Owed;
    var s2 := s.(threads := s.threads[t := now]);
    forall id | 0 <= id < |s.chans| && Missed(s2, id) ensures Owed(s2.threads, s.snd == Sleeping) {
      assert Missed(s, id);
      StillOwed(s.threads, t, now, s.snd == Sleeping);
    }
  }

  lemma KeepStart(u: Use, s: State, t: nat, id: nat, size: nat, s2: State)
    requires Inv(s) && Do(u, s, StartWrite(t, id, size)) == Some(s2) && Tame(u)
    ensures Inv(s2)
  {
    hide Inv;
    KeepThreads(s, t, Loop(id, size));
  }

  /** The waiting mark is set whenever the sender sleeps, so that a thread that
      still owes a wakeup sees it. */
  lemma KeepLook(u: Use, s: State, t: nat, s2: State)
    requires Inv(s) && Do(u, s, Look(t)) == Some(s2)
    ensures Inv(s2)
  {
    hide Works, Calm, Owed;
    if s.snd == Sleeping {
      NowOwed(s.threads, t, Saw(true), true);
    }
  }

  lemma KeepSignal(u: Use, s: State, t: nat, s2: State)
    requires Inv(s) && Do(u, s, Signal(t)) == Some(s2)
    ensures Inv(s2)
  {
    if s.snd == Sleeping && s.threads[t] == Saw(true) {
      hide Works, Calm, Owed;
    } else {
      hide Inv;
      KeepThreads(s, t, Away);
    }
  }

  lemma KeepRescan(s: State)
    requires Inv(s) && !s.snd.Scanning?
    ensures Inv(Rescan(s))
  {
    hide Works, Calm, Owed;
  }

  /** The scan takes a channel, passes it, or has gone all the way round. */
  lemma KeepExamine(u: Use, s: State, s2: State)
    requires Inv(s) && Do(u, s, Examine) == Some(s2)
    ensures Inv(s2)
  {
    var id := if s.snd.at + 1 >= |s.chans| then 0 else s.snd.at + 1;
    if Works(s.chans[id]) {
      ScanCalm(s.chans[id]);
      hide Works, Calm, Owed;
    } else {
      hide Calm, Owed, ScanFlags;
      forall k | 0 <= k < |s.chans| && Missed(s2, k) ensures Owed(s2.threads, s2.snd == Sleeping) {
        assert k != id;
        assert Missed(s, k);
        Sooner(s.threads);
      }
    }
  }

  lemma Sooner(threads: seq<Thread>)
    ensures Owed(threads, false) ==> Owed(threads, true)
  {
  }

  lemma ScanCalm(c: Chan)
    requires Calm(c) && Works(c)
    ensures Calm(ScanChan(c))
  {
  }

  lemma SentCalm(c: Chan, size: nat)
    requires Calm(c) && size <= |c.sendbuf|
    ensures Calm(SentChan(c, size))
  {
  }

  lemma KeepDone(u: Use, s: State, s2: State)
    requires Inv(s) && Do(u, s, Done) == Some(s2)
    ensures Inv(s2)
  {
    hide Works, Calm, Owed;
    SentCalm(s.chans[s.snd.id], s.snd.size);
    KeepRescan(s.(chans := s.chans[s.snd.id := SentChan(s.chans[s.snd.id], s.snd.size)]));
  }

  lemma KeepCreate(u: Use, s: State, s2: State)
    requires Inv(s) && Do(u, s, Create) == Some(s2)
    ensures Inv(s2)
  {
    hide Owed;
    assert Calm(NEW_CHAN) && !Works(NEW_CHAN);
    assert forall k :: 0 <= k < |s2.chans| && Missed(s2, k) ==> k < |s.chans| && Missed(s, k);
  }

  lemma StepKeeps(u: Use, s: State, a: Step, s2: State)
    requires Inv(s) && Do(u, s, a) == Some(s2) && Tame(u)
    ensures Inv(s2)
  {
    hide Inv, Do;
    match a
    case Create => KeepCreate(u, s, s2);
    case Change(t, id, m) => KeepChange(u, s, t, id, m, s2);
    case StartWrite(t, id, size) => KeepStart(u, s, t, id, size, s2);
    case Put(t, bytes) => KeepPut(u, s, t, bytes, s2);
    case Look(t) => KeepLook(u, s, t, s2);
    case Signal(t) => KeepSignal(u, s, t, s2);
    case Spurious => KeepAwake(u, s, a, s2);
    case Resume => KeepAwake(u, s, a, s2);
    case Examine => KeepExamine(u, s, s2);
    case Build => KeepAwake(u, s, a, s2);
    case Done => KeepDone(u, s, s2);
  }

  lemma KeepAwake(u: Use, s: State, a: Step, s2: State)
    requires Inv(s) && Do(u, s, a) == Some(s2) && (a == Spurious || a == Resume || a == Build)
    ensures Inv(s2)
  {
    hide Works, Calm, Owed;
    if a == Resume {
      KeepRescan(s);
    }
  }

  // --------------------------------------------------------------------- runs

  ghost predicate Next(u: Use, s: State, s2: State) {
    exists a :: Do(u, s, a) == Some(s2)
  }

  ghost predicate Run(u: Use, n: nat, ss: seq<State>) {
    ss != [] && ss[0] == Fresh(n) && forall i :: 0 < i < |ss| ==> Next(u, ss[i - 1], ss[i])
  }

  lemma {:induction false} RunKeeps(u: Use, n: nat, ss: seq<State>, i: nat)
    requires Run(u, n, ss) && i < |ss| && Tame(u)
    ensures Inv(ss[i])
  {
    if i > 0 {
      hide Inv, Do;
      RunKeeps(u, n, ss, i - 1);
      assert Next(u, ss[i - 1], ss[i]);
      var a :| Do(u, ss[i - 1], a) == Some(ss[i]);
      StepKeeps(u, ss[i - 1], a, ss[i]);
    }
  }

  /** The sender is asleep, nobody is about to wake it, and there is work. */
  ghost predicate Lost(s: State) {
    s.snd == Sleeping && !Owed(s.threads, true) && exists id :: 0 <= id < |s.chans| && Works(s.chans[id])
  }

  /** With writes of at most a send buffer's size, and no listen that finds a reset
      pending, no wakeup is ever lost. */
  lemma NoLostWakeup(u: Use, n: nat, ss: seq<State>, i: nat)
    requires Run(u, n, ss) && i < |ss| && Tame(u)
    ensures !Lost(ss[i])
  {
    RunKeeps(u, n, ss, i);
    hide Works, Calm, Owed;
    var s := ss[i];
    if s.snd == Sleeping {
      forall id | 0 <= id < |s.chans| && Works(s.chans[id]) ensures Owed(s.threads, true) {
        assert Missed(s, id);
      }
    }
  }

  /** A wakeup that is owed arrives: the thread's next step or two signal the
      sleeping sender. */
  lemma WakeupArrives(u: Use, s: State) returns (t: nat, s1: State, s2: State)
    requires Inv(s) && s.snd == Sleeping && Owed(s.threads, true)
    ensures s1 == s || Do(u, s, Look(t)) == Some(s1)
    ensures Do(u, s1, Signal(t)) == Some(s2) && s2.snd == Signalled && s2.chans == s.chans
  {
    t :| 0 <= t < |s.threads| && (s.threads[t] == Changed || s.threads[t] == Saw(true));
    s1 := if s.threads[t] == Changed then Do(u, s, Look(t)).value else s;
    s2 := Do(u, s1, Signal(t)).value;
  }

  /** Then a writer that waits for room faces a sender that is awake or about to
      be woken, or a window that is used up. */
  lemma BlockedWriter(u: Use, n: nat, ss: seq<State>, i: nat, t: nat)
    requires Run(u, n, ss) && i < |ss| && Tame(u) && t < |ss[i].threads|
    requires ss[i].threads[t].Writing? && ss[i].threads[t].id < |ss[i].chans|
    requires |ss[i].chans[ss[i].threads[t].id].sendbuf| == SBSIZE
    ensures var s := ss[i];
            var c := s.chans[s.threads[t].id];
            s.snd != Sleeping || Owed(s.threads, true) || c.sendseq == c.sendwin
  {
    RunKeeps(u, n, ss, i);
    hide Owed;
    var s := ss[i];
    var id := s.threads[t].id;
    var c := s.chans[id];
    assert c.sendseq != c.sendwin && s.snd == Sleeping ==> Missed(s, id);
  }

  // ------------------------------------------------------------ larger writes

  /** Channel 0 of a peer that has listened, been connected to and answered. */
  const OPENED := NEW_CHAN.(state := Established, sendmss := MAXSEG, sendwin := RBSIZE, granted := RBSIZE)
  const ASKED := OPENED.(flags := {FAccept})

  /** One channel, an application thread and a receiver thread. */
  function One(c: Chan, snd: Where, app: Thread, rcv: Thread): State {
    State([c], 0, true, snd, [app, rcv])
  }

  /** A full buffer with the sender asleep. */
  function Full(c: Chan, size: nat): State
    requires size > SBSIZE
  {
    One(c, Sleeping, Writing(0, size - SBSIZE), Away)
  }

  /** Sequence updates, spelled out. */
  lemma One1<T>(c: T, d: T)
    ensures [c][0 := d] == [d]
  {
  }

  lemma One2<T>(t: T, u: T, v: T)
    ensures [t, u][0 := v] == [v, u] && [t, u][1 := v] == [t, v]
  {
  }

  lemma Opening(u: Use)
    ensures Do(u, Fresh(2), Create) == Some(One(NEW_CHAN, Sleeping, Away, Away))
    ensures var c := NEW_CHAN.(state := Listening);
            Do(u, One(NEW_CHAN, Sleeping, Away, Away), Change(0, 0, MListen)) ==
                Some(One(c, Sleeping, Away, Away)) &&
            Do(u, One(c, Sleeping, Away, Away), Change(1, 0, MPacket(PConnect(MAXSEG, RBSIZE, RBSIZE))))
              == Some(One(ASKED, Sleeping, Away, Changed))
  {
    var c := NEW_CHAN.(state := Listening);
    One1(NEW_CHAN, c);
    One1(c, ASKED);
    One2(Away, Away, Changed);
    assert Fresh(2).threads == [Away, Away];
    assert [] + [NEW_CHAN] == [NEW_CHAN];
    assert ASKED == NEW_CHAN.(state := Established, sendmss := MAXSEG, sendwin := RBSIZE, granted := RBSIZE,
                              flags := {} + {FAccept});
  }

  /** The receiver's wakeup makes the sender scan. */
  lemma Waking(u: Use, c: Chan)
    ensures Do(u, One(c, Sleeping, Away, Changed), Look(1)) == Some(One(c, Sleeping, Away, Saw(true)))
    ensures Do(u, One(c, Sleeping, Away, Saw(true)), Signal(1)) == Some(One(c, Signalled, Away, Away))
    ensures Do(u, One(c, Signalled, Away, Away), Resume) == Some(One(c, Scanning(0, false), Away, Away))
  {
    One2(Away, Changed, Saw(true));
    One2(Away, Saw(true), Away);
  }

  lemma Answering(u: Use)
    ensures var s := One(OPENED, Sleeping, Away, Away);
            Do(u, One(ASKED, Scanning(0, false), Away, Away), Examine)
              == Some(s.(snd := Busy(0, FAccept), waiting := false)) &&
            Do(u, s.(snd := Busy(0, FAccept), waiting := false), Build)
              == Some(s.(snd := Sent(0, 0), waiting := false)) &&
            Do(u, s.(snd := Sent(0, 0), waiting := false), Done)
              == Some(s.(snd := Scanning(0, false), waiting := false)) &&
            Do(u, s.(snd := Scanning(0, false), waiting := false), Examine) == Some(s)
  {
    assert {FAccept} - {FAccept} == {};
    assert ScanChan(ASKED) == OPENED;
    assert OPENED.sendbuf[0..] == [];
    assert SentChan(OPENED, 0) == OPENED;
    One1(ASKED, OPENED);
    One1(OPENED, OPENED);
  }

  lemma Writes(u: Use, bytes: seq<Byte>)
    requires u.limit > SBSIZE && |bytes| == SBSIZE
    ensures var s := One(OPENED, Sleeping, Away, Away);
            Do(u, s, StartWrite(0, 0, u.limit)) == Some(s.(threads := [Writing(0, u.limit), Away])) &&
            Do(u, s.(threads := [Writing(0, u.limit), Away]), Put(0, bytes))
              == Some(Full(WriteChan(OPENED, bytes), u.limit))
  {
    One1(OPENED, WriteChan(OPENED, bytes));
    One2(Away, Away, Writing(0, u.limit));
    One2(Writing(0, u.limit), Away, Writing(0, u.limit - SBSIZE));
  }

  lemma Overfull(u: Use, bytes: seq<Byte>)
    requires u.limit > SBSIZE && |bytes| == SBSIZE
    ensures Lost(Full(WriteChan(OPENED, bytes), u.limit))
  {
    var c := WriteChan(OPENED, bytes);
    assert c.sendbuf == bytes;
    assert FData in ScanFlags(c);
    assert Works(Full(c, u.limit).chans[0]);
  }

  lemma Extend(u: Use, ss: seq<State>, a: Step, s2: State) returns (all: seq<State>)
    requires ss != [] && Run(u, 2, ss) && Do(u, ss[|ss| - 1], a) == Some(s2)
    ensures |all| == |ss| + 1 && Run(u, 2, all) && all[|all| - 1] == s2
  {
    all := ss + [s2];
    assert Next(u, ss[|ss| - 1], s2);
    hide Do, Next, Fresh;
    forall i | 0 < i < |all| ensures Next(u, all[i - 1], all[i]) {
      if i < |ss| {
        assert all[i - 1] == ss[i - 1] && all[i] == ss[i];
      }
    }
  }

  lemma OpeningRun(u: Use) returns (ss: seq<State>)
    ensures ss != [] && Run(u, 2, ss) && ss[|ss| - 1] == One(OPENED, Sleeping, Away, Away)
  {
    Opening(u);
    Waking(u, ASKED);
    Answering(u);
    ss := [Fresh(2)];
    assert Run(u, 2, ss);
    hide Do, One, Fresh, Run;
    var s := One(OPENED, Sleeping, Away, Away);
    ss := Extend(u, ss, Create, One(NEW_CHAN, Sleeping, Away, Away));
    ss := Extend(u, ss, Change(0, 0, MListen), One(NEW_CHAN.(state := Listening), Sleeping, Away, Away));
    ss := Extend(u, ss, Change(1, 0, MPacket(PConnect(MAXSEG, RBSIZE, RBSIZE))),
        One(ASKED, Sleeping, Away, Changed));
    ss := Extend(u, ss, Look(1), One(ASKED, Sleeping, Away, Saw(true)));
    ss := Extend(u, ss, Signal(1), One(ASKED, Signalled, Away, Away));
    ss := Extend(u, ss, Resume, One(ASKED, Scanning(0, false), Away, Away));
    ss := Extend(u, ss, Examine, s.(snd := Busy(0, FAccept), waiting := false));
    ss := Extend(u, ss, Build, s.(snd := Sent(0, 0), waiting := false));
    ss := Extend(u, ss, Done, s.(snd := Scanning(0, false), waiting := false));
    ss := Extend(u, ss, Examine, s);
  }

  /** A write larger than the send buffer, on an open channel with nothing to
      send, fills the buffer and waits for a sender that nobody wakes. */
  lemma LargeWriteStalls(u: Use) returns (ss: seq<State>)
    requires u.limit > SBSIZE
    ensures ss != [] && Run(u, 2, ss) && Lost(ss[|ss| - 1])
  {
    var bytes: seq<Byte> := seq(SBSIZE, _ => 0);
    Writes(u, bytes);
    Overfull(u, bytes);
    ss := OpeningRun(u);
    var s := One(OPENED, Sleeping, Away, Away);
    hide Do, Lost, Full, One, WriteChan, Run;
    ss := Extend(u, ss, StartWrite(0, 0, u.limit), s.(threads := [Writing(0, u.limit), Away]));
    ss := Extend(u, ss, Put(0, bytes), Full(WriteChan(OPENED, bytes), u.limit));
  }

  /** A write waits on this channel: it is open and its buffer is full. */
  predicate CanBlock(c: Chan) {
    (c.state == Established || c.state == RdClosed) && |c.sendbuf| >= SBSIZE
  }

  /** Once stalled, neither the sender nor the writer can move without a spurious
      wakeup or someone else's change. */
  lemma StallStays(u: Use, s: State, a: Step, s2: State)
    requires Lost(s) && Do(u, s, a) == Some(s2)
    requires forall t :: 0 <= t < |s.threads| && s.threads[t].Writing? && s.threads[t].id < |s.chans| ==>
               CanBlock(s.chans[s.threads[t].id])
    ensures a == Spurious || a == Create || a.Change? || a.StartWrite? || (a.Signal? && s2.snd == Sleeping)
  {
  }

  // ------------------------------------------------------------ late listens

  const REFUSED := NEW_CHAN.(flags := {FReset})

  /** The receiver has the sender woken for a channel that the scan passes over. */
  lemma Refusing(u: Use)
    ensures Do(u, Fresh(2), Create) == Some(One(NEW_CHAN, Sleeping, Away, Away))
    ensures Do(u, One(NEW_CHAN, Sleeping, Away, Away), Change(1, 0, MPacket(PConnect(MAXSEG, RBSIZE, RBSIZE))))
            == Some(One(REFUSED, Sleeping, Away, Changed))
    ensures Do(u, One(REFUSED, Scanning(0, false), Away, Away), Examine) == Some(One(REFUSED, Sleeping, Away, Away))
  {
    assert {} + {FReset} == {FReset};
    assert REFUSED == NEW_CHAN.(flags := NEW_CHAN.flags + {FReset});
    assert Fresh(2).threads == [Away, Away];
    assert [] + [NEW_CHAN] == [NEW_CHAN];
    One1(NEW_CHAN, REFUSED);
    One2(Away, Away, Changed);
  }

  lemma Listening0(u: Use)
    requires u.late
    ensures var s := One(REFUSED.(state := Listening), Sleeping, Away, Away);
            Do(u, One(REFUSED, Sleeping, Away, Away), Change(0, 0, MListen)) == Some(s) && Lost(s)
  {
    var c := REFUSED.(state := Listening);
    One1(REFUSED, c);
    assert FReset in ScanFlags(c);
    assert Works(One(c, Sleeping, Away, Away).chans[0]);
  }

  /** A listen that finds a reset pending leaves it to a sender that nobody wakes:
      neither is the peer answered nor does it learn that it was refused. */
  lemma LateListenStalls(u: Use) returns (ss: seq<State>)
    requires u.late
    ensures |ss| == 8 && Run(u, 2, ss) && Lost(ss[7])
  {
    Refusing(u);
    Waking(u, REFUSED);
    Listening0(u);
    ss := [Fresh(2)];
    assert Run(u, 2, ss);
    hide Do, One, Fresh, Run, Lost;
    ss := Extend(u, ss, Create, One(NEW_CHAN, Sleeping, Away, Away));
    ss := Extend(u, ss, Change(1, 0, MPacket(PConnect(MAXSEG, RBSIZE, RBSIZE))), One(REFUSED, Sleeping, Away, Changed));
    ss := Extend(u, ss, Look(1), One(REFUSED, Sleeping, Away, Saw(true)));
    ss := Extend(u, ss, Signal(1), One(REFUSED, Signalled, Away, Away));
    ss := Extend(u, ss, Resume, One(REFUSED, Scanning(0, false), Away, Away));
    ss := Extend(u, ss, Examine, One(REFUSED, Sleeping, Away, Away));
    ss := Extend(u, ss, Change(0, 0, MListen), One(REFUSED.(state := Listening), Sleeping, Away, Away));
  }

  /** Wakeups are never lost exactly when no write exceeds the send buffer and no
      listen finds a reset pending. */
  lemma WakeupsExactly(u: Use)
    ensures (forall n: nat, ss: seq<State>, i: nat :: Run(u, n, ss) && i < |ss| ==> !Lost(ss[i]))
            <==> u.limit <= SBSIZE && !u.late
  {
    hide Run, Lost;
    if Tame(u) {
      forall n: nat, ss: seq<State>, i: nat | Run(u, n, ss) && i < |ss| ensures !Lost(ss[i]) {
        NoLostWakeup(u, n, ss, i);
      }
    } else {
      var ss;
      if u.late { ss := LateListenStalls(u); } else { ss := LargeWriteStalls(u); }
      var k: nat := |ss| - 1;
      assert Run(u, 2, ss) && Lost(ss[k]);
    }
  }
}
