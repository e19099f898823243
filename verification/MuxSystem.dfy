/** Two multiplexers with several channels, one sender and one receiver thread
    each and one FIFO pipe each way: every channel behaves as if it were alone. */
module MuxSystem {
  import opened MuxLink
  import opened MuxSafety
  import opened MuxProof

  const MAXCHAN := 2

  /** `sid` and `rid` say which channel the sender and the receiver are busy
      with; `lastid` is where the last scan stopped. */
  datatype Peer = Peer(
    chans: seq<Chan>, lastid: nat,
    sid: nat, snd: Sender, rid: nat, rcv: Receiver, failed: bool)

  datatype Mux = Mux(x: Peer, y: Peer, xy: seq<(nat, Packet)>, yx: seq<(nat, Packet)>)

  const NEW_PEER := Peer([NEW_CHAN, NEW_CHAN], 0, 0, Idle, 0, Waiting, false)
  const NEW_MUX := Mux(NEW_PEER, NEW_PEER, [], [])

  function SwapMux(m: Mux): Mux {
    Mux(m.y, m.x, m.yx, m.xy)
  }

  predicate Sized(m: Mux) {
    |m.x.chans| == |m.y.chans| == MAXCHAN && m.x.lastid < MAXCHAN && m.y.lastid < MAXCHAN
  }

  // -------------------------------------------------------------- projections

  /** The packets of channel `id`. */
  function Only(q: seq<(nat, Packet)>, id: nat): seq<Packet> {
    if q == [] then []
    else (if q[0].0 == id then [q[0].1] else []) + Only(q[1..], id)
  }

  function SideOf(p: Peer, id: nat): Side
    requires id < |p.chans|
  {
    Side(p.chans[id], if p.sid == id then p.snd else Idle, if p.rid == id then p.rcv else Waiting, p.failed)
  }

  /** The system as channel `id` sees it. */
  function LinkOf(m: Mux, id: nat): Link
    requires Sized(m) && id < MAXCHAN
  {
    Link(SideOf(m.x, id), SideOf(m.y, id), Only(m.xy, id), Only(m.yx, id))
  }

  // -------------------------------------------------------------------- steps

  /** The channel a scan stops at: the first one after `lastid`, going round,
      that has something to send. */
  function ScanFrom(chans: seq<Chan>, id: nat, left: nat): Option<nat>
    requires id < |chans|
    decreases left
  {
    if left == 0 then None
    else
      var next := if id + 1 >= |chans| then 0 else id + 1;
      if ScanFlags(chans[next]) != {} then Some(next) else ScanFrom(chans, next, left - 1)
  }

  /** The channel `d` steps behind `id`, going round `n` of them. */
  function Round(id: nat, d: nat, n: nat): (k: nat)
    requires id < n && d <= n
    ensures k < n
  {
    if id + d < n then id + d else id + d - n
  }

  /** The scan finds the nearest channel with work, the one served last being looked at
      last. */
  lemma {:induction false} ScanNearest(chans: seq<Chan>, id: nat, left: nat) returns (d: nat)
    requires id < |chans| && left <= |chans|
    ensures d <= left && forall e :: 0 < e <= d ==> ScanFlags(chans[Round(id, e, |chans|)]) == {}
    ensures ScanFrom(chans, id, left) == if d == left then None else Some(Round(id, d + 1, |chans|))
    ensures d < left ==> ScanFlags(chans[Round(id, d + 1, |chans|)]) != {}
    decreases left
  {
    hide ScanFlags;
    var next := if id + 1 >= |chans| then 0 else id + 1;
    if left == 0 || ScanFlags(chans[next]) != {} {
      d := 0;
    } else {
      d := ScanNearest(chans, next, left - 1);
      assert forall e :: 0 < e <= d ==> Round(next, e, |chans|) == Round(id, e + 1, |chans|);
      forall e | 0 < e <= d + 1 ensures ScanFlags(chans[Round(id, e, |chans|)]) == {} {
        if e > 1 { assert Round(next, e - 1, |chans|) == Round(id, e, |chans|); }
      }
      d := d + 1;
    }
  }

  /** May the thread concerned take step `a` on channel `id` now? */
  predicate Turn(m: Mux, id: nat, a: Action)
    requires Sized(m) && id < MAXCHAN
  {
    match a
    case DoScan => m.x.snd == Idle && ScanFrom(m.x.chans, m.x.lastid, MAXCHAN) == Some(id)
    case DoBuild => m.x.sid == id
    case DoSend => m.x.sid == id
    case DoFinish => m.x.sid == id
    case DoReceive => m.x.rcv == Waiting && m.yx != [] && m.yx[0].0 == id
    case DoBody => m.x.rid == id
    case _ => true
  }

  /** The step `a` of side x on channel `id`. */
  function MuxAct(m: Mux, id: nat, a: Action): Option<Mux>
    requires Sized(m)
  {
    if id >= MAXCHAN || !Turn(m, id, a) then None
    else
      match Act(LinkOf(m, id), a)
      case None => None
      case Some(l2) =>
        var p := m.x.(chans := m.x.chans[id := l2.x.ch], failed := l2.x.failed);
        match a
        case DoScan => Some(m.(x := p.(lastid := id, sid := id, snd := l2.x.snd)))
        case DoBuild => Some(m.(x := p.(snd := l2.x.snd)))
        case DoSend => Some(m.(x := p.(snd := l2.x.snd), xy := m.xy + [(id, l2.xy[|l2.xy| - 1])]))
        case DoFinish => Some(m.(x := p.(snd := l2.x.snd)))
        case DoReceive => Some(m.(x := p.(rid := id, rcv := l2.x.rcv), yx := m.yx[1..]))
        case DoBody => Some(m.(x := p.(rcv := l2.x.rcv)))
        case _ => Some(m.(x := p))
  }

  ghost predicate MuxNext(m: Mux, m2: Mux) {
    Sized(m) && exists id, a ::
      MuxAct(m, id, a) == Some(m2) ||
      (MuxAct(SwapMux(m), id, a).Some? && m2 == SwapMux(MuxAct(SwapMux(m), id, a).value))
  }

  // -------------------------------------------------------------- the channels

  lemma {:induction false} OnlyAppend(q: seq<(nat, Packet)>, e: (nat, Packet), id: nat)
    ensures Only(q + [e], id) == Only(q, id) + (if e.0 == id then [e.1] else [])
  {
    if q == [] {
      assert q + [e] == [e] && [e][1..] == [];
    } else {
      assert (q + [e])[1..] == q[1..] + [e];
      OnlyAppend(q[1..], e, id);
    }
  }

  lemma {:induction false} OnlyHead(q: seq<(nat, Packet)>, id: nat)
    requires q != []
    ensures Only(q, id) == (if q[0].0 == id then [q[0].1] + Only(q[1..], id) else Only(q[1..], id))
  {
    assert [] + Only(q[1..], id) == Only(q[1..], id);
  }

  lemma StepHere(m: Mux, id: nat, a: Action, m2: Mux)
    requires Sized(m) && MuxAct(m, id, a) == Some(m2)
    ensures Sized(m2) && id < MAXCHAN && Act(LinkOf(m, id), a) == Some(LinkOf(m2, id))
  {
    var l2 := Act(LinkOf(m, id), a).value;
    if a == DoSend {
      OnlyAppend(m.xy, (id, l2.xy[|l2.xy| - 1]), id);
    }
    if a == DoReceive {
      OnlyHead(m.yx, id);
    }
  }

  lemma StepElsewhere(m: Mux, id: nat, a: Action, m2: Mux, other: nat)
    requires Sized(m) && MuxAct(m, id, a) == Some(m2) && other < MAXCHAN && id != other
    ensures Sized(m2) && (m2.x.failed == m.x.failed ==> LinkOf(m2, other) == LinkOf(m, other))
  {
    var l2 := Act(LinkOf(m, id), a).value;
    if a == DoSend {
      OnlyAppend(m.xy, (id, l2.xy[|l2.xy| - 1]), other);
    }
    if a == DoReceive {
      OnlyHead(m.yx, other);
    }
  }

  /** A step on one channel is that step of the channel alone, and does not
      touch the other channels. */
  lemma StepIsLocal(m: Mux, id: nat, a: Action, m2: Mux, other: nat)
    requires Sized(m) && MuxAct(m, id, a) == Some(m2) && other < MAXCHAN
    ensures Sized(m2)
    ensures id == other ==> Act(LinkOf(m, id), a) == Some(LinkOf(m2, id))
    ensures id != other && m2.x.failed == m.x.failed ==> LinkOf(m2, other) == LinkOf(m, other)
  {
    hide MuxAct, Act;
    if id == other {
      StepHere(m, id, a, m2);
    } else {
      StepElsewhere(m, id, a, m2, other);
    }
  }

  ghost predicate MuxInv(m: Mux) {
    Sized(m) && forall id :: 0 <= id < MAXCHAN ==> Inv(LinkOf(m, id))
  }

  lemma MuxStepKeeps(m: Mux, id: nat, a: Action, m2: Mux)
    requires MuxInv(m) && MuxAct(m, id, a) == Some(m2)
    ensures MuxInv(m2)
  {
    hide Act, MuxAct, Inv;
    InRange(m, id, a);
    StepIsLocal(m, id, a, m2, id);
    ActKeeps(LinkOf(m, id), a, LinkOf(m2, id));
    NotFailed(LinkOf(m, id));
    NotFailed(LinkOf(m2, id));
    forall other | 0 <= other < MAXCHAN ensures Inv(LinkOf(m2, other)) {
      StepIsLocal(m, id, a, m2, other);
    }
  }

  lemma InRange(m: Mux, id: nat, a: Action)
    requires Sized(m) && MuxAct(m, id, a).Some?
    ensures id < MAXCHAN
  {
  }

  lemma NotFailed(l: Link)
    requires Inv(l)
    ensures !l.x.failed && !l.y.failed
  {
  }

  lemma SwapLink(m: Mux, id: nat)
    requires Sized(m) && id < MAXCHAN
    ensures LinkOf(SwapMux(m), id) == Swap(LinkOf(m, id))
  {
  }

  lemma MuxInvSwap(m: Mux)
    ensures MuxInv(m) <==> MuxInv(SwapMux(m))
  {
    hide Inv;
    if Sized(m) {
      forall id | 0 <= id < MAXCHAN ensures Inv(LinkOf(m, id)) <==> Inv(LinkOf(SwapMux(m), id)) {
        SwapLink(m, id);
        InvSwap(LinkOf(m, id));
      }
    }
  }

  ghost predicate MuxRun(ms: seq<Mux>) {
    ms != [] && ms[0] == NEW_MUX && forall i :: 0 < i < |ms| ==> MuxNext(ms[i - 1], ms[i])
  }

  /** Every channel of every state of every run of the two multiplexers keeps
      the channel invariant. */
  lemma {:induction false} MuxRunKeeps(ms: seq<Mux>, i: nat)
    requires MuxRun(ms) && i < |ms|
    ensures MuxInv(ms[i])
  {
    if i == 0 {
      InitKeeps();
      assert forall id :: 0 <= id < MAXCHAN ==> LinkOf(NEW_MUX, id) == NEW_LINK;
    } else {
      hide MuxInv, MuxAct;
      MuxRunKeeps(ms, i - 1);
      var m, m2 := ms[i - 1], ms[i];
      var id, a :| MuxAct(m, id, a) == Some(m2) ||
                   (MuxAct(SwapMux(m), id, a).Some? && m2 == SwapMux(MuxAct(SwapMux(m), id, a).value));
      if MuxAct(m, id, a) == Some(m2) {
        MuxStepKeeps(m, id, a, m2);
      } else {
        MuxInvSwap(m);
        MuxStepKeeps(SwapMux(m), id, a, MuxAct(SwapMux(m), id, a).value);
        MuxInvSwap(MuxAct(SwapMux(m), id, a).value);
      }
    }
  }

  /** What channel `id` sees of a run. */
  function Seen(ms: seq<Mux>, id: nat): (ls: seq<Link>)
    requires id < MAXCHAN && forall i :: 0 <= i < |ms| ==> Sized(ms[i])
    ensures |ls| == |ms| && forall i :: 0 <= i < |ms| ==> ls[i] == LinkOf(ms[i], id)
  {
    seq(|ms|, i requires 0 <= i < |ms| => LinkOf(ms[i], id))
  }

  lemma {:induction false} StepSeen(m: Mux, m2: Mux, id: nat)
    requires MuxInv(m) && MuxInv(m2) && MuxNext(m, m2) && id < MAXCHAN
    ensures LinkOf(m2, id) == LinkOf(m, id) || Next(LinkOf(m, id), LinkOf(m2, id))
  {
    hide MuxAct, Act, Inv;
    NotFailed(LinkOf(m, id));
    NotFailed(LinkOf(m2, id));
    var at, a :| MuxAct(m, at, a) == Some(m2) ||
                 (MuxAct(SwapMux(m), at, a).Some? && m2 == SwapMux(MuxAct(SwapMux(m), at, a).value));
    if MuxAct(m, at, a) == Some(m2) {
      StepIsLocal(m, at, a, m2, id);
    } else {
      StepIsLocal(SwapMux(m), at, a, SwapMux(m2), id);
      SwapLink(m, id);
      SwapLink(m2, id);
      assert SwapMux(SwapMux(m2)) == m2 && Swap(Swap(LinkOf(m2, id))) == LinkOf(m2, id);
    }
  }

  /** To each channel a run of the two multiplexers is a run of the channel alone. */
  lemma {:induction false} ChannelRun(ms: seq<Mux>, id: nat)
    requires MuxRun(ms) && id < MAXCHAN
    ensures forall i :: 0 <= i < |ms| ==> Sized(ms[i])
    ensures Run(Seen(ms, id))
  {
    hide Next, MuxNext, LinkOf, Inv;
    forall i | 0 <= i < |ms| ensures MuxInv(ms[i]) { MuxRunKeeps(ms, i); }
    var ls := Seen(ms, id);
    assert ls[0] == NEW_LINK by { NewLinks(id); }
    forall i | 0 < i < |ls| ensures ls[i] == ls[i - 1] || Next(ls[i - 1], ls[i]) {
      StepSeen(ms[i - 1], ms[i], id);
    }
  }

  lemma NewLinks(id: nat)
    requires id < MAXCHAN
    ensures Sized(NEW_MUX) && LinkOf(NEW_MUX, id) == NEW_LINK
  {
  }

  /** No run of two multiplexers ends in a protocol error, and on every channel
      in each direction bytes arrive in order and none is lost or invented. */
  lemma MuxNoProtocolError(ms: seq<Mux>, i: nat, id: nat)
    requires MuxRun(ms) && i < |ms| && id < MAXCHAN
    ensures Sized(ms[i]) && !ms[i].x.failed && !ms[i].y.failed
    ensures ms[i].y.chans[id].readout <= ms[i].x.chans[id].written
    ensures ms[i].x.chans[id].readout <= ms[i].y.chans[id].written
    ensures ms[i].x.rcv == Waiting && ms[i].yx != [] && ms[i].yx[0].0 == id ==>
              Acceptable(ms[i].x.chans[id], ms[i].yx[0].1)
  {
    hide DataOf;
    MuxRunKeeps(ms, i);
    var m := ms[i];
    var l := LinkOf(m, id);
    assert Inv(l);
    if m.x.rcv == Waiting && m.yx != [] && m.yx[0].0 == id {
      OnlyHead(m.yx, id);
      HandshakeSwap(l.x, l.y, Stream(l), Stream(Swap(l)));
      HeadAcceptable(l.y, l.x, Stream(Swap(l)), Stream(l));
      assert l.yx[0] == m.yx[0].1;
    }
  }
}
