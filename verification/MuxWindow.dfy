/** Reading makes room, and the peer gets to know: every byte that is written on a
    channel that stays open arrives if the other side reads. */
module MuxWindow {
  import opened MuxLink
  import opened MuxSafety
  import opened MuxProof
  import S = MuxSystem

  /** The window that the peer will have when all of `q` has arrived. */
  function LastWin(q: seq<Packet>, lo: nat): nat {
    if q == [] then lo else LastWin(q[1..], if IsWin(q[0]) then Upto(q[0]) else lo)
  }

  lemma {:induction false} LastWinPlus(q: seq<Packet>, p: Packet, lo: nat)
    ensures LastWin(q + [p], lo) == if IsWin(p) then Upto(p) else LastWin(q, lo)
  {
    if q == [] {
      assert q + [p] == [p] && [p][1..] == [];
    } else {
      assert (q + [p])[1..] == q[1..] + [p];
      LastWinPlus(q[1..], p, if IsWin(q[0]) then Upto(q[0]) else lo);
    }
  }

  lemma {:induction false} NoWin(q: seq<Packet>, lo: nat)
    requires Traffic(q) && forall p :: p in q ==> !p.PWindow?
    ensures LastWin(q, lo) == lo
  {
    if q != [] {
      assert q[0] in q;
      NoWin(q[1..], lo);
    }
  }

  /** The side is going to announce its window. */
  predicate WillTell(r: Side) {
    || FWindow in r.ch.flags || FAccept in r.ch.flags
    || r.snd == Chosen(FWindow) || r.snd == Chosen(FAccept)
  }

  /** `s` listens to the windows that `r` announces. */
  predicate Heeds(s: Side, r: Side) {
    s.ch.state == Established || s.ch.state == RdClosed || (s.ch.state == Connecting && Open(r.ch))
  }

  /** What `s` may send is, or will be, all that `r` has room for; `b` is on its way
      from `r` to `s`. */
  predicate Told(s: Side, r: Side, b: seq<Packet>) {
    Heeds(s, r) ==> WillTell(r) || LastWin(b, s.ch.granted) == |r.ch.readout| + RBSIZE
  }

  predicate BothTold(l: Link) {
    Told(l.y, l.x, Stream(l)) && Told(l.x, l.y, Stream(Swap(l)))
  }

  // ------------------------------------------------------------------ each step

  lemma {:induction false} Building(l: Link, l2: Link)
    requires Act(l, DoBuild) == Some(l2) && Told(l.y, l.x, Stream(l))
    ensures Told(l2.y, l2.x, Stream(l2))
  {
    var p := l2.x.snd.packet;
    assert Stream(l2) == Stream(l) + [p];
    LastWinPlus(Stream(l), p, l.y.ch.granted);
    hide LastWin, DataSize;
  }

  lemma {:induction false} Arriving(s: Side, s2: Side, r: Side, q: seq<Packet>, b: seq<Packet>)
    requires Handshake(s, r, q, b) && b != [] && Received(s, b[0], s2) && Told(s, r, b)
    ensures Told(s2, r, b[1..])
  {
    if Heeds(s2, r) && s.ch.state == Listening {
      assert b == [FIRST] ==> b[1..] == [];
    }
    if b[0].PData? || b[0].PClose? {
      assert LastWin(b, s.ch.granted) == LastWin(b[1..], s.ch.granted);
    }
  }

  lemma {:induction false} Opening(l: Link, l2: Link)
    requires Inv(l) && Act(l, DoReceive) == Some(l2) && Acceptable(l.x.ch, l.yx[0]) && Told(l.y, l.x, Stream(l))
    ensures Told(l2.y, l2.x, Stream(l2))
  {
    ReceiveShape(l, l2);
    ReceiveStreams(l, l2);
    hide Direction, Act, LastWin, Traffic, Stream;
  }

  lemma {:induction false} Receiving(l: Link, l2: Link)
    requires Inv(l) && Act(l, DoReceive) == Some(l2) && BothTold(l)
    ensures BothTold(l2)
  {
    hide Act, Direction, Handshake, Received, Told, Stream;
    ReceiveShape(l, l2);
    HandshakeSwap(l.x, l.y, Stream(l), Stream(Swap(l)));
    HeadAcceptable(l.y, l.x, Stream(Swap(l)), Stream(l));
    ReceiveStreams(l, l2);
    Opening(l, l2);
    Arriving(l.x, l2.x, l.y, Stream(l), Stream(Swap(l)));
  }

  /** The other steps leave the pipes alone; a read asks for a window update. */
  lemma {:induction false} OwnMove(l: Link, a: Action, l2: Link)
    requires Act(l, a) == Some(l2) && !a.DoReceive? && !a.DoBuild?
    ensures Stream(l2) == Stream(l) && Stream(Swap(l2)) == Stream(Swap(l)) && l2.y == l.y
    ensures WillTell(l.x) ==> WillTell(l2.x)
    ensures l2.x.ch.readout == l.x.ch.readout || WillTell(l2.x)
    ensures l2.x.ch.granted == l.x.ch.granted && (Open(l2.x.ch) <==> Open(l.x.ch))
    ensures Heeds(l2.x, l2.y) ==> Heeds(l.x, l.y)
  {
    hide HasData;
  }

  lemma {:induction false} Resting(l: Link, a: Action, l2: Link)
    requires Act(l, a) == Some(l2) && BothTold(l) && !a.DoReceive? && !a.DoBuild?
    ensures BothTold(l2)
  {
    OwnMove(l, a, l2);
    hide LastWin, Stream, Act, Open, WillTell;
  }

  lemma {:induction false} StepTells(l: Link, a: Action, l2: Link)
    requires Inv(l) && Act(l, a) == Some(l2) && BothTold(l)
    ensures BothTold(l2)
  {
    if a.DoReceive? {
      hide Act, Inv, BothTold;
      Receiving(l, l2);
    } else if a.DoBuild? {
      Building(l, l2);
      assert Stream(Swap(l2)) == Stream(Swap(l));
      hide Inv, LastWin, Stream;
    } else {
      hide Act, Inv, BothTold;
      Resting(l, a, l2);
    }
  }

  lemma {:induction false} RunTells(ls: seq<Link>, i: nat)
    requires Run(ls) && i < |ls|
    ensures BothTold(ls[i])
  {
    hide Inv, Act;
    if i > 0 {
      hide BothTold;
      RunTells(ls, i - 1);
      RunKeeps(ls, i - 1);
      if ls[i] != ls[i - 1] {
        NextTells(ls[i - 1], ls[i]);
      }
    }
  }

  lemma {:induction false} NextTells(l: Link, l2: Link)
    requires Inv(l) && BothTold(l) && Next(l, l2)
    ensures BothTold(l2)
  {
    hide Inv, Act, Told, Stream;
    var a :| Act(l, a) == Some(l2) || (Act(Swap(l), a).Some? && l2 == Swap(Act(Swap(l), a).value));
    if Act(l, a) == Some(l2) {
      StepTells(l, a, l2);
    } else {
      InvSwap(l);
      assert Swap(Swap(l)) == l;
      StepTells(Swap(l), a, Act(Swap(l), a).value);
      assert Swap(l2) == Act(Swap(l), a).value;
    }
  }

  // -------------------------------------------------------------------- theorems

  /** When no window update is asked for, chosen, built or on its way, the peer's
      window is what was read and the whole receive buffer. */
  lemma {:induction false} WindowTold(ls: seq<Link>, i: nat)
    requires Run(ls) && i < |ls|
    ensures var x, y := ls[i].x, ls[i].y;
            && x.ch.state in {Established, RdClosed, WrClosed, Closed} && y.ch.state in {Established, RdClosed}
            && FWindow !in x.ch.flags && x.snd != Chosen(FWindow)
            && (x.snd.Built? ==> !x.snd.packet.PWindow?) && (forall p :: p in ls[i].xy ==> !p.PWindow?)
            ==> y.ch.granted == |x.ch.readout| + RBSIZE
  {
    RunTells(ls, i);
    RunKeeps(ls, i);
    var l := ls[i];
    hide Direction, Traffic, LastWin, Run;
    if Open(l.x.ch) && Open(l.y.ch) && forall p :: p in Stream(l) ==> !p.PWindow? {
      NoWin(Stream(l), l.y.ch.granted);
    }
  }

  /** Neither sender and neither receiver can do anything: what goes on is up to the
      applications. */
  ghost predicate AtRest(l: Link) {
    forall a :: a == DoScan || a == DoBuild || a == DoSend || a == DoFinish || a == DoReceive || a == DoBody ==>
      Act(l, a) == None && Act(Swap(l), a) == None
  }

  lemma {:induction false} RestShape(l: Link)
    requires Inv(l) && AtRest(l)
    ensures l.x.snd == Idle && l.x.rcv == Waiting && l.xy == [] && ScanFlags(l.x.ch) == {}
    ensures l.y.snd == Idle && l.y.rcv == Waiting && l.yx == [] && ScanFlags(l.y.ch) == {}
  {
    hide Handshake, Traffic, Windowed, Closing, Flowing, DataOf, AtRest, ScanFlags;
    SideRest(l);
    SideRest(Swap(l));
  }

  lemma {:induction false} SideRest(l: Link)
    requires AtRest(l) || AtRest(Swap(l))
    requires !l.x.failed && (l.x.snd.Wrote? ==> l.x.snd.size <= |l.x.ch.sendbuf|)
    ensures l.x.snd == Idle && l.x.rcv == Waiting && l.yx == [] && ScanFlags(l.x.ch) == {}
  {
    assert Swap(Swap(l)) == l;
    assert Act(l, DoScan) == None && Act(l, DoBuild) == None && Act(l, DoSend) == None && Act(l, DoFinish) == None;
    assert Act(l, DoReceive) == None && Act(l, DoBody) == None;
  }

  /** With nothing in the pipes and nothing flagged, a sender that has data and an open
      peer that has read all it got may send it. */
  lemma {:induction false} RoomLeft(s: Side, r: Side)
    requires Conserved(s, r, []) && Windowed(s, r, []) && Told(s, r, []) && !WillTell(r)
    requires s.snd == Idle && r.rcv == Waiting && r.ch.recvbuf == [] && s.ch.state in {Established, RdClosed}
    requires s.ch.sendseq == s.ch.sendwin || s.ch.sendbuf == []
    ensures s.ch.sendbuf == [] && r.ch.readout == s.ch.written
  {
    assert s.ch.sendbuf[0..] == s.ch.sendbuf;
    assert r.ch.readout + [] + [] + [] + s.ch.sendbuf == r.ch.readout + s.ch.sendbuf;
    TrueWindow(Sent(s.ch), s.ch.granted);
  }

  lemma {:induction false} PeerUsed(l: Link)
    requires Inv(l) && Open(l.y.ch)
    ensures l.x.ch.state != Unused
  {
    hide Direction;
  }

  /** In any state of any run in which senders and receivers are at rest and one
      application has read what it was sent, the other side, while it can still send,
      has nothing left to send: all that it wrote has been read. */
  lemma {:induction false} AllArrives(ls: seq<Link>, i: nat)
    requires Run(ls) && i < |ls| && AtRest(ls[i]) && ls[i].x.ch.recvbuf == []
    ensures var x, y := ls[i].x, ls[i].y;
            y.ch.state in {Established, RdClosed} ==> y.ch.sendbuf == [] && x.ch.readout == y.ch.written
  {
    hide Run, AtRest, Handshake, Closing, Flowing;
    RunTells(ls, i);
    RunKeeps(ls, i);
    var l := ls[i];
    RestShape(l);
    if l.y.ch.state in {Established, RdClosed} {
      assert l.x.ch.state != Unused by { PeerUsed(l); }
      assert Stream(l) == [] == Stream(Swap(l));
      hide Stream, DataOf, WinOk, LastWin;
      RoomLeft(l.y, l.x);
    }
  }

  /** How far the two ends of a channel at rest are: not used by both, or open, each
      shut for reading exactly as the other is shut for writing. */
  predicate Agreed(x: Chan, y: Chan) {
    match x.state
    case Established => y.state == Established
    case WrClosed => y.state == RdClosed
    case RdClosed => y.state == WrClosed
    case Closed => y.state == Closed
    case Connecting => false
    case _ => y.state == Unused || y.state == Listening
  }

  lemma {:induction false} SideAgreed(l: Link)
    requires Inv(l) && l.x.snd == Idle && l.xy == [] && ScanFlags(l.x.ch) == {}
    requires l.y.snd == Idle && l.yx == [] && ScanFlags(l.y.ch) == {}
    ensures Agreed(l.x.ch, l.y.ch)
  {
    hide Conserved, Windowed, Flowing;
    assert Stream(l) == [] == Stream(Swap(l)) && CloseCount([]) == 0;
  }

  /** Every connect is answered and every close arrives: in any state of any run in
      which senders and receivers are at rest the two ends agree. */
  lemma {:induction false} EndsAgree(ls: seq<Link>, i: nat)
    requires Run(ls) && i < |ls| && AtRest(ls[i])
    ensures Agreed(ls[i].x.ch, ls[i].y.ch)
  {
    hide Run, AtRest, Inv, Agreed, ScanFlags;
    RunKeeps(ls, i);
    RestShape(ls[i]);
    SideAgreed(ls[i]);
  }

  /** Both threads of both multiplexers have nothing to do. */
  predicate MuxAtRest(m: S.Mux) {
    && m.x.snd == Idle == m.y.snd && m.x.rcv == Waiting == m.y.rcv && m.xy == [] == m.yx
    && (forall id :: 0 <= id < |m.x.chans| ==> ScanFlags(m.x.chans[id]) == {})
    && (forall id :: 0 <= id < |m.y.chans| ==> ScanFlags(m.y.chans[id]) == {})
  }

  /** The same for every channel of two multiplexers. */
  lemma {:induction false} MuxAllArrives(ms: seq<S.Mux>, i: nat, id: nat)
    requires S.MuxRun(ms) && i < |ms| && id < S.MAXCHAN && MuxAtRest(ms[i])
    ensures S.Sized(ms[i])
    ensures var c, d := ms[i].x.chans[id], ms[i].y.chans[id];
            c.recvbuf == [] && d.state in {Established, RdClosed} ==> d.sendbuf == [] && c.readout == d.written
  {
    hide S.MuxRun, Run;
    S.ChannelRun(ms, id);
    var l := S.LinkOf(ms[i], id);
    assert AtRest(l) by { hide ScanFlags; }
    if l.x.ch.recvbuf == [] {
      AllArrives(S.Seen(ms, id), i);
    }
  }
}
