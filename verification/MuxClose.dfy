/** What a close does to bytes that are not sent yet: they never leave, and runs in
    which that happens exist. */
module MuxClose {
  import opened MuxLink
  import opened MuxSafety
  import opened MuxProof

  /** The close of side x has left its sender. */
  predicate CloseLeft(l: Link) {
    CloseCount(Stream(l)) > 0 || ReadShut(l.y.ch)
  }

  // ------------------------------------------------------------ unsent for good

  /** What the other side does to a stream: nothing, or it takes the first packet. */
  lemma {:induction false} TakenCount(p: Packet, q: seq<Packet>)
    ensures CloseCount([p] + q) == CloseCount(q) + if p.PClose? then 1 else 0
  {
    assert ([p] + q)[1..] == q;
  }

  lemma {:induction false} CountPlus(p: seq<Packet>, q: seq<Packet>)
    ensures CloseCount(p + q) == CloseCount(p) + CloseCount(q)
  {
    if p == [] {
      assert p + q == q;
    } else {
      assert (p + q)[1..] == p[1..] + q;
      CountPlus(p[1..], q);
    }
  }

  lemma {:induction false} OwnStep(l: Link, a: Action, l2: Link)
    requires CloseLeft(l) && WriteShut(l.x.ch) && !Sending(l.x) && Act(l, a) == Some(l2)
    ensures CloseLeft(l2) && l2.x.ch.sendbuf == l.x.ch.sendbuf && l2.x.ch.written == l.x.ch.written
  {
    var e := if l.x.snd.Built? then [l.x.snd.packet] else [];
    var e2 := if l2.x.snd.Built? then [l2.x.snd.packet] else [];
    CountPlus(l.xy, e);
    CountPlus(l2.xy, e2);
    if a.DoSend? {
      assert l2.xy + [] == l.xy + e;
    }
  }

  lemma {:induction false} OtherStep(l: Link, a: Action, l2: Link)
    requires CloseLeft(l) && Act(Swap(l), a) == Some(Swap(l2)) && !l2.y.failed
    ensures CloseLeft(l2) && l2.x == l.x
  {
    assert l2 == Swap(Swap(l2));
    if a.DoReceive? {
      var e := if l.x.snd.Built? then [l.x.snd.packet] else [];
      assert Stream(l) == [l.xy[0]] + (l2.xy + e);
      TakenCount(l.xy[0], l2.xy + e);
    }
  }

  lemma {:induction false} CloseShuts(ls: seq<Link>, i: nat)
    requires Run(ls) && i < |ls| && CloseLeft(ls[i])
    ensures WriteShut(ls[i].x.ch) && !Sending(ls[i].x)
  {
    hide DataOf, WinOk, CloseLast, NoData, HasData;
    RunKeeps(ls, i);
  }

  /** What is in the send buffer when the close leaves stays there in every run, and
      the peer never reads it. */
  lemma {:induction false} UnsentForGood(ls: seq<Link>, i: nat, j: nat)
    requires Run(ls) && i <= j < |ls| && CloseLeft(ls[i])
    ensures CloseLeft(ls[j])
    ensures var c, d := ls[i].x.ch, ls[j].x.ch;
            && d.sendbuf == c.sendbuf && d.written == c.written
            && |c.sendbuf| <= |d.written| && d.written[|d.written| - |c.sendbuf|..] == c.sendbuf
            && ls[j].y.ch.readout + ls[j].y.ch.recvbuf <= d.written[..|d.written| - |c.sendbuf|]
    decreases j - i
  {
    hide CloseLeft, Next, Conserved;
    if i < j {
      UnsentForGood(ls, i, j - 1);
      if ls[j] != ls[j - 1] {
        StepLeft(ls, j);
      }
    }
    Prefixed(ls, j);
  }

  lemma {:induction false} StepLeft(ls: seq<Link>, j: nat)
    requires Run(ls) && 0 < j < |ls| && CloseLeft(ls[j - 1]) && Next(ls[j - 1], ls[j])
    ensures CloseLeft(ls[j])
    ensures ls[j].x.ch.sendbuf == ls[j - 1].x.ch.sendbuf && ls[j].x.ch.written == ls[j - 1].x.ch.written
  {
    CloseShuts(ls, j - 1);
    NoProtocolError(ls, j);
    hide Act, CloseLeft, Run;
    var l, l2 := ls[j - 1], ls[j];
    var a :| Act(l, a) == Some(l2) || (Act(Swap(l), a).Some? && l2 == Swap(Act(Swap(l), a).value));
    if Act(l, a) == Some(l2) {
      OwnStep(l, a, l2);
    } else {
      OtherStep(l, a, l2);
    }
  }

  lemma {:induction false} Prefixed(ls: seq<Link>, j: nat)
    requires Run(ls) && j < |ls| && CloseLeft(ls[j])
    ensures var d, e := ls[j].x.ch, ls[j].y.ch;
            && |d.sendbuf| <= |d.written| && d.written[|d.written| - |d.sendbuf|..] == d.sendbuf
            && e.readout + e.recvbuf <= d.written[..|d.written| - |d.sendbuf|]
  {
    DeliveredInOrder(ls, j);
    CloseShuts(ls, j);
    hide Run, DataOf, CloseLeft;
    var d, e := ls[j].x.ch, ls[j].y.ch;
    Parted(e.readout + e.recvbuf, BodyOf(ls[j].y) + DataOf(Stream(ls[j])), d.sendbuf);
    assert d.sendbuf[0..] == d.sendbuf;
    assert d.written == e.readout + e.recvbuf + (BodyOf(ls[j].y) + DataOf(Stream(ls[j]))) + d.sendbuf;
  }

  lemma {:induction false} Parted(a: seq<Byte>, b: seq<Byte>, c: seq<Byte>)
    ensures var w := a + b + c; w[|w| - |c|..] == c && a <= w[..|w| - |c|]
  {
  }

  // ------------------------------------------------------------ a run that gets there

  ghost predicate Reached(l: Link) {
    exists ls :: Run(ls) && ls[|ls| - 1] == l
  }

  lemma {:induction false} Onward(l: Link, l2: Link)
    requires Reached(l) && Next(l, l2)
    ensures Reached(l2)
  {
    hide Next;
    var ls :| Run(ls) && ls[|ls| - 1] == l;
    var all := ls + [l2];
    forall i | 0 < i < |all| ensures all[i] == all[i - 1] || Next(all[i - 1], all[i]) {
      if i < |ls| {
        assert all[i] == ls[i] && all[i - 1] == ls[i - 1];
      }
    }
    assert Run(all) && all[|all| - 1] == l2;
  }

  lemma {:induction false} Own(l: Link, a: Action, l2: Link)
    requires Reached(l) && Act(l, a) == Some(l2)
    ensures Reached(l2)
  {
    assert Next(l, l2);
    hide Next, Reached, Act;
    Onward(l, l2);
  }

  lemma {:induction false} Other(l: Link, a: Action, l2: Link)
    requires Reached(l) && Act(Swap(l), a) == Some(Swap(l2))
    ensures Reached(l2)
  {
    assert l2 == Swap(Swap(l2));
    assert Next(l, l2);
    hide Next, Reached, Act;
    Onward(l, l2);
  }

  function Zeros(n: nat): (s: seq<Byte>)
    ensures |s| == n && forall i :: 0 <= i < n ==> s[i] == 0
  {
    seq(n, _ => 0)
  }

  const ASKING := PConnect(MAXSEG, RBSIZE, RBSIZE)
  const ANSWER := PAccept(MAXSEG, RBSIZE, RBSIZE)
  const READY := NEW_CHAN.(state := Established, sendmss := MAXSEG, sendwin := RBSIZE, granted := RBSIZE)
  const LISTENS := NEW_CHAN.(state := Listening)
  const CALLS := NEW_CHAN.(state := Connecting)

  function Half(c: Chan, s: Sender): Side { Side(c, s, Waiting, false) }

  lemma {:induction false} Alone(f: Flag, p: Packet)
    ensures {} + {f} == {f} && {f} - {f} == {} && [] + [p] == [p] && [p][1..] == []
  {
  }

  lemma {:induction false} Asked()
    ensures Reached(Link(Half(CALLS, Idle), Half(LISTENS, Idle), [ASKING], []))
  {
    assert Run([NEW_LINK]) && [NEW_LINK][0] == NEW_LINK;
    hide Reached, Run;
    Alone(FConnect, ASKING);
    var y, c := Half(LISTENS, Idle), CALLS.(flags := {FConnect});
    Other(NEW_LINK, DoListen, Link(NEW_SIDE, y, [], []));
    Own(Link(NEW_SIDE, y, [], []), DoConnect, Link(Half(c, Idle), y, [], []));
    Own(Link(Half(c, Idle), y, [], []), DoScan, Link(Half(CALLS, Chosen(FConnect)), y, [], []));
    Own(Link(Half(CALLS, Chosen(FConnect)), y, [], []), DoBuild, Link(Half(CALLS, Built(ASKING)), y, [], []));
    Own(Link(Half(CALLS, Built(ASKING)), y, [], []), DoSend, Link(Half(CALLS, Idle), y, [ASKING], []));
  }

  lemma {:induction false} Connected()
    ensures Reached(Link(Half(READY, Idle), Half(READY, Idle), [], []))
  {
    Asked();
    hide Reached;
    Alone(FAccept, ASKING);
    Alone(FAccept, ANSWER);
    var x, z := Half(CALLS, Idle), READY.(flags := {FAccept});
    Other(Link(x, Half(LISTENS, Idle), [ASKING], []), DoReceive, Link(x, Half(z, Idle), [], []));
    Other(Link(x, Half(z, Idle), [], []), DoScan, Link(x, Half(READY, Chosen(FAccept)), [], []));
    Other(Link(x, Half(READY, Chosen(FAccept)), [], []), DoBuild, Link(x, Half(READY, Built(ANSWER)), [], []));
    Other(Link(x, Half(READY, Built(ANSWER)), [], []), DoSend, Link(x, Half(READY, Idle), [], [ANSWER]));
    Own(Link(x, Half(READY, Idle), [], [ANSWER]), DoReceive, Link(Half(READY, Idle), Half(READY, Idle), [], []));
  }

  /** The channel after `k` full packets of what was written. */
  function After(k: nat): Chan
    requires k <= 16
  {
    READY.(sendbuf := Zeros(SBSIZE - k * MAXSEG), sendseq := k * MAXSEG, written := Zeros(SBSIZE))
  }

  function Sent16(k: nat): seq<Packet> { seq(k, _ => PData(Zeros(MAXSEG))) }

  function Busy(k: nat, s: Sender, q: seq<Packet>): Link
    requires k <= 16
  {
    Link(Half(After(k), s), Half(READY, Idle), q, [])
  }

  lemma {:induction false} SendOne(k: nat)
    requires k < 16 && Reached(Busy(k, Idle, Sent16(k)))
    ensures Reached(Busy(k + 1, Idle, Sent16(k + 1)))
  {
    hide Reached;
    var p := PData(Zeros(MAXSEG));
    assert {FData} - {FData} == {};
    assert After(k).sendbuf[..MAXSEG] == Zeros(MAXSEG);
    Own(Busy(k, Idle, Sent16(k)), DoScan, Busy(k, Chosen(FData), Sent16(k)));
    Own(Busy(k, Chosen(FData), Sent16(k)), DoBuild, Busy(k, Built(p), Sent16(k)));
    assert Sent16(k) + [p] == Sent16(k + 1);
    Own(Busy(k, Built(p), Sent16(k)), DoSend, Busy(k, Wrote(MAXSEG), Sent16(k + 1)));
    assert After(k).sendbuf[MAXSEG..] == After(k + 1).sendbuf;
    Own(Busy(k, Wrote(MAXSEG), Sent16(k + 1)), DoFinish, Busy(k + 1, Idle, Sent16(k + 1)));
  }

  lemma {:induction false} SendAll(k: nat)
    requires k <= 16
    ensures Reached(Busy(k, Idle, Sent16(k)))
  {
    hide Reached;
    if k == 0 {
      Connected();
      assert [] + Zeros(SBSIZE) == Zeros(SBSIZE);
      Own(Link(Half(READY, Idle), Half(READY, Idle), [], []), DoWrite(Zeros(SBSIZE)), Busy(0, Idle, []));
      assert Sent16(0) == [];
    } else {
      SendAll(k - 1);
      SendOne(k - 1);
    }
  }

  /** With the window used up, the close is what leaves next, whatever is unsent. */
  lemma {:induction false} CloseNow(c: Chan, y: Side, q: seq<Packet>)
    requires c.state == Established && c.flags == {} && c.sendseq == c.sendwin
    requires Reached(Link(Half(c, Idle), y, q, []))
    ensures Reached(Link(Half(c.(state := WrClosed), Built(PClose)), y, q, []))
  {
    hide Reached;
    Alone(FClose, PClose);
    var d := c.(state := WrClosed);
    Own(Link(Half(c, Idle), y, q, []), DoClose, Link(Half(d.(flags := {FClose}), Idle), y, q, []));
    Own(Link(Half(d.(flags := {FClose}), Idle), y, q, []), DoScan, Link(Half(d, Chosen(FClose)), y, q, []));
    Own(Link(Half(d, Chosen(FClose)), y, q, []), DoBuild, Link(Half(d, Built(PClose)), y, q, []));
  }

  /** A run in which the close leaves while a byte that was written is in the send
      buffer. */
  lemma {:induction false} CloseWithBytesLeft()
    ensures exists l :: Reached(l) && CloseLeft(l) && l.x.ch.sendbuf != []
  {
    SendAll(16);
    hide Reached;
    var c := WriteChan(After(16), [0]);
    assert c.sendbuf == [0];
    var y, q := Half(READY, Idle), Sent16(16);
    Own(Busy(16, Idle, q), DoWrite([0]), Link(Half(c, Idle), y, q, []));
    CloseNow(c, y, q);
    CountPlus(q, [PClose]);
    var l := Link(Half(c.(state := WrClosed), Built(PClose)), y, q, []);
    assert Reached(l) && CloseLeft(l) && l.x.ch.sendbuf != [];
  }
}
