/** Each step keeps the invariant. */
module MuxProof {
  import opened MuxLink
  import opened MuxSafety

  // -------------------------------------------- steps that leave the pipes alone

  /** Moves of the application that concern neither buffers nor windows. */
  lemma StateMove(s: Side, s2: Side, r: Side, q: seq<Packet>, b: seq<Packet>)
    requires Direction(s, r, q, b) && Direction(r, s, b, q) && !Open(s.ch)
    requires s2 == s.(ch := s.ch.(state := s2.ch.state, flags := s2.ch.flags)) && !Open(s2.ch)
    requires s2.ch.flags == s.ch.flags || s2.ch.flags == s.ch.flags + {FConnect}
    ensures Direction(s2, r, q, b) && Direction(r, s2, b, q)
  {
    hide WinOk, CloseCount, NoData, CloseLast, DataFits, DataOf, Traffic;
  }

  lemma KeepListen(l: Link, l2: Link)
    requires Inv(l) && Act(l, DoListen) == Some(l2)
    ensures Inv(l2)
  {
    hide Direction, Traffic;
    StateMove(l.x, l2.x, l.y, Stream(l), Stream(Swap(l)));
  }

  lemma KeepConnect(l: Link, l2: Link)
    requires Inv(l) && Act(l, DoConnect) == Some(l2)
    ensures Inv(l2)
  {
    hide Direction, Traffic;
    StateMove(l.x, l2.x, l.y, Stream(l), Stream(Swap(l)));
  }

  lemma CloseMove(s: Side, s2: Side, r: Side, q: seq<Packet>, b: seq<Packet>)
    requires Direction(s, r, q, b) && Direction(r, s, b, q)
    requires s2 == s.(ch := CloseChan(s.ch))
    ensures Direction(s2, r, q, b) && Direction(r, s2, b, q)
  {
    hide WinOk, CloseCount, NoData, CloseLast, DataFits, DataOf, Traffic;
  }

  lemma KeepClose(l: Link, l2: Link)
    requires Inv(l) && Act(l, DoClose) == Some(l2)
    ensures Inv(l2)
  {
    hide Direction, Traffic;
    CloseMove(l.x, l2.x, l.y, Stream(l), Stream(Swap(l)));
  }

  lemma AddMod(a: nat, n: nat)
    ensures (a % WORD + n) % WORD == (a + n) % WORD
  {
  }

  lemma ReadMove(s: Side, s2: Side, n: nat, r: Side, q: seq<Packet>, b: seq<Packet>)
    requires Direction(s, r, q, b) && Direction(r, s, b, q)
    requires n <= |s.ch.recvbuf| && s2 == s.(ch := ReadChan(s.ch, n))
    ensures Direction(s2, r, q, b) && Direction(r, s2, b, q)
  {
    hide WinOk, CloseCount, NoData, CloseLast, DataFits, DataOf, Traffic;
    var c, c2 := s.ch, s2.ch;
    assert c2.readout + c2.recvbuf == c.readout + c.recvbuf;
    AddMod(|c.readout|, n);
    WinMore(q, r.ch.granted, |c.readout| + RBSIZE, r.ch.granted, |c2.readout| + RBSIZE);
  }

  lemma KeepRead(l: Link, n: nat, l2: Link)
    requires Inv(l) && Act(l, DoRead(n)) == Some(l2)
    ensures Inv(l2)
  {
    hide Direction, Traffic;
    ReadMove(l.x, l2.x, n, l.y, Stream(l), Stream(Swap(l)));
  }

  lemma WriteMove(s: Side, s2: Side, bytes: seq<Byte>, r: Side, q: seq<Packet>, b: seq<Packet>)
    requires Direction(s, r, q, b) && Direction(r, s, b, q)
    requires CanWrite(s.ch) && |bytes| <= SBSIZE - |s.ch.sendbuf| && s2 == s.(ch := WriteChan(s.ch, bytes))
    ensures Direction(s2, r, q, b) && Direction(r, s2, b, q)
  {
    hide WinOk, CloseCount, NoData, CloseLast, DataFits, DataOf, Traffic;
    var c, c2 := s.ch, s2.ch;
    var done := r.ch.readout + r.ch.recvbuf + BodyOf(r) + DataOf(q);
    assert c2.sendbuf[Pending(s)..] == c.sendbuf[Pending(s)..] + bytes;
    assert done + (c.sendbuf[Pending(s)..] + bytes) == (done + c.sendbuf[Pending(s)..]) + bytes;
  }

  lemma KeepWrite(l: Link, bytes: seq<Byte>, l2: Link)
    requires Inv(l) && Act(l, DoWrite(bytes)) == Some(l2)
    ensures Inv(l2)
  {
    hide Direction, Traffic;
    WriteMove(l.x, l2.x, bytes, l.y, Stream(l), Stream(Swap(l)));
  }

  lemma BodyMove(s: Side, s2: Side, r: Side, q: seq<Packet>, b: seq<Packet>)
    requires Direction(s, r, q, b) && Direction(r, s, b, q)
    requires s.rcv.Body? && s2 == s.(ch := s.ch.(recvbuf := s.ch.recvbuf + s.rcv.bytes), rcv := Waiting)
    ensures Direction(s2, r, q, b) && Direction(r, s2, b, q)
  {
    hide WinOk, CloseCount, NoData, CloseLast, DataFits, DataOf, Traffic;
    assert s.ch.readout + (s.ch.recvbuf + s.rcv.bytes) + [] == s.ch.readout + s.ch.recvbuf + s.rcv.bytes;
  }

  lemma KeepBody(l: Link, l2: Link)
    requires Inv(l) && Act(l, DoBody) == Some(l2)
    ensures Inv(l2)
  {
    hide Direction, Traffic;
    BodyMove(l.x, l2.x, l.y, Stream(l), Stream(Swap(l)));
  }

  // ------------------------------------------------------------- the sender

  /** A scan picks DATA only when there is data to send, and CLOSE only when
      there is nothing left that may be sent. */
  lemma ScanMove(s: Side, s2: Side, r: Side, q: seq<Packet>, b: seq<Packet>)
    requires Direction(s, r, q, b) && Direction(r, s, b, q)
    requires s.snd == Idle && ScanFlags(s.ch) != {}
    requires s2 == s.(ch := ScanChan(s.ch), snd := Chosen(Top(ScanFlags(s.ch))))
    ensures Direction(s2, r, q, b) && Direction(r, s2, b, q)
  {
    hide WinOk, CloseCount, NoData, CloseLast, DataFits, DataOf, Traffic, HasData;
    assert HasData(s2.ch) == HasData(s.ch) by { SameData(s.ch, s2.ch); }
  }

  lemma SameData(c: Chan, c2: Chan)
    requires c2.sendseq == c.sendseq && c2.sendwin == c.sendwin && c2.sendbuf == c.sendbuf
    ensures HasData(c2) == HasData(c)
  {
  }

  lemma KeepScan(l: Link, l2: Link)
    requires Inv(l) && Act(l, DoScan) == Some(l2)
    ensures Inv(l2)
  {
    hide Direction, Traffic, HasData;
    assert l.x.ch.state != Unused;
    NoDataNotOpen(l.x, l.y, Stream(l), Stream(Swap(l)));
    ScanMove(l.x, l2.x, l.y, Stream(l), Stream(Swap(l)));
  }

  lemma NoDataNotOpen(s: Side, r: Side, q: seq<Packet>, b: seq<Packet>)
    requires Direction(s, r, q, b)
    ensures HasData(s.ch) ==> s.ch.sendbuf != []
  {
  }

  /** The 32-bit difference is the true remaining window. */
  lemma TrueWindow(sent: nat, granted: nat)
    requires sent <= granted < sent + WORD
    ensures (granted % WORD - sent % WORD) % WORD == granted - sent
  {
  }

  /** How much window there can be. */
  lemma {:induction false} WindowBound(s: Side, r: Side, q: seq<Packet>, b: seq<Packet>)
    requires Conserved(s, r, q) && Windowed(s, r, b)
    ensures s.ch.granted <= |r.ch.readout| + RBSIZE
    ensures |r.ch.readout| + |r.ch.recvbuf| + |BodyOf(r)| + |DataOf(q)| == Sent(s.ch) + Pending(s)
    ensures s.ch.granted < Sent(s.ch) + WORD
  {
    hide WinOk, DataOf;
    WinMore(b, s.ch.granted, |r.ch.readout| + RBSIZE, s.ch.granted, |r.ch.readout| + RBSIZE);
  }

  // ------------------------------------------------------ building and sending

  lemma BuildOther(s: Side, s2: Side, p: Packet, r: Side, q: seq<Packet>, b: seq<Packet>)
    requires Direction(s, r, q, b) && Direction(r, s, b, q)
    requires s.snd.Chosen? && s.snd.what != FData
    requires p == BuildPacket(s.ch, s.snd.what) && s2 == s.(snd := Built(p))
    ensures Direction(s2, r, q + [p], b) && Direction(r, s2, b, q + [p])
  {
    hide WinOk, CloseCount, NoData, CloseLast, DataFits, DataOf, Traffic, HasData;
    AppendPacket(q, p, r.ch.granted, |s.ch.readout| + RBSIZE);
    AddMod(|s.ch.readout|, RBSIZE);
    assert DataOf(q) + [] == DataOf(q);
  }

  lemma BuildData(s: Side, s2: Side, p: Packet, r: Side, q: seq<Packet>, b: seq<Packet>)
    requires Direction(s, r, q, b) && Direction(r, s, b, q) && Open(s.ch)
    requires s.snd == Chosen(FData)
    requires p == BuildPacket(s.ch, FData) && s2 == s.(snd := Built(p))
    ensures Direction(s2, r, q + [p], b) && Direction(r, s2, b, q + [p])
    ensures |p.bytes| == Min(Min(|s.ch.sendbuf|, MAXSEG), s.ch.granted - Sent(s.ch)) &&
            p.bytes == s.ch.sendbuf[..|p.bytes|]
  {
    hide WinOk, CloseCount, NoData, CloseLast, DataFits, DataOf, Traffic;
    var c := s.ch;
    WindowBound(s, r, q, b);
    TrueWindow(Sent(c), c.granted);
    AppendPacket(q, p, r.ch.granted, |c.readout| + RBSIZE);
    var done := r.ch.readout + r.ch.recvbuf + BodyOf(r);
    assert c.sendbuf == p.bytes + c.sendbuf[|p.bytes|..];
    assert done + DataOf(q) + (p.bytes + c.sendbuf[|p.bytes|..]) ==
           done + (DataOf(q) + p.bytes) + c.sendbuf[|p.bytes|..];
  }

  lemma KeepBuild(l: Link, l2: Link)
    requires Inv(l) && Act(l, DoBuild) == Some(l2)
    ensures Inv(l2)
  {
    assert Windowed(l.y, l.x, Stream(l));
    hide Direction, Traffic, BuildPacket, Windowed;
    var p, q, b := BuildPacket(l.x.ch, l.x.snd.what), Stream(l), Stream(Swap(l));
    assert Stream(l2) == q + [p] && Stream(Swap(l2)) == b;
    if l.x.snd.what == FData {
      DataMeansOpen(l.x, l.y, q, b);
      BuildData(l.x, l2.x, p, l.y, q, b);
    } else {
      BuildOther(l.x, l2.x, p, l.y, q, b);
    }
    BuildHandshake(l.x, l2.x, p, l.y, q, b);
  }

  lemma DataMeansOpen(s: Side, r: Side, q: seq<Packet>, b: seq<Packet>)
    requires Direction(s, r, q, b) && Handshake(s, r, q, b)
    ensures s.snd == Chosen(FData) ==> Open(s.ch)
  {
  }

  lemma BuildHandshake(s: Side, s2: Side, p: Packet, r: Side, q: seq<Packet>, b: seq<Packet>)
    requires Handshake(s, r, q, b) && s.snd.Chosen? && Windowed(r, s, q)
    requires p == BuildPacket(s.ch, s.snd.what) && s2 == s.(snd := Built(p))
    ensures Handshake(s2, r, q + [p], b)
  {
    hide WinOk, DataSize;
    TrafficAppend(q, p);
    if Open(s.ch) && !Open(r.ch) && q != [] {
      assert (q + [p])[1..] == q[1..] + [p];
      TrafficAppend(q[1..], p);
    }
    if q == [] {
      assert (q + [p])[1..] == [];
    }
  }

  lemma {:induction false} TrafficAppend(q: seq<Packet>, p: Packet)
    ensures Traffic(q + [p]) <==> Traffic(q) && (p.PWindow? || p.PData? || p.PClose?)
    ensures Traffic([])
  {
    if q == [] {
      assert q + [p] == [p] && [p][1..] == [];
    } else {
      assert (q + [p])[1..] == q[1..] + [p];
      TrafficAppend(q[1..], p);
    }
  }

  lemma {:induction false} LastFits(q: seq<Packet>)
    requires DataFits(q) && q != []
    ensures q[|q| - 1].PData? ==> 0 < |q[|q| - 1].bytes| <= MAXSEG
  {
    if |q| > 1 {
      LastFits(q[1..]);
    }
  }

  lemma SendMove(s: Side, s2: Side, p: Packet, r: Side, q: seq<Packet>, b: seq<Packet>)
    requires Direction(s, r, q, b) && Direction(r, s, b, q)
    requires s.snd == Built(p) && (p.PData? ==> p.bytes != [])
    requires s2 == s.(snd := if p.PData? && p.bytes != [] then Wrote(|p.bytes|) else Idle)
    ensures Direction(s2, r, q, b) && Direction(r, s2, b, q)
  {
    hide WinOk, CloseCount, NoData, CloseLast, DataFits, DataOf, Traffic, HasData;
  }

  lemma KeepSend(l: Link, l2: Link)
    requires Inv(l) && Act(l, DoSend) == Some(l2)
    ensures Inv(l2)
  {
    hide Handshake, Conserved, Windowed, Closing, Traffic, DataFits;
    var q, b, p := Stream(l), Stream(Swap(l)), l.x.snd.packet;
    SendStreams(l, l2);
    LastFits(q);
    SendMove(l.x, l2.x, p, l.y, q, b);
    SendHandshake(l.x, l2.x, l.y, q, b);
  }

  lemma SendStreams(l: Link, l2: Link)
    requires Act(l, DoSend) == Some(l2)
    ensures Stream(l2) == Stream(l) && Stream(Swap(l2)) == Stream(Swap(l)) && l.x.snd.Built?
    ensures Stream(l) != [] && Stream(l)[|Stream(l)| - 1] == l.x.snd.packet
  {
  }

  lemma SendHandshake(s: Side, s2: Side, r: Side, q: seq<Packet>, b: seq<Packet>)
    requires Handshake(s, r, q, b) && s.snd.Built? && s2.ch == s.ch && s2.rcv == s.rcv
    requires s2.snd == Idle || s2.snd.Wrote?
    requires s2.snd.Wrote? ==> s.snd.packet.PData? && q != [] && q[|q| - 1] == s.snd.packet
    ensures Handshake(s2, r, q, b)
  {
  }

  lemma FinishMove(s: Side, s2: Side, r: Side, q: seq<Packet>, b: seq<Packet>)
    requires Direction(s, r, q, b) && Direction(r, s, b, q)
    requires s.snd.Wrote? && s.snd.size <= |s.ch.sendbuf|
    requires s2 == s.(ch := SentChan(s.ch, s.snd.size), snd := Idle)
    ensures Direction(s2, r, q, b) && Direction(r, s2, b, q)
  {
    hide WinOk, CloseCount, NoData, CloseLast, DataFits, DataOf, Traffic, HasData;
    assert s2.ch.sendbuf[0..] == s2.ch.sendbuf;
    AddMod(Sent(s.ch), s.snd.size);
  }

  lemma KeepFinish(l: Link, l2: Link)
    requires Inv(l) && Act(l, DoFinish) == Some(l2)
    ensures Inv(l2)
  {
    hide Direction, Traffic;
    var q, b := Stream(l), Stream(Swap(l));
    assert Stream(l2) == q && Stream(Swap(l2)) == b;
    FinishMove(l.x, l2.x, l.y, q, b);
  }

  // ------------------------------------------------------------ the receiver

  /** No packet that arrives is refused: the protocol-error exit is not taken. */
  lemma HeadAcceptable(s: Side, r: Side, q: seq<Packet>, b: seq<Packet>)
    requires Handshake(s, r, q, b) && Direction(s, r, q, b) && q != [] && r.rcv == Waiting
    ensures Acceptable(r.ch, q[0])
  {
    hide WinOk, CloseLast, HasData;
    PendingSmall(s, r, q, b);
    assert q[0].PClose? ==> CloseCount(q) >= 1;
    assert q[0].PData? ==> |DataOf(q)| >= |q[0].bytes|;
  }

  lemma {:induction false} PendingSmall(s: Side, r: Side, q: seq<Packet>, b: seq<Packet>)
    requires Direction(s, r, q, b)
    ensures |DataOf(q)| <= Sent(s.ch) + Pending(s) - |r.ch.readout|
    ensures s.ch.granted <= |r.ch.readout| + RBSIZE
    ensures |r.ch.recvbuf| + |BodyOf(r)| + |DataOf(q)| <= RBSIZE
  {
    hide WinOk, DataOf, Closing, Flowing;
    WinMore(b, s.ch.granted, |r.ch.readout| + RBSIZE, s.ch.granted, |r.ch.readout| + RBSIZE);
  }

  /** DATA: the bytes move from the pipe to the receive buffer's free part. */
  lemma DataMove(s: Side, r: Side, r2: Side, q: seq<Packet>, b: seq<Packet>)
    requires Direction(s, r, q, b) && Direction(r, s, b, q)
    requires q != [] && q[0].PData? && r.rcv == Waiting && r2 == r.(rcv := Body(q[0].bytes))
    ensures Direction(s, r2, q[1..], b) && Direction(r2, s, b, q[1..])
  {
    hide HasData;
    var pre := r.ch.readout + r.ch.recvbuf;
    assert pre + [] + (q[0].bytes + DataOf(q[1..])) == pre + q[0].bytes + DataOf(q[1..]);
  }

  /** CLOSE: nothing but window updates is left behind it. */
  lemma CloseArrives(s: Side, r: Side, r2: Side, q: seq<Packet>, b: seq<Packet>)
    requires Direction(s, r, q, b) && Direction(r, s, b, q)
    requires q != [] && q[0].PClose? && (r.ch.state == Established || r.ch.state == WrClosed)
    requires r2 == r.(ch := r.ch.(state := if r.ch.state == Established then RdClosed else Closed))
    ensures Direction(s, r2, q[1..], b) && Direction(r2, s, b, q[1..])
  {
    hide HasData;
    SameData(r.ch, r2.ch);
    assert DataOf(q) == DataOf(q[1..]) by { assert [] + DataOf(q[1..]) == DataOf(q[1..]); }
  }

  /** A window: the send window grows to what was announced, or stays. */
  lemma WindowMove(s: Side, r: Side, r2: Side, q: seq<Packet>, b: seq<Packet>)
    requires Direction(s, r, q, b) && Direction(r, s, b, q)
    requires q != [] && IsWin(q[0])
    requires var p := q[0];
             r2.ch == r.ch.(state := r2.ch.state, flags := r2.ch.flags, sendmss := r2.ch.sendmss)
             || r2.ch == r.ch.(state := r2.ch.state, flags := r2.ch.flags, sendmss := r2.ch.sendmss,
                 sendwin := p.window, granted := p.upto)
    requires r2 == r.(ch := r2.ch)
    requires r2.ch.flags == r.ch.flags || r2.ch.flags == r.ch.flags + {FAccept}
    requires ReadShut(r2.ch) == ReadShut(r.ch) && WriteShut(r2.ch) == WriteShut(r.ch) &&
             (Open(r2.ch) ==> r2.ch.sendmss == MAXSEG)
    requires WriteShut(r.ch) ==> r2.ch.sendwin == r.ch.sendwin
    ensures Direction(s, r2, q[1..], b) && Direction(r2, s, b, q[1..])
  {
    assert DataOf(q) == DataOf(q[1..]) by { assert [] + DataOf(q[1..]) == DataOf(q[1..]); }
    WindowRest(r, r2, s, q, b);
    hide HasData, WinOk, DataOf;
    DataStays(r, r2, s, q, b);
  }

  lemma WindowRest(r: Side, r2: Side, s: Side, q: seq<Packet>, b: seq<Packet>)
    requires Windowed(r, s, q) && q != [] && IsWin(q[0])
    requires r2 == r.(ch := r2.ch) && r2.ch.written == r.ch.written && r2.ch.sendbuf == r.ch.sendbuf &&
             r2.ch.sendseq == r.ch.sendseq
    requires (r2.ch.sendwin == r.ch.sendwin && r2.ch.granted == r.ch.granted)
             || (r2.ch.sendwin == q[0].window && r2.ch.granted == q[0].upto)
    requires Open(r2.ch) ==> r2.ch.sendmss == MAXSEG
    ensures Windowed(r2, s, q[1..])
  {
    var hi := |s.ch.readout| + RBSIZE;
    WinMore(q[1..], q[0].upto, hi, r2.ch.granted, hi);
  }

  /** A larger window does not take data away. */
  lemma DataStays(r: Side, r2: Side, s: Side, q: seq<Packet>, b: seq<Packet>)
    requires Conserved(r, s, b) && Windowed(r, s, q) && q != [] && IsWin(q[0])
    requires Windowed(r2, s, q[1..]) && Conserved(r2, s, b)
    requires r2.snd == r.snd && r2.ch.sendbuf == r.ch.sendbuf && r2.ch.written == r.ch.written &&
             r2.ch.granted >= r.ch.granted
    ensures HasData(r.ch) ==> HasData(r2.ch)
    ensures r2.ch.sendwin == r.ch.sendwin && r2.ch.sendseq == r.ch.sendseq ==> HasData(r.ch) == HasData(r2.ch)
  {
    hide WinOk, DataOf;
    WindowBound(r, s, b, q);
    WindowBound(r2, s, b, q[1..]);
    TrueWindow(Sent(r.ch), r.ch.granted);
    TrueWindow(Sent(r2.ch), r2.ch.granted);
  }

  /** What the receiver makes of a packet it accepts. */
  predicate Received(r: Side, p: Packet, r2: Side) {
    if p.PData? then r2 == r.(rcv := Body(p.bytes))
    else if p.PClose? then r2 == r.(ch := r.ch.(state := if r.ch.state == Established then RdClosed else Closed))
    else IsWin(p) && r2 == r.(ch := ReceiveChan(r.ch, p))
  }

  lemma ReceiveHandshake(s: Side, r: Side, r2: Side, q: seq<Packet>, b: seq<Packet>)
    requires Handshake(s, r, q, b) && q != [] && Acceptable(r.ch, q[0]) && r.rcv == Waiting
    requires |q| == 1 ==> !s.snd.Built?
    requires Received(r, q[0], r2)
    ensures Handshake(s, r2, q[1..], b)
  {
    TrafficAppend([], PClose);
  }

  lemma WindowIn(s: Side, r: Side, q: seq<Packet>, b: seq<Packet>)
    requires Handshake(s, r, q, b) && Windowed(r, s, q) && q != [] && IsWin(q[0])
    ensures var c2 := ReceiveChan(r.ch, q[0]);
            && (c2.flags == r.ch.flags || c2.flags == r.ch.flags + {FAccept})
            && ReadShut(c2) == ReadShut(r.ch) && WriteShut(c2) == WriteShut(r.ch)
            && (Open(c2) ==> c2.sendmss == MAXSEG)
  {
    hide WinOk;
    assert GoodWin(q[0]) by { HeadWin(q, r.ch.granted, |s.ch.readout| + RBSIZE); }
  }

  lemma {:induction false} HeadWin(q: seq<Packet>, lo: nat, hi: nat)
    requires WinOk(q, lo, hi) && q != [] && IsWin(q[0])
    ensures GoodWin(q[0])
  {
  }

  lemma ReceiveShape(l: Link, l2: Link)
    requires Act(l, DoReceive) == Some(l2)
    ensures l.yx != [] && l.x.rcv == Waiting
    ensures Stream(Swap(l)) != [] && Stream(Swap(l))[0] == l.yx[0] && (|Stream(Swap(l))| == 1 ==> !l.y.snd.Built?)
    ensures Acceptable(l.x.ch, l.yx[0]) ==>
              Received(l.x, l.yx[0], l2.x) && l2 == Link(l2.x, l.y, l.xy, l.yx[1..]) && l2.x.snd == l.x.snd
    ensures Acceptable(l.x.ch, l.yx[0]) ==> l2.x.failed == l.x.failed
  {
  }

  lemma ReceiveStreams(l: Link, l2: Link)
    requires l.yx != [] && l2 == Link(l2.x, l.y, l.xy, l.yx[1..]) && l2.x.snd == l.x.snd
    ensures Stream(l2) == Stream(l) && Stream(Swap(l2)) == Stream(Swap(l))[1..]
  {
  }

  lemma ReceiveDirection(s: Side, r: Side, r2: Side, q: seq<Packet>, b: seq<Packet>)
    requires Direction(s, r, q, b) && Direction(r, s, b, q) && Handshake(s, r, q, b)
    requires q != [] && r.rcv == Waiting && Acceptable(r.ch, q[0]) && Received(r, q[0], r2)
    ensures Direction(s, r2, q[1..], b) && Direction(r2, s, b, q[1..])
  {
    hide Conserved, Windowed, Closing, Flowing, Handshake;
    if q[0].PData? {
      DataMove(s, r, r2, q, b);
    } else if q[0].PClose? {
      CloseArrives(s, r, r2, q, b);
    } else {
      WindowIn(s, r, q, b);
      WindowMove(s, r, r2, q, b);
    }
  }

  lemma KeepReceive(l: Link, l2: Link)
    requires Inv(l) && Act(l, DoReceive) == Some(l2)
    ensures Inv(l2)
  {
    hide Act, Direction, Handshake, Received, Stream;
    var s, r, r2 := l.y, l.x, l2.x;
    var q, b := Stream(Swap(l)), Stream(l);
    ReceiveShape(l, l2);
    HandshakeSwap(r, s, b, q);
    HeadAcceptable(s, r, q, b);
    ReceiveStreams(l, l2);
    ReceiveDirection(s, r, r2, q, b);
    ReceiveHandshake(s, r, r2, q, b);
    HandshakeSwap(s, r2, q[1..], b);
  }

  // ------------------------------------------------------------ every run

  lemma ActKeeps(l: Link, a: Action, l2: Link)
    requires Inv(l) && Act(l, a) == Some(l2)
    ensures Inv(l2)
  {
    hide Inv, Act;
    match a
    case DoListen => KeepListen(l, l2);
    case DoConnect => KeepConnect(l, l2);
    case DoClose => KeepClose(l, l2);
    case DoRead(n) => KeepRead(l, n, l2);
    case DoWrite(bytes) => KeepWrite(l, bytes, l2);
    case DoScan => KeepScan(l, l2);
    case DoBuild => KeepBuild(l, l2);
    case DoSend => KeepSend(l, l2);
    case DoFinish => KeepFinish(l, l2);
    case DoReceive => KeepReceive(l, l2);
    case DoBody => KeepBody(l, l2);
  }

  lemma NextKeeps(l: Link, l2: Link)
    requires Inv(l) && Next(l, l2)
    ensures Inv(l2)
  {
    hide Inv, Act;
    var a :| Act(l, a) == Some(l2) || (Act(Swap(l), a).Some? && l2 == Swap(Act(Swap(l), a).value));
    if Act(l, a) == Some(l2) {
      ActKeeps(l, a, l2);
    } else {
      InvSwap(l);
      ActKeeps(Swap(l), a, Act(Swap(l), a).value);
      InvSwap(Act(Swap(l), a).value);
    }
  }

  ghost predicate Run(ls: seq<Link>) {
    && ls != [] && ls[0] == NEW_LINK
    && forall i :: 0 < i < |ls| ==> ls[i] == ls[i - 1] || Next(ls[i - 1], ls[i])
  }

  /** Every state of every run keeps the invariant. */
  lemma {:induction false} RunKeeps(ls: seq<Link>, i: nat)
    requires Run(ls) && i < |ls|
    ensures Inv(ls[i])
  {
    if i == 0 {
      InitKeeps();
    } else {
      hide Inv, Next;
      RunKeeps(ls, i - 1);
      if ls[i] != ls[i - 1] {
        NextKeeps(ls[i - 1], ls[i]);
      }
    }
  }

  /** In any run neither receiver ends in a protocol error, what arrives next is
      never refused, and the sender's buffer holds what it says it has sent. */
  lemma NoProtocolError(ls: seq<Link>, i: nat)
    requires Run(ls) && i < |ls|
    ensures !ls[i].x.failed && !ls[i].y.failed
    ensures ls[i].x.rcv == Waiting && ls[i].yx != [] ==> Acceptable(ls[i].x.ch, ls[i].yx[0])
    ensures ls[i].x.snd.Wrote? ==> ls[i].x.snd.size <= |ls[i].x.ch.sendbuf|
  {
    RunKeeps(ls, i);
    var l := ls[i];
    HandshakeSwap(l.x, l.y, Stream(l), Stream(Swap(l)));
    if l.x.rcv == Waiting && l.yx != [] {
      HeadAcceptable(l.y, l.x, Stream(Swap(l)), Stream(l));
    }
  }

  /** While a connect is issued only towards a listening channel, no reset is ever
      pending, so that no listen comes late. */
  lemma NoResetPending(ls: seq<Link>, i: nat)
    requires Run(ls) && i < |ls|
    ensures FReset !in ls[i].x.ch.flags && FReset !in ls[i].y.ch.flags
  {
    RunKeeps(ls, i);
    hide Direction, Run, Traffic;
  }

  /** Delivery: what the application has read is always a prefix of what the
      peer has written, and what lies between is in the two buffers and the pipe. */
  lemma DeliveredInOrder(ls: seq<Link>, i: nat)
    requires Run(ls) && i < |ls|
    ensures ls[i].y.ch.readout <= ls[i].x.ch.written
    ensures Conserved(ls[i].x, ls[i].y, Stream(ls[i]))
  {
    hide DataOf;
    RunKeeps(ls, i);
  }

  /** Flow control: what is in flight or buffered never exceeds the receive
      buffer, and the 32-bit difference is the true remaining window. */
  lemma WindowIsTrue(ls: seq<Link>, i: nat)
    requires Run(ls) && i < |ls|
    ensures var x, y := ls[i].x, ls[i].y;
            && |y.ch.recvbuf| + |BodyOf(y)| + |DataOf(Stream(ls[i]))| <= RBSIZE
            && Sent(x.ch) >= 0 && x.ch.sendseq == Sent(x.ch) % WORD
            && (x.ch.sendwin - x.ch.sendseq) % WORD == x.ch.granted - Sent(x.ch)
            && x.ch.granted <= |y.ch.readout| + RBSIZE
  {
    hide DataOf, WinOk;
    RunKeeps(ls, i);
    var l := ls[i];
    var q, b := Stream(l), Stream(Swap(l));
    PendingSmall(l.x, l.y, q, b);
    WindowBound(l.x, l.y, q, b);
    TrueWindow(Sent(l.x.ch), l.x.ch.granted);
  }

  lemma {:induction false} WindowAhead(read: nat)
    ensures (read % 4294967296 + 16384) % 4294967296 == (read + 16384) % 4294967296
  {
  }

  /** The packets for a channel with `room` left in its window. */
  lemma {:induction false} PacketShape(c: Chan, room: nat)
    requires c.sendmss == MAXSEG && (c.sendwin - c.sendseq) % WORD == room && c.recvseq == |c.readout| % WORD
    ensures var n := DataSize(c);
            && n <= |c.sendbuf| && n <= 1024 && n <= room && (n == |c.sendbuf| || n == 1024 || n == room)
            && BuildPacket(c, FData) == PData(c.sendbuf[..n])
    ensures var upto: nat := |c.readout| + 16384;
            && BuildPacket(c, FWindow) == PWindow(upto % 4294967296, upto)
            && BuildPacket(c, FAccept) == PAccept(1024, upto % 4294967296, upto)
  {
    WindowAhead(|c.readout|);
  }

  /** What the sender makes of an open channel: as many bytes as there are, as fit in a
      segment and as the window has room for; and a window that is the receive buffer
      ahead of what the application has read. */
  lemma {:induction false} PacketsBuilt(ls: seq<Link>, i: nat)
    requires Run(ls) && i < |ls| && Open(ls[i].x.ch)
    ensures var c := ls[i].x.ch;
            var n, room := DataSize(c), c.granted - Sent(c);
            && n <= |c.sendbuf| && n <= 1024 && n <= room && (n == |c.sendbuf| || n == 1024 || n == room)
            && BuildPacket(c, FData) == PData(c.sendbuf[..n])
    ensures var c := ls[i].x.ch;
            var upto: nat := |c.readout| + 16384;
            && BuildPacket(c, FWindow) == PWindow(upto % 4294967296, upto)
            && BuildPacket(c, FAccept) == PAccept(1024, upto % 4294967296, upto)
  {
    hide Run, Inv, DataSize, BuildPacket, DataOf, Stream, BodyOf;
    RunKeeps(ls, i);
    WindowIsTrue(ls, i);
    var l := ls[i];
    SegmentSize(l);
    PacketShape(l.x.ch, l.x.ch.granted - Sent(l.x.ch));
  }

  lemma {:induction false} SegmentSize(l: Link)
    requires Inv(l) && Open(l.x.ch)
    ensures l.x.ch.sendmss == MAXSEG && l.x.ch.recvseq == |l.x.ch.readout| % WORD
  {
    hide Handshake, Conserved, Closing, Flowing, WinOk;
  }

  /** Once a close has left the sender, no data is behind it and none will be
      sent, though unsent bytes may remain when the window is exhausted. */
  lemma NothingAfterClose(ls: seq<Link>, i: nat)
    requires Run(ls) && i < |ls|
    ensures CloseLast(Stream(ls[i]))
    ensures var x, q := ls[i].x, Stream(ls[i]);
            CloseCount(q) > 0 || ReadShut(ls[i].y.ch) ==>
              !HasData(x.ch) && FData !in x.ch.flags && !Sending(x) && CloseCount(q) <= 1
    ensures ReadShut(ls[i].y.ch) ==> NoData(Stream(ls[i])) && WriteShut(ls[i].x.ch)
  {
    hide DataOf, WinOk, CloseLast, NoData, HasData;
    RunKeeps(ls, i);
  }

  /** When the window is exhausted a close overtakes unsent bytes, and no later
      window update can bring them out: delivery is a prefix, not all. */
  lemma CloseOvertakesData(c: Chan, window: Word, upto: nat)
    requires c.state == Established && c.flags == {} && c.sendbuf != []
    ensures c.sendseq == c.sendwin <==> Top(ScanFlags(CloseChan(c))) == FClose
    ensures ReceiveChan(CloseChan(c), PWindow(window, upto)) == CloseChan(c)
    ensures !CanWrite(CloseChan(c))
  {
    assert CloseChan(c).flags == {FClose};
  }
}
