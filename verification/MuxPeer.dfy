/** What a channel makes of packets from any peer, well-behaved or not. */
module MuxPeer {
  import opened MuxLink
  import opened MuxSafety

  /** The receiver works through all that is in its pipe, the bodies of DATA packets
      included; None when it takes its protocol-error exit. */
  function Feed(l: Link): (r: Option<Link>)
    requires !l.x.failed && l.x.rcv == Waiting
    decreases |l.yx|
  {
    if l.yx == [] then Some(l)
    else
      var l1 := Act(l, DoReceive).value;
      if l1.x.failed then None
      else if l1.x.rcv.Body? then Feed(Act(l1, DoBody).value)
      else Feed(l1)
  }

  /** No resets, segments of at most 1024 bytes, and behind a close neither data nor
      another close. */
  predicate Orderly(q: seq<Packet>) {
    && (forall i :: 0 <= i < |q| ==> !q[i].PReset? && (q[i].PData? ==> |q[i].bytes| <= 1024))
    && (forall i, j :: 0 <= i < j < |q| && q[i].PClose? ==> !q[j].PData? && !q[j].PClose?)
  }

  predicate Closes(q: seq<Packet>) {
    exists i :: 0 <= i < |q| && q[i].PClose?
  }

  /** Nothing but windows and, out of turn, connects and accepts. */
  predicate Signals(q: seq<Packet>) {
    forall i :: 0 <= i < |q| ==> q[i].PWindow? || q[i].PConnect? || q[i].PAccept?
  }

  predicate Reads(c: Chan) { c.state == Established || c.state == WrClosed }

  lemma {:induction false} OrderlyFirst(q: seq<Packet>)
    requires q != []
    ensures Orderly(q) <==>
            && !q[0].PReset? && (q[0].PData? ==> |q[0].bytes| <= 1024)
            && (if q[0].PClose? then Signals(q[1..]) else Orderly(q[1..]))
    ensures Closes(q) <==> q[0].PClose? || Closes(q[1..])
    ensures Signals(q) <==> !q[0].PReset? && !q[0].PData? && !q[0].PClose? && Signals(q[1..])
  {
    var t := q[1..];
    assert forall i :: 0 < i < |q| ==> q[i] == t[i - 1];
    assert forall i :: 0 <= i < |t| ==> t[i] == q[i + 1];
    if Closes(t) {
      var i :| 0 <= i < |t| && t[i].PClose?;
      assert q[i + 1].PClose?;
    }
    if q[0].PClose? && Orderly(q) {
      forall i | 0 <= i < |t| ensures t[i].PWindow? || t[i].PConnect? || t[i].PAccept? {
        assert q[0].PClose? && t[i] == q[i + 1];
      }
    }
  }

  lemma {:induction false} SignalsDataless(q: seq<Packet>)
    requires Signals(q)
    ensures DataOf(q) == []
  {
    if q != [] {
      assert q[0] == q[0..][0];
      SignalsDataless(q[1..]);
    }
  }

  /** Behind a close only signals are taken. */
  lemma {:induction false} FedShut(l: Link)
    requires !l.x.failed && l.x.rcv == Waiting && ReadShut(l.x.ch)
    ensures Feed(l).Some? <==> Signals(l.yx)
    ensures Feed(l).Some? ==> Feed(l).value.x.ch.recvbuf == l.x.ch.recvbuf && ReadShut(Feed(l).value.x.ch)
    decreases |l.yx|
  {
    if l.yx != [] {
      OrderlyFirst(l.yx);
      var l1 := Act(l, DoReceive).value;
      if !l1.x.failed { FedShut(l1); }
    }
  }

  lemma {:induction false} DataFirst(q: seq<Packet>)
    requires q != []
    ensures DataOf(q) == (if q[0].PData? then q[0].bytes else []) + DataOf(q[1..])
  {
  }

  /** One packet, with its body. */
  lemma {:induction false} FedFirst(l: Link) returns (l2: Link)
    requires !l.x.failed && l.x.rcv == Waiting && Reads(l.x.ch) && |l.x.ch.recvbuf| <= RBSIZE && l.yx != []
    ensures var p, c := l.yx[0], l.x.ch;
            var took := !p.PReset? && (p.PData? ==> |p.bytes| <= 1024 && |c.recvbuf| + |p.bytes| <= 16384);
            && !l2.x.failed && l2.x.rcv == Waiting && (if p.PClose? then ReadShut(l2.x.ch) else Reads(l2.x.ch))
            && l2.yx == l.yx[1..] && Feed(l) == (if took then Feed(l2) else None)
            && (took ==> l2.x.ch.recvbuf == c.recvbuf + if p.PData? then p.bytes else [])
            && |l2.x.ch.recvbuf| <= RBSIZE
  {
    var p := l.yx[0];
    var l1 := Act(l, DoReceive).value;
    if l1.x.failed {
      l2 := l.(yx := l.yx[1..]);
    } else if l1.x.rcv.Body? {
      l2 := Act(l1, DoBody).value;
    } else {
      l2 := l1;
      assert l.x.ch.recvbuf + [] == l.x.ch.recvbuf;
    }
  }

  /** Whatever packets come for a channel that is open for reading: they are taken if and
      only if they are orderly and fit into the receive buffer, and then it holds exactly
      their data; otherwise the connection ends with a protocol error. */
  lemma {:induction false} AnyPackets(l: Link)
    requires !l.x.failed && l.x.rcv == Waiting && Reads(l.x.ch) && |l.x.ch.recvbuf| <= RBSIZE
    ensures Feed(l).Some? <==> Orderly(l.yx) && |l.x.ch.recvbuf| + |DataOf(l.yx)| <= 16384
    ensures Feed(l).Some? ==>
              var c := Feed(l).value.x.ch;
              c.recvbuf == l.x.ch.recvbuf + DataOf(l.yx) && (ReadShut(c) <==> Closes(l.yx))
    decreases |l.yx|
  {
    hide Orderly, Closes, Signals, DataOf, Feed, Act, ReadShut;
    if l.yx == [] {
      NothingFed(l);
    } else {
      var q := l.yx[1..];
      OrderlyFirst(l.yx);
      DataFirst(l.yx);
      var l2 := FedFirst(l);
      if l.yx[0].PClose? {
        FedShut(l2);
        if Signals(q) { SignalsDataless(q); }
      } else {
        AnyPackets(l2);
      }
      JoinTwo(l.x.ch.recvbuf, if l.yx[0].PData? then l.yx[0].bytes else [], DataOf(q));
    }
  }

  lemma {:induction false} JoinTwo(a: seq<Byte>, b: seq<Byte>, c: seq<Byte>)
    ensures a + (b + c) == a + b + c && (c == [] ==> a + b + c == a + b)
  {
  }

  lemma {:induction false} NothingFed(l: Link)
    requires !l.x.failed && l.x.rcv == Waiting && l.yx == [] && Reads(l.x.ch)
    ensures Feed(l) == Some(l) && Orderly([]) && !Closes([]) && DataOf([]) == [] && !ReadShut(l.x.ch)
    ensures l.x.ch.recvbuf + [] == l.x.ch.recvbuf
  {
  }
}
