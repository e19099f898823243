/** The channel and the multiplexer as the code has them, fields and ring buffers
    updated in place: each routine does to its channel exactly what the step of
    the two-peer system does. */
module MuxChan {
  import opened MuxLink
  import opened MuxSystem
  import opened MuxWire
  import R = RingBuf

  datatype ReadResult = End | NotOpen | NoneYet | Read(bytes: seq<Byte>)
  datatype WriteResult = Broken | NoRoom | Wrote(n: nat)

  /** The wakeups a routine owes after it has unlocked the channel. */
  datatype Outcome = ProtocolError | Done(wake: bool)

  class Channel {
    var flags: set<Flag>
    var state: State
    const recvbuf: R.Buf
    var recvseq: Word
    const sendbuf: R.Buf
    var sendseq: Word
    var sendwin: Word
    var sendmss: Half
    ghost var written: seq<Byte>
    ghost var readout: seq<Byte>
    ghost var granted: nat

    ghost const Repr: set<object> := {this, recvbuf, recvbuf.data, sendbuf, sendbuf.data}

    ghost predicate Valid()
      reads Repr
    {
      && recvbuf != sendbuf && recvbuf.data != sendbuf.data
      && recvbuf.Valid() && recvbuf.size == RBSIZE
      && sendbuf.Valid() && sendbuf.size == SBSIZE
    }

    /** The channel as a value. */
    ghost function View(): (c: Chan)
      reads Repr
      requires Valid()
      ensures |c.recvbuf| <= RBSIZE && |c.sendbuf| <= SBSIZE
    {
      Chan(flags, state, recvbuf.Contents(), recvseq, sendbuf.Contents(), sendseq, sendwin, sendmss,
           written, readout, granted)
    }

    constructor ()
      ensures Valid() && fresh(Repr) && View() == NEW_CHAN
    {
      flags, state := {}, Unused;
      recvbuf := new R.Buf(RBSIZE);
      sendbuf := new R.Buf(SBSIZE);
      recvseq, sendseq, sendwin, sendmss := 0, 0, 0, 0;
      written, readout, granted := [], [], 0;
    }

    method Close() returns (ok: bool)
      requires Valid()
      modifies this`state, this`flags
      ensures Valid() && View() == CloseChan(old(View()))
      ensures ok <==> old(state) in {Established, RdClosed, WrClosed, Closed}
    {
      if state == Established {
        state, flags := WrClosed, flags + {FClose};
      } else if state == RdClosed {
        state, flags := Closed, flags + {FClose};
      } else {
        return state == WrClosed || state == Closed;
      }
      ok := true;
    }

    /** One try of a read; NoneYet makes the caller wait and try again.  Bytes that
        are still buffered when the other side has closed are not delivered. */
    method TryRead(size: nat) returns (r: ReadResult)
      requires Valid() && size > 0
      modifies this, recvbuf
      ensures Valid()
      ensures r.Read? <==> CanRead(old(View()))
      ensures r.Read? ==>
                var n := Min(size, |old(View()).recvbuf|);
                n > 0 && r.bytes == old(View()).recvbuf[..n] && View() == ReadChan(old(View()), n)
      ensures !r.Read? ==> View() == old(View())
      ensures r == End <==> old(state) == RdClosed || old(state) == Closed
      ensures r == NotOpen <==> old(state) in {Unused, Listening, Connecting}
      ensures r == NoneYet <==> (old(state) == Established || old(state) == WrClosed) && old(View()).recvbuf == []
    {
      if state == RdClosed || state == Closed {
        return End;
      }
      if state != Established && state != WrClosed {
        return NotOpen;
      }
      var count := recvbuf.Count();
      if count == 0 {
        return NoneYet;
      }
      var bytes := Take(if count < size then count else size);
      r := Read(bytes);
    }

    /** Takes `n` bytes out of the receive buffer: the window may grow. */
    method Take(n: nat) returns (bytes: seq<Byte>)
      requires Valid() && n <= |View().recvbuf|
      modifies this`recvseq, this`flags, this`readout, recvbuf`out
      ensures Valid() && bytes == old(View()).recvbuf[..n] && View() == ReadChan(old(View()), n)
    {
      bytes := recvbuf.Get(n);
      recvseq := (recvseq + n) % WORD;
      flags := flags + {FWindow};
      readout := readout + bytes;
    }

    /** One turn of the loop in a write: as much as there is room for; NoRoom makes
        the caller wait and try again. */
    method TryWrite(src: seq<Byte>) returns (r: WriteResult)
      requires Valid() && src != []
      modifies this`written, sendbuf, sendbuf.data
      ensures Valid()
      ensures r.Wrote? <==> CanWrite(old(View()))
      ensures r.Wrote? ==>
                r.n == Min(SBSIZE - |old(View()).sendbuf|, |src|) && View() == WriteChan(old(View()), src[..r.n])
      ensures !r.Wrote? ==> View() == old(View())
      ensures r == Broken <==> old(state) != Established && old(state) != RdClosed
      ensures r == NoRoom <==> old(state) in {Established, RdClosed} && |old(View()).sendbuf| == 16384
    {
      if state != Established && state != RdClosed {
        return Broken;
      }
      var avail := sendbuf.Avail();
      if avail == 0 {
        return NoRoom;
      }
      var n := if avail < |src| then avail else |src|;
      sendbuf.Put(src[..n]);
      written := written + src[..n];
      r := WriteResult.Wrote(n);
    }

    /** Looks for work on the channel and takes the flag of most importance. */
    method Scan() returns (found: bool, what: Flag)
      requires Valid()
      modifies this`flags
      ensures Valid() && found == (ScanFlags(old(View())) != {})
      ensures found ==> what == Top(ScanFlags(old(View()))) && View() == ScanChan(old(View()))
      ensures !found ==> View() == old(View())
    {
      found, what := false, FClose;
      if state != Unused {
        if sendseq != sendwin && sendbuf.Count() > 0 {
          flags := flags + {FData};
        }
        if flags != {} {
          what := Top(flags);
          flags := flags - {what};
          found := true;
        }
      }
    }

    /** The packet the sender writes for a flag; the bytes of a DATA packet are
        taken straight from the buffer, in one piece or two. */
    method Build(id: Byte, what: Flag) returns (f: Frame)
      requires Valid()
      ensures f == OnWire(id, BuildPacket(View(), what))
    {
      var window := (recvseq + recvbuf.size) % WORD;
      match what
      case FConnect => f := Connect(id, MAXSEG, window);
      case FAccept => f := Accept(id, MAXSEG, window);
      case FReset => f := Reset(id);
      case FWindow => f := Window(id, window);
      case FData =>
        var count := sendbuf.Count();
        var size := if count < sendmss then count else sendmss;
        var winsize := (sendwin - sendseq) % WORD;
        if winsize < size {
          size := winsize;
        }
        var len := sendbuf.FirstSegment(size);
        f := Data(id, sendbuf.data[sendbuf.out..sendbuf.out + len] + sendbuf.data[..size - len]);
      case FClose => f := Frame.Close(id);
    }

    /** After the bytes of a DATA packet have been written. */
    method Finish(size: nat)
      requires Valid() && size <= |View().sendbuf|
      modifies this`sendseq, sendbuf`out
      ensures Valid() && View() == SentChan(old(View()), size)
    {
      sendseq := (sendseq + size) % WORD;
      sendbuf.Consume(size);
    }

    /** The receiver's work on the header of the packet `p`, which came as `f`. */
    method Receive(f: Frame, ghost p: Packet) returns (out: Outcome)
      requires Valid() && Carries(f, p)
      modifies this`state, this`flags, this`sendmss, this`sendwin, this`granted
      ensures Valid() && Acceptable(old(View()), p) == out.Done?
      ensures View() == if out.Done? then Header(old(View()), p) else old(View())
    {
      match f
      case Connect(_, mss, window) =>
        if state == Listening {
          state, sendmss, sendwin := Established, mss, window;
          granted := p.upto;
          flags := flags + {FAccept};
        } else {
          flags := flags + {FReset};
        }
        out := Done(true);
      case Accept(_, mss, window) =>
        if state == Connecting {
          state, sendmss, sendwin := Established, mss, window;
          granted := p.upto;
          out := Done(false);
        } else {
          flags := flags + {FReset};
          out := Done(true);
        }
      case Reset(_) => out := ProtocolError;
      case Window(_, window) =>
        if state == Established || state == RdClosed {
          sendwin := window;
          granted := p.upto;
          out := Done(true);
        } else {
          out := Done(false);
        }
      case Data(_, bytes) =>
        if (state != Established && state != WrClosed) || |bytes| > recvbuf.Avail() || |bytes| > MAXSEG {
          out := ProtocolError;
        } else {
          out := Done(false);
        }
      case Close(_) =>
        if state == Established {
          state := RdClosed;
          out := Done(false);
        } else if state == WrClosed {
          state := Closed;
          out := Done(false);
        } else {
          out := ProtocolError;
        }
    }

    /** The body of an accepted DATA packet: filled in with the channel unlocked,
        then taken into the buffer. */
    method Body(bytes: seq<Byte>)
      requires Valid() && |bytes| <= RBSIZE - |View().recvbuf|
      modifies recvbuf, recvbuf.data
      ensures Valid() && View() == old(View()).(recvbuf := old(View()).recvbuf + bytes)
    {
      recvbuf.Fill(bytes);
      recvbuf.Produce(|bytes|);
    }
  }

  /** `f` is the packet `p` on the wire. */
  predicate Carries(f: Frame, p: Packet) {
    match p
    case PConnect(mss, window, _) => f.Connect? && f.mss == mss && f.window == window
    case PAccept(mss, window, _) => f.Accept? && f.mss == mss && f.window == window
    case PReset => f.Reset?
    case PData(bytes) => f.Data? && f.bytes == bytes
    case PWindow(window, _) => f.Window? && f.window == window
    case PClose => f.Close?
  }

  /** The channel once the header of an acceptable packet has been dealt with. */
  function Header(c: Chan, p: Packet): Chan {
    match p
    case PData(bytes) => c
    case PReset => c
    case PClose => c.(state := if c.state == Established then RdClosed else Closed)
    case _ => ReceiveChan(c, p)
  }

  /** The channel `left` steps before `last`, going round. */
  function Before(last: nat, n: nat, left: nat): nat
    requires last < n && left <= n
  {
    if last >= left then last - left else last + n - left
  }

  lemma ScanStep(v: seq<Chan>, last: nat, left: nat)
    requires last < |v| && 0 < left <= |v|
    ensures var k, k2 := Before(last, |v|, left), Before(last, |v|, left - 1);
            k < |v| && k2 == (if k + 1 >= |v| then 0 else k + 1) < |v| && (k2 == last <==> left == 1) &&
            ScanFrom(v, k, left) == if ScanFlags(v[k2]) != {} then Some(k2) else ScanFrom(v, k2, left - 1)
    ensures left == 1 ==> ScanFrom(v, last, 0) == None
    ensures Before(last, |v|, |v|) == last
  {
  }

  /** The sender's part of the multiplexer. */
  class Mux {
    const channels: seq<Channel>
    ghost const Repr: set<object>    // the channels and their buffers
    var lastid: nat

    ghost predicate Valid()
      reads this, Repr
    {
      && lastid < |channels| && this !in Repr
      && (forall i :: 0 <= i < |channels| ==> channels[i] in Repr && channels[i].Repr <= Repr && channels[i].Valid())
      && (forall i, j :: 0 <= i < j < |channels| ==> channels[i].Repr !! channels[j].Repr)
    }

    /** The channels as values. */
    ghost predicate Shows(v: seq<Chan>)
      reads this, Repr
    {
      Valid() && |v| == |channels| && forall i :: 0 <= i < |channels| ==> channels[i].View() == v[i]
    }

    /** The channels showed `v` and the flag `what` has been taken from channel `k`. */
    ghost predicate Taken(v: seq<Chan>, k: nat, what: Flag)
      reads this, Repr
    {
      k < |v| && ScanFlags(v[k]) != {} && what == Top(ScanFlags(v[k])) && Shows(v[k := ScanChan(v[k])])
    }

    method ScanAt(c: Channel, ghost k: nat, ghost v: seq<Chan>) returns (found: bool, what: Flag)
      requires Shows(v) && k < |channels| && c == channels[k]
      modifies c`flags
      ensures found == (ScanFlags(v[k]) != {})
      ensures if found then Taken(v, k, what) else Shows(v)
    {
      hide ScanFlags, ScanChan, Top;
      found, what := c.Scan();
      assert forall i :: 0 <= i < |channels| && i != k ==> channels[i].View() == v[i];
    }

    ghost predicate Scanned(v: seq<Chan>, r: Option<nat>, id: int, what: Flag)
      reads this, Repr
    {
      match r
      case None => id == -1 && Shows(v)
      case Some(k) => id == k && Taken(v, k, what)
    }

    /** One turn of the loop: on to the next channel. */
    method Turn(k: nat, last: nat, ghost left: nat, ghost v: seq<Chan>) returns (k2: nat, found: bool, what: Flag)
      requires Shows(v) && last < |v| && 0 < left <= |v| && k == Before(last, |v|, left)
      modifies Repr
      ensures k2 == Before(last, |v|, left - 1) && (k2 == last <==> left == 1)
      ensures found ==> Scanned(v, ScanFrom(v, k, left), k2, what)
      ensures !found ==> Shows(v) && ScanFrom(v, k, left) == ScanFrom(v, k2, left - 1)
      ensures left == 1 ==> ScanFrom(v, k2, 0) == None
    {
      ScanStep(v, last, left);
      k2 := if k + 1 >= |channels| then 0 else k + 1;
      assert channels[k2] in Repr;
      hide ScanFlags, ScanChan, Top, Shows, Taken, ScanFrom, Before;
      found, what := ScanAt(channels[k2], k2, v);
    }

    /** The loop of the scan for work. */
    method ScanRound(last: nat, ghost v: seq<Chan>) returns (id: int, what: Flag)
      requires Shows(v) && last < |v|
      modifies Repr
      ensures Scanned(v, ScanFrom(v, last, |v|), id, what)
    {
      var k: nat := last;
      ghost var left := |v|;
      hide ScanFlags, ScanChan, Top, Shows, Taken, ScanFrom;
      while true
        invariant 1 <= left <= |v| && k == Before(last, |v|, left) && Shows(v)
        invariant ScanFrom(v, last, |v|) == ScanFrom(v, k, left)
        decreases left
      {
        var found;
        k, found, what := Turn(k, last, left, v);
        if found {
          return k, what;
        }
        left := left - 1;
        if k == last {
          return -1, FClose;
        }
      }
    }

    /** The scan for work: round the channels, starting behind the one found last.
        Its only effect on the channels is to take the flag it returns. */
    method Scan(ghost v: seq<Chan>) returns (id: int, what: Flag)
      requires Shows(v)
      modifies this`lastid, Repr
      ensures Scanned(v, ScanFrom(v, old(lastid), |v|), id, what)
      ensures lastid == if id == -1 then old(lastid) else id
    {
      hide ScanFlags, ScanChan, Top, ScanFrom;
      id, what := ScanRound(lastid, v);
      if id != -1 {
        lastid := id;
      }
    }
  }
}
