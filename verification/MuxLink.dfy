/** One channel between two multiplexers: what the application calls, the sender
    and the receiver do to it, as steps on two channel ends and two FIFO pipes. */
module MuxLink {

  type Byte = x: int | 0 <= x < 256

  const SBSIZE := 16384
  const RBSIZE := 16384
  const MAXSEG := 1024
  const WORD := 0x1_0000_0000

  /** A 32-bit unsigned number. */
  type Word = x: nat | x < WORD

  function Min(a: int, b: int): int { if a < b then a else b }

  datatype State = Unused | Listening | Connecting | Established | RdClosed | WrClosed | Closed

  datatype Flag = FConnect | FAccept | FReset | FWindow | FData | FClose

  /** Packets of the channel.  `upto` is the true count behind a 32-bit window;
      it is not on the wire and no step looks at it. */
  datatype Packet =
    | PConnect(mss: nat, window: Word, upto: nat)
    | PAccept(mss: nat, window: Word, upto: nat)
    | PReset
    | PWindow(window: Word, upto: nat)
    | PData(bytes: seq<Byte>)
    | PClose

  /** A channel end.  `written`, `readout` and `granted` are history: the bytes
      accepted from and handed to the application, and the true send window. */
  datatype Chan = Chan(
    flags: set<Flag>, state: State,
    recvbuf: seq<Byte>, recvseq: Word,
    sendbuf: seq<Byte>, sendseq: Word, sendwin: Word, sendmss: nat,
    written: seq<Byte>, readout: seq<Byte>, granted: nat)

  /** Where the sender thread is with this channel. */
  datatype Sender = Idle | Chosen(what: Flag) | Built(packet: Packet) | Wrote(size: nat)

  /** Where the receiver thread is: possibly between a DATA header and its end. */
  datatype Receiver = Waiting | Body(bytes: seq<Byte>)

  datatype Side = Side(ch: Chan, snd: Sender, rcv: Receiver, failed: bool)

  datatype Link = Link(x: Side, y: Side, xy: seq<Packet>, yx: seq<Packet>)

  const NEW_CHAN := Chan({}, Unused, [], 0, [], 0, 0, 0, [], [], 0)
  const NEW_SIDE := Side(NEW_CHAN, Idle, Waiting, false)
  const NEW_LINK := Link(NEW_SIDE, NEW_SIDE, [], [])

  function Swap(l: Link): Link {
    Link(l.y, l.x, l.yx, l.xy)
  }

  // ------------------------------------------------------- the channel's moves

  /** Close from the application: refused while the channel is not open. */
  function CloseChan(c: Chan): Chan {
    match c.state
    case Established => c.(state := WrClosed, flags := c.flags + {FClose})
    case RdClosed => c.(state := Closed, flags := c.flags + {FClose})
    case _ => c
  }

  predicate CanRead(c: Chan) {
    (c.state == Established || c.state == WrClosed) && c.recvbuf != []
  }

  function ReadChan(c: Chan, n: nat): Chan
    requires n <= |c.recvbuf|
  {
    c.(recvbuf := c.recvbuf[n..], recvseq := (c.recvseq + n) % WORD, flags := c.flags + {FWindow},
       readout := c.readout + c.recvbuf[..n])
  }

  predicate CanWrite(c: Chan) {
    (c.state == Established || c.state == RdClosed) && |c.sendbuf| < SBSIZE
  }

  function WriteChan(c: Chan, bytes: seq<Byte>): Chan {
    c.(sendbuf := c.sendbuf + bytes, written := c.written + bytes)
  }

  /** The bit that stands for a flag. */
  function Mask(f: Flag): nat {
    match f
    case FConnect => 0x01
    case FAccept => 0x02
    case FReset => 0x04
    case FWindow => 0x08
    case FData => 0x10
    case FClose => 0x20
  }

  /** The flag of most importance, which is the lowest bit. */
  function Top(flags: set<Flag>): (f: Flag)
    requires flags != {}
    ensures f in flags && forall g :: g in flags ==> Mask(f) <= Mask(g)
  {
    if FConnect in flags then FConnect
    else if FAccept in flags then FAccept
    else if FReset in flags then FReset
    else if FWindow in flags then FWindow
    else if FData in flags then FData
    else
      assert FClose in flags by {
        var g :| g in flags;
        assert g.FConnect? || g.FAccept? || g.FReset? || g.FWindow? || g.FData? || g.FClose?;
      }
      FClose
  }

  predicate HasData(c: Chan) {
    c.sendseq != c.sendwin && c.sendbuf != []
  }

  /** The flags a scan of the channel works with. */
  function ScanFlags(c: Chan): set<Flag> {
    if c.state == Unused then {}
    else if HasData(c) then c.flags + {FData}
    else c.flags
  }

  function ScanChan(c: Chan): Chan
    requires ScanFlags(c) != {}
  {
    c.(flags := ScanFlags(c) - {Top(ScanFlags(c))})
  }

  /** The number of bytes in the next DATA packet, by 32-bit arithmetic. */
  function DataSize(c: Chan): (n: nat)
    ensures n <= |c.sendbuf|
  {
    var size := Min(|c.sendbuf|, c.sendmss);
    var winsize := (c.sendwin - c.sendseq) % WORD;
    if winsize < size then winsize else size
  }

  function BuildPacket(c: Chan, what: Flag): Packet {
    var window, upto := (c.recvseq + RBSIZE) % WORD, |c.readout| + RBSIZE;
    match what
    case FConnect => PConnect(MAXSEG, window, upto)
    case FAccept => PAccept(MAXSEG, window, upto)
    case FReset => PReset
    case FWindow => PWindow(window, upto)
    case FData => PData(c.sendbuf[..DataSize(c)])
    case FClose => PClose
  }

  /** The sender is done writing `size` bytes of the buffer. */
  function SentChan(c: Chan, size: nat): Chan
    requires size <= |c.sendbuf|
  {
    c.(sendseq := (c.sendseq + size) % WORD, sendbuf := c.sendbuf[size..])
  }

  /** What the receiver does with a packet other than DATA; None is its
      protocol-error exit. */
  function ReceiveChan(c: Chan, p: Packet): (r: Chan)
    requires p.PConnect? || p.PAccept? || p.PWindow?
  {
    match p
    case PConnect(mss, window, upto) =>
      if c.state == Listening then
        c.(state := Established, sendmss := mss, sendwin := window, granted := upto, flags := c.flags + {FAccept})
      else c.(flags := c.flags + {FReset})
    case PAccept(mss, window, upto) =>
      if c.state == Connecting then
        c.(state := Established, sendmss := mss, sendwin := window, granted := upto)
      else c.(flags := c.flags + {FReset})
    case PWindow(window, upto) =>
      if c.state == Established || c.state == RdClosed then c.(sendwin := window, granted := upto) else c
  }

  /** Does the receiver accept this packet in the present state? */
  predicate Acceptable(c: Chan, p: Packet) {
    match p
    case PReset => false
    case PData(bytes) =>
      (c.state == Established || c.state == WrClosed) && |bytes| <= RBSIZE - |c.recvbuf| && |bytes| <= MAXSEG
    case PClose => c.state == Established || c.state == WrClosed
    case _ => true
  }

  /** A peer that tries to connect or accept a channel that is not waiting for that
      is sent a reset before anything else, and takes it for a protocol error. */
  lemma {:induction false} Refused(c: Chan, p: Packet)
    requires (p.PConnect? && c.state != Listening) || (p.PAccept? && c.state != Connecting)
    requires c.state != Unused && FConnect !in c.flags && FAccept !in c.flags
    ensures var d := ReceiveChan(c, p);
            && d.(flags := c.flags) == c && ScanFlags(d) != {} && Top(ScanFlags(d)) == FReset
            && BuildPacket(ScanChan(d), FReset) == PReset
    ensures forall e: Chan :: !Acceptable(e, PReset)
  {
    var d := ReceiveChan(c, p);
    assert FReset in ScanFlags(d) && FConnect !in ScanFlags(d) && FAccept !in ScanFlags(d);
  }

  // -------------------------------------------------------------------- steps

  datatype Action =
    | DoListen | DoConnect | DoClose | DoRead(n: nat) | DoWrite(bytes: seq<Byte>)
    | DoScan | DoBuild | DoSend | DoFinish
    | DoReceive | DoBody

  /** The step `a` of side x; None when it is not enabled.  A connect is issued
      only towards a listening channel. */
  function Act(l: Link, a: Action): Option<Link> {
    var s, c := l.x, l.x.ch;
    if s.failed then None else
    match a
    case DoListen =>
      if c.state == Unused then Some(l.(x := s.(ch := c.(state := Listening)))) else None
    case DoConnect =>
      if c.state == Unused && l.y.ch.state == Listening then
        Some(l.(x := s.(ch := c.(state := Connecting, flags := c.flags + {FConnect}))))
      else None
    case DoClose => Some(l.(x := s.(ch := CloseChan(c))))
    case DoRead(n) =>
      if CanRead(c) && n <= |c.recvbuf| then Some(l.(x := s.(ch := ReadChan(c, n)))) else None
    case DoWrite(bytes) =>
      if CanWrite(c) && |bytes| <= SBSIZE - |c.sendbuf| then Some(l.(x := s.(ch := WriteChan(c, bytes)))) else None
    case DoScan =>
      if s.snd == Idle && ScanFlags(c) != {} then
        Some(l.(x := s.(ch := ScanChan(c), snd := Chosen(Top(ScanFlags(c))))))
      else None
    case DoBuild =>
      if s.snd.Chosen? then
        Some(l.(x := s.(snd := Built(BuildPacket(c, s.snd.what)))))
      else None
    case DoSend =>
      if s.snd.Built? then
        var p := s.snd.packet;
        Some(l.(x := s.(snd := if p.PData? && p.bytes != [] then Wrote(|p.bytes|) else Idle), xy := l.xy + [p]))
      else None
    case DoFinish =>
      if s.snd.Wrote? && s.snd.size <= |c.sendbuf| then
        Some(l.(x := s.(ch := SentChan(c, s.snd.size), snd := Idle)))
      else None
    case DoReceive =>
      if s.rcv == Waiting && l.yx != [] then
        var p, rest := l.yx[0], l.yx[1..];
        if !Acceptable(c, p) then Some(l.(x := s.(failed := true), yx := rest))
        else
          match p
          case PData(bytes) => Some(l.(x := s.(rcv := Body(bytes)), yx := rest))
          case PClose =>
            Some(l.(x := s.(ch := c.(state := if c.state == Established then RdClosed else Closed)), yx := rest))
          case _ => Some(l.(x := s.(ch := ReceiveChan(c, p)), yx := rest))
      else None
    case DoBody =>
      if s.rcv.Body? then
        Some(l.(x := s.(ch := c.(recvbuf := c.recvbuf + s.rcv.bytes), rcv := Waiting)))
      else None
  }

  datatype Option<+T> = None | Some(value: T)

  /** One step of either side. */
  ghost predicate Next(l: Link, l2: Link) {
    exists a ::
      Act(l, a) == Some(l2) || (Act(Swap(l), a).Some? && l2 == Swap(Act(Swap(l), a).value))
  }
}
