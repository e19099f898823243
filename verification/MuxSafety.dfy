/** What every step of a channel keeps: no protocol error is ever reached, bytes
    are conserved and in order, and the 32-bit window is the true one. */
module MuxSafety {
  import opened MuxLink

  // ----------------------------------------------------- packets on their way

  predicate IsWin(p: Packet) { p.PConnect? || p.PAccept? || p.PWindow? }

  function Upto(p: Packet): nat
    requires IsWin(p)
  {
    p.upto
  }

  predicate GoodWin(p: Packet)
    requires IsWin(p)
  {
    p.window == p.upto % WORD && (p.PWindow? || p.mss == MAXSEG)
  }

  /** The windows announced by `q` never shrink, from `lo` up to `hi`. */
  predicate WinOk(q: seq<Packet>, lo: nat, hi: nat) {
    if q == [] then lo <= hi
    else if IsWin(q[0]) then GoodWin(q[0]) && lo <= Upto(q[0]) && WinOk(q[1..], Upto(q[0]), hi)
    else WinOk(q[1..], lo, hi)
  }

  function CloseCount(q: seq<Packet>): nat {
    if q == [] then 0 else (if q[0].PClose? then 1 else 0) + CloseCount(q[1..])
  }

  predicate NoData(q: seq<Packet>) {
    q == [] || (!q[0].PData? && NoData(q[1..]))
  }

  /** No data behind a close. */
  predicate CloseLast(q: seq<Packet>) {
    q == [] || ((q[0].PClose? ==> NoData(q[1..])) && CloseLast(q[1..]))
  }

  predicate DataFits(q: seq<Packet>) {
    q == [] || ((q[0].PData? ==> 0 < |q[0].bytes| <= MAXSEG) && DataFits(q[1..]))
  }

  function DataOf(q: seq<Packet>): seq<Byte> {
    if q == [] then [] else (if q[0].PData? then q[0].bytes else []) + DataOf(q[1..])
  }

  /** Only what is sent on an open channel. */
  predicate Traffic(q: seq<Packet>) {
    q == [] || ((q[0].PWindow? || q[0].PData? || q[0].PClose?) && Traffic(q[1..]))
  }

  lemma {:induction false} AppendWin(q: seq<Packet>, p: Packet, lo: nat, hi: nat)
    requires WinOk(q, lo, hi)
    ensures IsWin(p) && GoodWin(p) && Upto(p) == hi ==> WinOk(q + [p], lo, hi)
    ensures !IsWin(p) ==> WinOk(q + [p], lo, hi)
  {
    if q == [] {
      assert q + [p] == [p] && [p][1..] == [];
    } else {
      assert (q + [p])[1..] == q[1..] + [p];
      AppendWin(q[1..], p, if IsWin(q[0]) then Upto(q[0]) else lo, hi);
    }
  }

  lemma {:induction false} AppendClose(q: seq<Packet>, p: Packet)
    ensures CloseCount(q + [p]) == CloseCount(q) + (if p.PClose? then 1 else 0)
    ensures NoData(q + [p]) <==> NoData(q) && !p.PData?
    ensures CloseLast(q) && (p.PData? ==> CloseCount(q) == 0) ==> CloseLast(q + [p])
  {
    if q == [] {
      assert q + [p] == [p] && [p][1..] == [];
    } else {
      assert (q + [p])[1..] == q[1..] + [p];
      AppendClose(q[1..], p);
    }
  }

  lemma {:induction false} AppendData(q: seq<Packet>, p: Packet)
    ensures DataFits(q) && (p.PData? ==> 0 < |p.bytes| <= MAXSEG) ==> DataFits(q + [p])
    ensures DataOf(q + [p]) == DataOf(q) + (if p.PData? then p.bytes else [])
    ensures Traffic(q + [p]) <==> Traffic(q) && (p.PWindow? || p.PData? || p.PClose?)
  {
    if q == [] {
      assert q + [p] == [p] && [p][1..] == [];
    } else {
      assert (q + [p])[1..] == q[1..] + [p];
      AppendData(q[1..], p);
    }
  }

  lemma {:induction false} AppendPacket(q: seq<Packet>, p: Packet, lo: nat, hi: nat)
    requires WinOk(q, lo, hi)
    ensures IsWin(p) && GoodWin(p) && Upto(p) == hi ==> WinOk(q + [p], lo, hi)
    ensures !IsWin(p) ==> WinOk(q + [p], lo, hi)
    ensures CloseCount(q + [p]) == CloseCount(q) + (if p.PClose? then 1 else 0)
    ensures NoData(q + [p]) <==> NoData(q) && !p.PData?
    ensures CloseLast(q) && (p.PData? ==> CloseCount(q) == 0) ==> CloseLast(q + [p])
    ensures DataFits(q) && (p.PData? ==> 0 < |p.bytes| <= MAXSEG) ==> DataFits(q + [p])
    ensures DataOf(q + [p]) == DataOf(q) + (if p.PData? then p.bytes else [])
    ensures Traffic(q + [p]) <==> Traffic(q) && (p.PWindow? || p.PData? || p.PClose?)
  {
    hide WinOk, CloseCount, NoData, CloseLast, DataFits, DataOf, Traffic;
    AppendWin(q, p, lo, hi);
    AppendClose(q, p);
    AppendData(q, p);
  }

  lemma {:induction false} WinMore(q: seq<Packet>, lo: nat, hi: nat, lo2: nat, hi2: nat)
    requires WinOk(q, lo, hi) && hi <= hi2 && lo2 <= lo
    ensures WinOk(q, lo2, hi2) && lo <= hi
  {
    if q != [] {
      if IsWin(q[0]) { WinMore(q[1..], Upto(q[0]), hi, Upto(q[0]), hi2); } else { WinMore(q[1..], lo, hi, lo2, hi2); }
    }
  }

  // ---------------------------------------------------------------- invariants

  predicate Open(c: Chan) { c.state in {Established, RdClosed, WrClosed, Closed} }
  predicate ReadShut(c: Chan) { c.state in {RdClosed, Closed} }
  predicate WriteShut(c: Chan) { c.state in {WrClosed, Closed} }

  /** Packets on their way from x to y, the one being written included. */
  function Stream(l: Link): seq<Packet> {
    l.xy + (if l.x.snd.Built? then [l.x.snd.packet] else [])
  }

  /** Bytes of the send buffer that are already on their way. */
  function Pending(s: Side): nat {
    if s.snd.Wrote? then s.snd.size
    else if s.snd.Built? && s.snd.packet.PData? then |s.snd.packet.bytes|
    else 0
  }

  predicate Sending(s: Side) {
    s.snd == Chosen(FData) || s.snd.Wrote? || (s.snd.Built? && s.snd.packet.PData?)
  }

  function BodyOf(s: Side): seq<Byte> {
    if s.rcv.Body? then s.rcv.bytes else []
  }

  function Bit(b: bool): nat { if b then 1 else 0 }

  /** The true number of bytes the sender has accounted for. */
  function Sent(c: Chan): int { |c.written| - |c.sendbuf| }

  /** Bytes accepted by write = bytes returned by read ++ receive buffer ++ in
      flight ++ still unsent; `q` is on its way from `s` to `r`. */
  predicate Conserved(s: Side, r: Side, q: seq<Packet>) {
    && Pending(s) <= |s.ch.sendbuf| <= SBSIZE
    && s.ch.written == r.ch.readout + r.ch.recvbuf + BodyOf(r) + DataOf(q) + s.ch.sendbuf[Pending(s)..]
  }

  /** The window of the direction: what `s` may send, what `r` has announced and
      will announce; `b` is on its way back. */
  predicate Windowed(s: Side, r: Side, b: seq<Packet>) {
    var c := s.ch;
    && 0 <= Sent(c) && c.sendseq == Sent(c) % WORD
    && c.sendwin == c.granted % WORD
    && Sent(c) + Pending(s) <= c.granted
    && WinOk(b, c.granted, |r.ch.readout| + RBSIZE)
    && r.ch.recvseq == |r.ch.readout| % WORD
    && (Open(c) ==> c.sendmss == MAXSEG)
  }

  /** Exactly one close is pending, on its way or received once `s` is write-shut,
      and nothing more is sent behind it. */
  predicate Closing(s: Side, r: Side, q: seq<Packet>) {
    var c := s.ch;
    && Bit(FClose in c.flags) + Bit(s.snd == Chosen(FClose)) + CloseCount(q) + Bit(ReadShut(r.ch)) == Bit(WriteShut(c))
    && CloseLast(q)
    && (ReadShut(r.ch) ==> NoData(q))
    && (WriteShut(c) && FClose !in c.flags ==> !HasData(c) && FData !in c.flags && !Sending(s))
  }

  predicate Flowing(s: Side, q: seq<Packet>) {
    var c := s.ch;
    && DataFits(q)
    && (FData in c.flags || s.snd == Chosen(FData) ==> HasData(c))
    && (FData in c.flags ==> !Sending(s))
    && (s.snd.Wrote? ==> s.snd.size > 0)
  }

  predicate Direction(s: Side, r: Side, q: seq<Packet>, b: seq<Packet>) {
    Conserved(s, r, q) && Windowed(s, r, b) && Closing(s, r, q) && Flowing(s, q)
  }

  /** A side on which nothing has happened but listening or connecting. */
  predicate Blank(s: Side) {
    && s.rcv == Waiting && s.ch.recvbuf == s.ch.sendbuf == s.ch.written == s.ch.readout == []
    && s.ch.granted == 0
  }

  predicate Quiet(s: Side) { s.ch.flags == {} && s.snd == Idle }

  const FIRST := PConnect(MAXSEG, RBSIZE, RBSIZE)

  /** `s` has asked for the channel: the request is pending or on its way. */
  predicate Asking(s: Side, q: seq<Packet>) {
    || (s.ch.flags == {FConnect} && s.snd == Idle && q == [])
    || (s.ch.flags == {} && s.snd == Chosen(FConnect) && q == [])
    || (s.ch.flags == {} && (s.snd == Idle || s.snd.Built?) && q == [FIRST])
  }

  /** `s` has accepted: the answer is pending or first on its way. */
  predicate Answering(s: Side, q: seq<Packet>) {
    if FAccept in s.ch.flags then s.snd == Idle && q == []
    else if s.snd == Chosen(FAccept) then q == []
    else q != [] && q[0].PAccept? && Traffic(q[1..])
  }

  predicate NoHandshake(s: Side) {
    && FConnect !in s.ch.flags && FReset !in s.ch.flags
    && s.snd != Chosen(FConnect) && s.snd != Chosen(FReset)
  }

  predicate Talking(s: Side, q: seq<Packet>) {
    NoHandshake(s) && FAccept !in s.ch.flags && s.snd != Chosen(FAccept) && Traffic(q)
  }

  /** How far the two sides are with opening the channel. */
  predicate Handshake(x: Side, y: Side, q: seq<Packet>, b: seq<Packet>) {
    if Open(x.ch) then
      if Open(y.ch) then Talking(x, q) && Talking(y, b)
      else y.ch.state == Connecting && Quiet(y) && Blank(y) && b == [] && Answering(x, q) && NoHandshake(x)
    else if Open(y.ch) then x.ch.state == Connecting && Quiet(x) && Blank(x) && q == [] && Answering(y, b) &&
        NoHandshake(y)
    else
      && Blank(x) && Blank(y)
      && (if x.ch.state == Connecting then y.ch.state == Listening && Asking(x, q) else Quiet(x) && q == [])
      && (if y.ch.state == Connecting then x.ch.state == Listening && Asking(y, b) else Quiet(y) && b == [])
  }

  predicate Inv(l: Link) {
    var q, b := Stream(l), Stream(Swap(l));
    && !l.x.failed && !l.y.failed
    && Handshake(l.x, l.y, q, b) && Direction(l.x, l.y, q, b) && Direction(l.y, l.x, b, q)
  }

  lemma NothingSent()
    ensures WinOk([], 0, RBSIZE) && CloseCount([]) == 0 && NoData([]) && CloseLast([])
    ensures DataFits([]) && DataOf([]) == [] && Traffic([])
  {
  }

  lemma InitKeeps()
    ensures Inv(NEW_LINK)
  {
    NothingSent();
    hide WinOk, CloseCount, NoData, CloseLast, DataFits, DataOf, Traffic;
    assert Stream(NEW_LINK) == [] == Stream(Swap(NEW_LINK));
    var s := NEW_SIDE;
    assert Conserved(s, s, []) && Windowed(s, s, []) && Closing(s, s, []) && Flowing(s, []);
  }

  lemma HandshakeSwap(x: Side, y: Side, q: seq<Packet>, b: seq<Packet>)
    ensures Handshake(x, y, q, b) <==> Handshake(y, x, b, q)
  {
  }

  lemma InvSwap(l: Link)
    ensures Inv(l) <==> Inv(Swap(l))
  {
    HandshakeSwap(l.x, l.y, Stream(l), Stream(Swap(l)));
    assert Swap(Swap(l)) == l;
  }
}
