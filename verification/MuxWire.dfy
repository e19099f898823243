/** Packets as bytes on the socket: what one end writes the other end reads back,
    however the bytes are cut on the way. */
module MuxWire {
  import opened MuxLink
  import opened MuxSafety

  type Half = x: nat | x < 0x1_0000

  /** A packet as it is on the wire, in the channel's number and fields. */
  datatype Frame =
    | Connect(id: Byte, mss: Half, window: Word)
    | Accept(id: Byte, mss: Half, window: Word)
    | Reset(id: Byte)
    | Data(id: Byte, bytes: seq<Byte>)
    | Window(id: Byte, window: Word)
    | Close(id: Byte)

  /** The length of a DATA packet is a 16-bit number. */
  predicate Fits(f: Frame) {
    f.Data? ==> |f.bytes| < 0x1_0000
  }

  const CONNECT := 2
  const ACCEPT := 3
  const RESET := 4
  const DATA := 5
  const WINDOW := 6
  const CLOSE := 7

  // --------------------------------------------------------- network byte order

  function Put16(n: Half): (r: seq<Byte>)
    ensures |r| == 2
  {
    [n / 256, n % 256]
  }

  function Put32(n: Word): (r: seq<Byte>)
    ensures |r| == 4
  {
    Put16(n / 0x1_0000) + Put16(n % 0x1_0000)
  }

  function Get16(s: seq<Byte>): Half
    requires |s| >= 2
  {
    s[0] as int * 256 + s[1]
  }

  function Get32(s: seq<Byte>): Word
    requires |s| >= 4
  {
    Get16(s) as int * 0x1_0000 + Get16(s[2..])
  }

  lemma Get16Put16(n: Half, rest: seq<Byte>)
    ensures Get16(Put16(n) + rest) == n
  {
  }

  lemma Get32Put32(n: Word, rest: seq<Byte>)
    ensures Get32(Put32(n) + rest) == n
  {
    var hi, lo := Put16(n / 0x1_0000), Put16(n % 0x1_0000);
    assert (Put32(n) + rest)[2..] == lo + rest;
    assert Put32(n) + rest == hi + (lo + rest);
    Get16Put16(n / 0x1_0000, lo + rest);
    Get16Put16(n % 0x1_0000, rest);
  }

  // -------------------------------------------------------------------- frames

  function Encode(f: Frame): (r: seq<Byte>)
    requires Fits(f)
    ensures |r| >= 2
  {
    match f
    case Connect(id, mss, window) => [CONNECT, id] + Put16(mss) + Put32(window)
    case Accept(id, mss, window) => [ACCEPT, id] + Put16(mss) + Put32(window)
    case Reset(id) => [RESET, id]
    case Data(id, bytes) => [DATA, id] + Put16(|bytes|) + bytes
    case Window(id, window) => [WINDOW, id] + Put32(window)
    case Close(id) => [CLOSE, id]
  }

  /** A number with one byte more at its low end. */
  function Big(n: int, low: int): int { n * 0x100 + low }

  lemma {:induction false} Big32(n: Word)
    ensures var b := Put32(n); Big(Big(Big(b[0], b[1]), b[2]), b[3]) == n
  {
    var hi, lo := n / 0x1_0000, n % 0x1_0000;
    assert hi / 256 * 256 + hi % 256 == hi && lo / 256 * 256 + lo % 256 == lo;
  }

  /** The bytes of each packet: the type, the channel, and the fields with the highest
      byte first. */
  lemma {:induction false} WireFormat(f: Frame)
    requires Fits(f)
    ensures var b := Encode(f);
            match f
            case Connect(id, mss, window) =>
              && |b| == 8 && b[0] == 2 && b[1] == id && Big(b[2], b[3]) == mss
              && Big(Big(Big(b[4], b[5]), b[6]), b[7]) == window
            case Accept(id, mss, window) =>
              && |b| == 8 && b[0] == 3 && b[1] == id && Big(b[2], b[3]) == mss
              && Big(Big(Big(b[4], b[5]), b[6]), b[7]) == window
            case Reset(id) => |b| == 2 && b[0] == 4 && b[1] == id
            case Data(id, bytes) =>
              |b| == 4 + |bytes| && b[0] == 5 && b[1] == id && Big(b[2], b[3]) == |bytes| && b[4..] == bytes
            case Window(id, window) =>
              && |b| == 6 && b[0] == 6 && b[1] == id
              && Big(Big(Big(b[2], b[3]), b[4]), b[5]) == window
            case Close(id) => |b| == 2 && b[0] == 7 && b[1] == id
  {
    match f
    case Connect(_, _, window) => Big32(window);
    case Accept(_, _, window) => Big32(window);
    case Window(_, window) => Big32(window);
    case _ =>
  }

  datatype Read = Got(frame: Frame, rest: seq<Byte>) | Short | BadType

  /** The receiver's reading of one packet: the type, the rest of the header and,
      for DATA, the bytes; Short when it has to wait for more. */
  function Decode(s: seq<Byte>): (r: Read)
    ensures r.Got? ==> |r.rest| < |s|
  {
    if s == [] then Short
    else
      var kind := s[0];
      if kind == CONNECT || kind == ACCEPT then
        if |s| < 8 then Short
        else
          var mss, window := Get16(s[2..]), Get32(s[4..]);
          Got(if kind == CONNECT then Connect(s[1], mss, window) else Accept(s[1], mss, window), s[8..])
      else if kind == RESET then if |s| < 2 then Short else Got(Reset(s[1]), s[2..])
      else if kind == DATA then
        if |s| < 4 then Short
        else
          var len := Get16(s[2..]);
          if |s| < 4 + len then Short else Got(Data(s[1], s[4..4 + len]), s[4 + len..])
      else if kind == WINDOW then if |s| < 6 then Short else Got(Window(s[1], Get32(s[2..])), s[6..])
      else if kind == CLOSE then if |s| < 2 then Short else Got(Close(s[1]), s[2..])
      else BadType
  }

  lemma Pieces(kind: Byte, id: Byte, b: seq<Byte>, c: seq<Byte>, rest: seq<Byte>)
    requires |b| == 2 && |c| == 4
    ensures var s := [kind, id] + b + c + rest;
            s[0] == kind && s[1] == id && s[2..] == b + (c + rest) && s[4..] == c + rest && s[8..] == rest
  {
    var s := [kind, id] + b + c + rest;
    assert s == [kind, id] + (b + (c + rest));
    assert s[2..] == b + (c + rest);
    assert s[4..] == c + rest;
  }

  lemma DecodeOpening(f: Frame, rest: seq<Byte>)
    requires f.Connect? || f.Accept?
    ensures Decode(Encode(f) + rest) == Got(f, rest)
  {
    var mss, window := Put16(f.mss), Put32(f.window);
    Get16Put16(f.mss, window + rest);
    Get32Put32(f.window, rest);
    hide Put16, Put32, Get16, Get32;
    Pieces(if f.Connect? then CONNECT else ACCEPT, f.id, mss, window, rest);
  }

  lemma DecodeData(f: Frame, rest: seq<Byte>)
    requires f.Data? && Fits(f)
    ensures Decode(Encode(f) + rest) == Got(f, rest)
  {
    var s, len := Encode(f) + rest, Put16(|f.bytes|);
    assert s == [DATA, f.id] + (len + (f.bytes + rest));
    assert s[2..] == len + (f.bytes + rest);
    Get16Put16(|f.bytes|, f.bytes + rest);
    hide Put16, Get16;
    assert s[4..4 + |f.bytes|] == f.bytes && s[4 + |f.bytes|..] == rest;
  }

  lemma DecodeShort(f: Frame, rest: seq<Byte>)
    requires f.Reset? || f.Window? || f.Close?
    ensures Decode(Encode(f) + rest) == Got(f, rest)
  {
    var s := Encode(f) + rest;
    if f.Window? {
      assert s == [WINDOW, f.id] + (Put32(f.window) + rest);
      assert s[2..] == Put32(f.window) + rest && s[6..] == rest;
      Get32Put32(f.window, rest);
    } else {
      assert s[2..] == rest;
    }
    hide Put32, Get32;
  }

  lemma DecodeEncode(f: Frame, rest: seq<Byte>)
    requires Fits(f)
    ensures Decode(Encode(f) + rest) == Got(f, rest)
  {
    hide Encode, Decode;
    if f.Connect? || f.Accept? { DecodeOpening(f, rest); }
    else if f.Data? { DecodeData(f, rest); }
    else { DecodeShort(f, rest); }
  }

  /** A packet that has not arrived whole is never taken for another one. */
  lemma CutIsShort(f: Frame, k: nat)
    requires Fits(f) && k < |Encode(f)|
    ensures Decode(Encode(f)[..k]) == Short
  {
    var s := Encode(f);
    if k >= 1 {
      assert s[..k][0] == s[0];
    }
    if f.Data? && k >= 4 {
      assert s[2..] == Put16(|f.bytes|) + f.bytes;
      Get16Put16(|f.bytes|, f.bytes);
      assert s[..k][2..] == Put16(|f.bytes|) + f.bytes[..k - 4];
      Get16Put16(|f.bytes|, f.bytes[..k - 4]);
    }
  }

  lemma {:induction false} Put16Get16(s: seq<Byte>)
    requires |s| >= 2
    ensures Put16(Get16(s)) == s[..2]
  {
  }

  lemma {:induction false} Put32Get32(s: seq<Byte>)
    requires |s| >= 4
    ensures Put32(Get32(s)) == s[..4]
  {
    Put16Get16(s);
    Put16Get16(s[2..]);
    assert s[2..][..2] == s[2..4] && s[..4] == s[..2] + s[2..4];
    hide Put16, Get16;
  }

  /** Type, channel and fields, put together again. */
  lemma {:induction false} Rejoin(s: seq<Byte>, a: nat, b: nat)
    requires 2 <= a <= b <= |s|
    ensures s == [s[0], s[1]] + s[2..a] + s[a..b] + s[b..] && s[2..][..a - 2] == s[2..a] && s[a..][..b - a] == s[a..b]
  {
  }

  lemma {:induction false} EncodeOpening(s: seq<Byte>)
    requires Decode(s).Got? && s[0] in {CONNECT, ACCEPT}
    ensures s == Encode(Decode(s).frame) + Decode(s).rest
  {
    Rejoin(s, 4, 8);
    Put16Get16(s[2..]);
    Put32Get32(s[4..]);
    hide Put16, Put32, Get16, Get32;
  }

  lemma {:induction false} EncodeData(s: seq<Byte>)
    requires Decode(s).Got? && s[0] == DATA
    ensures Fits(Decode(s).frame) && s == Encode(Decode(s).frame) + Decode(s).rest
  {
    Rejoin(s, 4, 4 + Get16(s[2..]));
    Put16Get16(s[2..]);
    hide Put16, Get16;
  }

  lemma {:induction false} EncodeShort(s: seq<Byte>)
    requires Decode(s).Got? && s[0] in {RESET, WINDOW, CLOSE}
    ensures s == Encode(Decode(s).frame) + Decode(s).rest
  {
    Rejoin(s, 2, if s[0] == WINDOW then 6 else 2);
    if s[0] == WINDOW { Put32Get32(s[2..]); }
    hide Put32, Get32;
  }

  /** The receiver makes a packet of bytes exactly when they are that packet's, and
      gives up on a type that is none of the six. */
  lemma {:induction false} DecodedExactly(s: seq<Byte>, f: Frame, rest: seq<Byte>)
    ensures Decode(s) == Got(f, rest) <==> Fits(f) && s == Encode(f) + rest
    ensures Decode(s) == BadType <==> s != [] && !(2 <= s[0] <= 7)
  {
    if Decode(s) == Got(f, rest) {
      if s[0] == DATA { EncodeData(s); }
      else if s[0] in {CONNECT, ACCEPT} { EncodeOpening(s); }
      else { EncodeShort(s); }
    }
    if Fits(f) && s == Encode(f) + rest {
      DecodeEncode(f, rest);
    }
    hide Encode, Put16, Put32, Get16, Get32;
  }

  // ------------------------------------------------------------------- streams

  predicate AllFit(fs: seq<Frame>) {
    fs == [] || (Fits(fs[0]) && AllFit(fs[1..]))
  }

  function EncodeAll(fs: seq<Frame>): seq<Byte>
    requires AllFit(fs)
  {
    if fs == [] then [] else Encode(fs[0]) + EncodeAll(fs[1..])
  }

  /** The packets the receiver takes from what has arrived, up to an incomplete
      one or one of a type it does not know. */
  function DecodeAll(s: seq<Byte>): (seq<Frame>, seq<Byte>)
    decreases |s|
  {
    match Decode(s)
    case Got(f, rest) => var (fs, left) := DecodeAll(rest); ([f] + fs, left)
    case _ => ([], s)
  }

  lemma {:induction false} DecodeAllStep(f: Frame, rest: seq<Byte>)
    requires Fits(f)
    ensures DecodeAll(Encode(f) + rest) == ([f] + DecodeAll(rest).0, DecodeAll(rest).1)
  {
    DecodeEncode(f, rest);
    hide Encode, Decode;
  }

  lemma {:induction false} EncodeAllStep(f: Frame, fs: seq<Frame>)
    requires Fits(f) && AllFit(fs)
    ensures AllFit([f] + fs) && EncodeAll([f] + fs) == Encode(f) + EncodeAll(fs)
  {
    assert ([f] + fs)[1..] == fs;
    hide Encode, Fits;
  }

  /** `k` bytes of the packets `fs` have arrived: the receiver has the first `n`,
      and waits inside the next. */
  ghost predicate ReadsBack(fs: seq<Frame>, k: nat, n: nat)
    requires AllFit(fs) && k <= |EncodeAll(fs)|
  {
    var got := EncodeAll(fs)[..k];
    && n <= |fs| && AllFit(fs[..n])
    && DecodeAll(got).0 == fs[..n] && got == EncodeAll(fs[..n]) + DecodeAll(got).1
    && Decode(DecodeAll(got).1) == Short
    && (k == |EncodeAll(fs)| ==> n == |fs|)
  }

  lemma {:induction false} NoneYet(fs: seq<Frame>, k: nat)
    requires AllFit(fs) && fs != [] && k < |Encode(fs[0])|
    ensures k <= |EncodeAll(fs)| && ReadsBack(fs, k, 0)
  {
    assert EncodeAll(fs)[..k] == Encode(fs[0])[..k];
    CutIsShort(fs[0], k);
    hide Encode;
  }

  lemma {:induction false} OneMore(fs: seq<Frame>, k: nat, n: nat)
    requires AllFit(fs) && fs != [] && |Encode(fs[0])| <= k <= |EncodeAll(fs)|
    requires ReadsBack(fs[1..], k - |Encode(fs[0])|, n)
    ensures ReadsBack(fs, k, n + 1)
  {
    hide Encode, Decode, DecodeAll, Fits;
    var e, rest := Encode(fs[0]), EncodeAll(fs[1..]);
    var part := rest[..k - |e|];
    var got, left := EncodeAll(fs[1..][..n]), DecodeAll(part).1;
    assert EncodeAll(fs)[..k] == e + part;
    DecodeAllStep(fs[0], part);
    Cons(fs, n);
    EncodeAllStep(fs[0], fs[1..][..n]);
    assert e + (got + left) == (e + got) + left;
  }

  lemma Cons(fs: seq<Frame>, n: nat)
    requires fs != [] && n < |fs|
    ensures fs[..n + 1] == [fs[0]] + fs[1..][..n]
  {
  }

  /** Of the bytes of any packets, however many have arrived, the receiver reads
      exactly the packets that have arrived whole, and waits inside the next. */
  lemma {:induction false} StreamReadsBack(fs: seq<Frame>, k: nat) returns (n: nat)
    requires AllFit(fs) && k <= |EncodeAll(fs)|
    ensures ReadsBack(fs, k, n)
  {
    if fs == [] {
      n := 0;
    } else if k < |Encode(fs[0])| {
      n := 0;
      NoneYet(fs, k);
    } else {
      n := StreamReadsBack(fs[1..], k - |Encode(fs[0])|);
      OneMore(fs, k, n);
      n := n + 1;
    }
  }

  // ------------------------------------------------------------ channel packets

  /** A channel's packet on the wire; the true count behind a window is not sent. */
  function OnWire(id: Byte, p: Packet): Frame
    requires (p.PConnect? || p.PAccept?) ==> p.mss < 0x1_0000
  {
    match p
    case PConnect(mss, window, upto) => Connect(id, mss, window)
    case PAccept(mss, window, upto) => Accept(id, mss, window)
    case PReset => Reset(id)
    case PWindow(window, upto) => Window(id, window)
    case PData(bytes) => Data(id, bytes)
    case PClose => Close(id)
  }

  /** Every packet on its way to the other side has fields that fit the wire. */
  lemma {:induction false} TrafficFits(q: seq<Packet>, lo: nat, hi: nat, i: nat)
    requires WinOk(q, lo, hi) && DataFits(q) && i < |q|
    ensures (q[i].PConnect? || q[i].PAccept?) ==> q[i].mss < 0x1_0000
    ensures Fits(OnWire(0, q[i]))
  {
    if i > 0 {
      TrafficFits(q[1..], if IsWin(q[0]) then Upto(q[0]) else lo, hi, i - 1);
    }
  }

  lemma DirectionFits(s: Side, r: Side, q: seq<Packet>, b: seq<Packet>, i: nat)
    requires Direction(s, r, q, b) && Direction(r, s, b, q) && i < |q|
    ensures (q[i].PConnect? || q[i].PAccept?) ==> q[i].mss < 0x1_0000
    ensures Fits(OnWire(0, q[i]))
  {
    hide WinOk, DataFits, Conserved, Closing, HasData, GoodWin, OnWire;
    TrafficFits(q, r.ch.granted, |s.ch.readout| + RBSIZE, i);
  }

  /** In a state that keeps the channel's invariant, whatever is in the pipe can be
      put on the wire unharmed. */
  lemma PipeFits(l: Link, i: nat, id: Byte)
    requires Inv(l) && i < |l.xy|
    ensures (l.xy[i].PConnect? || l.xy[i].PAccept?) ==> l.xy[i].mss < 0x1_0000
    ensures Fits(OnWire(id, l.xy[i]))
  {
    hide Handshake, Direction;
    var q := Stream(l);
    assert q[i] == l.xy[i];
    DirectionFits(l.x, l.y, q, Stream(Swap(l)), i);
  }
}
