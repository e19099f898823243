/** The circular buffer of a channel end.  One spare cell tells full from empty.
    The sender reads and the receiver fills the cells with the channel unlocked;
    what the other thread does meanwhile leaves those cells alone. */
module RingBuf {

  import MuxLink

  type Byte = MuxLink.Byte

  function Rotate(d: seq<Byte>, at: nat): (r: seq<Byte>)
    requires at <= |d|
    ensures |r| == |d|
  {
    d[at..] + d[..at]
  }

  /** What copying `src` in at cell `at`, wrapping round at the end, gives. */
  function Store(d: seq<Byte>, at: nat, src: seq<Byte>): seq<Byte>
    requires at <= |d| && |src| <= |d|
  {
    var len := |d| - at;
    if len < |src| then src[len..] + d[|src| - len..at] + src[..len]
    else d[..at] + src + d[at + |src|..]
  }

  /** The two pieces of a store that wraps round, seen from the output index. */
  lemma StoreWraps(d: seq<Byte>, out: nat, at: nat, src: seq<Byte>)
    requires out <= at < |d| && |d| - at < |src| && |src| <= |d|
    requires |src| - (|d| - at) <= out
    ensures var len, d2 := |d| - at, Store(d, at, src);
            |d2| == |d| && d2[out..] == d[out..at] + src[..len] && d2[..out] == src[len..] + d[|src| - len..out]
  {
    var len := |d| - at;
    var k := |src| - len;
    var tail := src[len..];
    assert Store(d, at, src) == tail + d[k..at] + src[..len];
    assert d[k..at] == d[k..out] + d[out..at];
    assert Store(d, at, src) == (tail + d[k..out]) + (d[out..at] + src[..len]);
    assert |tail + d[k..out]| == out;
  }

  lemma StoreRing(d: seq<Byte>, out: nat, at: nat, count: nat, src: seq<Byte>)
    requires out < |d| && at < |d| && count + |src| < |d|
    requires count == if at >= out then at - out else |d| + at - out
    ensures var r := Rotate(d, out);
            |Store(d, at, src)| == |d| && Rotate(Store(d, at, src), out) == r[..count] + src + r[count + |src|..]
  {
    var d2, r := Store(d, at, src), Rotate(d, out);
    var len := |d| - at;
    if at >= out && len < |src| {
      StoreWraps(d, out, at, src);
      hide Store;
      assert r[..count] == d[out..at];
      assert r[count + |src|..] == d[|src| - len..out];
      assert src == src[..len] + src[len..];
    } else if at >= out {
      assert d2[out..] == d[out..at] + src + d[at + |src|..];
      assert d2[..out] == d[..out];
    } else {
      assert d2[out..] == d[out..];
      assert d2[..out] == d[..at] + src + d[at + |src|..out];
    }
    assert Rotate(d2, out) == r[..count] + src + r[count + |src|..];
  }

  /** The first `n` cells from `out` on, in one segment or two. */
  lemma Segments(d: seq<Byte>, out: nat, n: nat)
    requires out < |d| && n <= |d|
    ensures var len := if n < |d| - out then n else |d| - out;
            d[out..out + len] + d[..n - len] == Rotate(d, out)[..n]
  {
    var r := Rotate(d, out);
    if n < |d| - out {
      assert d[out..out + n] + [] == r[..n];
    } else {
      assert n - (|d| - out) <= out;
      assert r[..n] == d[out..] + d[..out][..n - (|d| - out)];
    }
  }

  lemma WrapRound(d: seq<Byte>, at: nat, src: seq<Byte>)
    requires at < |d| && |d| - at < |src| && |src| <= |d|
    ensures var len := |d| - at;
            var d1 := d[..at] + src[..len];
            src[len..] + d1[|src| - len..] == Store(d, at, src)
  {
    var len := |d| - at;
    var d1 := d[..at] + src[..len];
    assert d1[|src| - len..] == d[|src| - len..at] + src[..len];
  }

  lemma Dropped(r: seq<Byte>, c: nat, n: nat, size: nat)
    requires |r| == size + 1 && n <= c <= size
    ensures var r2 := r[n..] + r[..n];
            r2[..c - n] == r[..c][n..] && r[c..size] <= r2[c - n..size]
  {
  }

  lemma FreeAfter(r: seq<Byte>, c: nat, src: seq<Byte>, size: nat)
    requires |r| == size + 1 && c + |src| <= size
    ensures var r2 := r[..c] + src + r[c + |src|..];
            |r2| == size + 1 && r2[..c] == r[..c] && r2[c..size] == src + r[c..size][|src|..]
  {
  }

  lemma RotateMore(d: seq<Byte>, at: nat, n: nat)
    requires at < |d| && n < |d|
    ensures var to := if at + n < |d| then at + n else at + n - |d|;
            Rotate(d, to) == Rotate(d, at)[n..] + Rotate(d, at)[..n]
  {
  }

  class Buf {
    const size: nat
    const data: array<Byte>
    var next_in: nat
    var out: nat

    ghost predicate Valid()
      reads this
    {
      data.Length == size + 1 && next_in <= size && out <= size
    }

    /** All cells, going round from the output index. */
    ghost function Ring(): (r: seq<Byte>)
      reads this, data
      requires Valid()
      ensures |r| == size + 1
    {
      Rotate(data[..], out)
    }

    /** The bytes stored, oldest first. */
    ghost function Contents(): seq<Byte>
      reads this, data
      requires Valid()
    {
      Ring()[..Count()]
    }

    /** The cells that may be filled: all others but the spare one. */
    ghost function Free(): seq<Byte>
      reads this, data
      requires Valid()
    {
      Ring()[Count()..size]
    }

    constructor (size: nat)
      ensures Valid() && fresh(data) && this.size == size && Contents() == []
    {
      this.size := size;
      data := new Byte[size + 1](_ => 0);
      next_in, out := 0, 0;
    }

    function Count(): (n: nat)
      reads this
      reads data
      requires Valid()
      ensures n <= size
    {
      if next_in >= out then next_in - out else size + 1 + next_in - out
    }

    function Avail(): (n: nat)
      reads this, data
      requires Valid()
      ensures n + Count() == size
    {
      if out > next_in then out - next_in - 1 else size + out - next_in
    }

    method CopyIn(at: nat, src: seq<Byte>)
      requires at + |src| <= data.Length
      modifies data
      ensures data[..] == old(data[..])[..at] + src + old(data[..])[at + |src|..]
    {
      var i := 0;
      while i < |src|
        invariant i <= |src|
        invariant data[..] == old(data[..])[..at] + src[..i] + old(data[..])[at + i..]
      {
        data[at + i] := src[i];
        i := i + 1;
      }
    }

    /** Copies bytes in from the input index on, in one piece or two. */
    method StoreAt(src: seq<Byte>)
      requires Valid() && |src| <= size
      modifies data
      ensures data[..] == Store(old(data[..]), next_in, src)
    {
      var len := size + 1 - next_in;
      if len < |src| {
        ghost var d := data[..];
        CopyIn(next_in, src[..len]);
        assert data[..] == d[..next_in] + src[..len];
        CopyIn(0, src[len..]);
        WrapRound(d, next_in, src);
      } else {
        ghost var d := data[..];
        CopyIn(next_in, src);
        assert data[..] == d[..next_in] + src + d[next_in + |src|..];
      }
    }

    /** Stores bytes in the free cells without moving the input index: the
        receiver does this with the channel unlocked. */
    method Fill(src: seq<Byte>)
      requires Valid() && |src| <= Avail()
      modifies data
      ensures Valid() && Contents() == old(Contents())
      ensures Free() == src + old(Free())[|src|..]
    {
      ghost var c, r := Count(), Ring();
      StoreRing(data[..], out, next_in, c, src);
      StoreAt(src);
      FreeAfter(r, c, src, size);
    }

    /** Takes the first `n` filled cells into the buffer. */
    method Produce(n: nat)
      requires Valid() && n <= Avail()
      modifies this`next_in
      ensures Valid() && Contents() == old(Contents()) + old(Free())[..n]
      ensures Free() == old(Free())[n..]
    {
      next_in := next_in + n;
      if next_in > size {
        next_in := next_in - (size + 1);
      }
      assert Ring() == old(Ring()) && Count() == old(Count()) + n;
    }

    /** Where the first `n` stored bytes are: a segment of `len` cells from `out`
        and the rest from cell zero. */
    function FirstSegment(n: nat): (len: nat)
      reads this, data
      requires Valid() && n <= Count()
      ensures out + len <= data.Length && len <= n && n - len <= data.Length
      ensures data[out..out + len] + data[..n - len] == Contents()[..n]
    {
      Segments(data[..], out, n);
      assert Contents()[..n] == Ring()[..n];
      if n < size + 1 - out then n else size + 1 - out
    }

    /** Drops the first `n` stored bytes. */
    method Consume(n: nat)
      requires Valid() && n <= Count()
      modifies this`out
      ensures Valid() && Contents() == old(Contents())[n..]
      ensures old(Free()) <= Free()
    {
      out := out + n;
      if out > size {
        out := out - (size + 1);
      }
      RotateMore(data[..], old(out), n);
      Dropped(old(Ring()), old(Count()), n, size);
      assert Count() == old(Count()) - n;
    }

    method Put(src: seq<Byte>)
      requires Valid() && |src| <= Avail()
      modifies data, this`next_in
      ensures Valid() && Contents() == old(Contents()) + src
    {
      Fill(src);
      Produce(|src|);
    }

    method Get(n: nat) returns (dst: seq<Byte>)
      requires Valid() && n <= Count()
      modifies this`out
      ensures Valid() && dst == old(Contents())[..n] && Contents() == old(Contents())[n..]
      ensures old(Free()) <= Free()
    {
      var len := FirstSegment(n);
      dst := data[out..out + len] + data[..n - len];
      Consume(n);
    }
  }

  /** While the sender is writing the first `n` bytes out of the buffer unlocked,
      a put by the application leaves them in place. */
  method WriteDuringSend(buf: Buf, n: nat, src: seq<Byte>) returns (len: nat, ghost sent: seq<Byte>)
    requires buf.Valid() && n <= buf.Count() && |src| <= buf.Avail()
    modifies buf, buf.data
    ensures buf.Valid() && buf.out == old(buf.out)
    ensures buf.out + len <= buf.data.Length && len <= n && n - len <= buf.data.Length
    ensures buf.data[buf.out..buf.out + len] + buf.data[..n - len] == old(buf.Contents())[..n]
    ensures buf.Contents() == old(buf.Contents()) + src
    ensures sent == old(buf.Contents())[..n]
  {
    len := buf.FirstSegment(n);
    sent := buf.Contents()[..n];
    ghost var out0 := buf.out;
    buf.Put(src);
    assert buf.Contents()[..n] == sent;
    var len2 := buf.FirstSegment(n);
    assert len2 == len;
  }

  /** While the receiver is filling free cells unlocked, a read by the
      application leaves the bytes filled in place. */
  method ReadDuringReceive(buf: Buf, body: seq<Byte>, n: nat) returns (dst: seq<Byte>)
    requires buf.Valid() && |body| <= buf.Avail() && n <= buf.Count()
    modifies buf, buf.data
    ensures buf.Valid() && dst == old(buf.Contents())[..n]
    ensures buf.Contents() == old(buf.Contents())[n..] + body
  {
    hide Rotate;
    buf.Fill(body);
    ghost var free := buf.Free();
    assert free[..|body|] == body;
    dst := buf.Get(n);
    assert buf.Free()[..|body|] == body;
    buf.Produce(|body|);
  }
}
