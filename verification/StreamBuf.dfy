/** Reading lines through a buffer that is refilled, compacted and grown. */
module StreamBuf {
  import opened Lines

  /** A stream: `cnt` bytes from `off` on are in the buffer, which has room for `size`
      bytes and a spare one; `rest` is still with the source, which delivers it in
      pieces as `plan` says, or fails. */
  class Stream {
    var buf: array<char>
    var size: nat
    var cnt: nat
    var off: nat
    var eof: bool
    var rest: string
    var plan: seq<int>
    var failed: bool

    ghost predicate Valid()
      reads this, buf
    {
      buf.Length == size + 1 && size > 0 && off + cnt <= size && (cnt == 0 ==> off == 0) && (eof ==> rest == "")
    }

    /** What is in the buffer. */
    ghost function Held(): string
      reads this, buf
      requires Valid()
    {
      buf[off..off + cnt]
    }

    /** All that is still to be read. */
    ghost function Ahead(): string
      reads this, buf
      requires Valid()
    {
      Held() + rest
    }

    constructor (bytes: string, plan: seq<int>)
      ensures Valid() && fresh(buf) && Ahead() == bytes && !failed && !eof
    {
      size, cnt, off, eof, rest, failed := 1023, 0, 0, false, bytes, false;
      this.plan := plan;
      buf := new char[1024](_ => '\0');
      new;
      assert buf[0..0] == "";
    }

    /** One read of the source: a piece of at most `max` bytes, nothing at its end, or
        an error. */
    method ReadFn(max: nat) returns (n: int, piece: string)
      requires max > 0
      modifies this`rest, this`plan, this`failed
      ensures n < 0 ==> failed && rest == old(rest) && piece == ""
      ensures n == 0 ==> rest == old(rest) == "" && failed == old(failed) && piece == ""
      ensures n > 0 ==> n == |piece| <= max && old(rest) == piece + rest && failed == old(failed)
    {
      var k := max;
      if plan != [] {
        k, plan := plan[0], plan[1..];
      }
      if k < 0 {
        failed := true;
        return -1, "";
      }
      if rest == "" {
        return 0, "";
      }
      if k == 0 || k > max { k := max; }
      if k > |rest| { k := |rest|; }
      n, piece := k, rest[..k];
      rest := rest[k..];
    }

    /** Doubles the buffer. */
    method Grow()
      requires Valid()
      modifies this`buf, this`size
      ensures Valid() && fresh(buf) && size == 2 * old(size) + 1
      ensures Held() == old(Held())
    {
      var more := new char[2 * size + 2](_ => '\0');
      forall i | 0 <= i < buf.Length {
        more[i] := buf[i];
      }
      assert more[off..off + cnt] == buf[off..off + cnt];
      size, buf := 2 * size + 1, more;
    }

    /** Makes room: there is some behind the bytes held, which stay the same. */
    method Prewrite()
      requires Valid()
      modifies this`buf, this`size, this`off, buf
      ensures Valid() && (buf == old(buf) || fresh(buf))
      ensures Held() == old(Held()) && off + cnt < size
    {
      if cnt == size {
        Grow();
      }
      if cnt > 0 && size - off - cnt == 0 {
        ghost var held := Held();
        forall i | 0 <= i < cnt {
          buf[i] := buf[off + i];
        }
        off := 0;
        assert buf[0..cnt] == held;
      }
    }

    /** Puts bytes behind those held. */
    method Append(piece: string)
      requires Valid() && piece != "" && off + cnt + |piece| <= size && !eof
      modifies this`cnt, buf
      ensures Valid() && cnt == old(cnt) + |piece| && Held() == old(Held()) + piece
    {
      ghost var held, end := Held(), off + cnt;
      forall i | 0 <= i < |piece| {
        buf[off + cnt + i] := piece[i];
      }
      assert buf[off..end] == held;
      assert buf[end..end + |piece|] == piece;
      cnt := cnt + |piece|;
      assert buf[off..off + cnt] == buf[off..end] + buf[end..off + cnt];
    }

    method FillDefault() returns (n: int)
      requires Valid() && off + cnt < size
      modifies this`cnt, this`eof, this`rest, this`plan, this`failed, buf
      ensures Valid() && Ahead() == old(Ahead())
      ensures n > 0 ==>
              cnt == old(cnt) + n && Held()[..old(cnt)] == old(Held()) && failed == old(failed) && |rest| < |old(rest)|
      ensures n <= 0 ==> cnt == old(cnt) && rest == old(rest) && Held() == old(Held())
      ensures n == 0 ==> rest == "" && failed == old(failed)
      ensures n < 0 ==> failed
    {
      if eof {
        return 0;
      }
      ghost var held := Held();
      var piece;
      n, piece := ReadFn(size - off - cnt);
      if n < 0 {
        return -1;
      }
      if n == 0 {
        eof := true;
        return 0;
      }
      Append(piece);
      AppendMoves(held, piece, rest);
    }

    /** Refills the buffer; it is never full when the source is read. */
    method Fill() returns (n: int)
      requires Valid()
      modifies this`buf, this`size, this`off, this`cnt, this`eof, this`rest, this`plan, this`failed, buf
      ensures Valid() && (buf == old(buf) || fresh(buf)) && Ahead() == old(Ahead())
      ensures n > 0 ==>
              cnt == old(cnt) + n && Held()[..old(cnt)] == old(Held()) && failed == old(failed) && |rest| < |old(rest)|
      ensures n <= 0 ==> cnt == old(cnt) && rest == old(rest) && Held() == old(Held())
      ensures n == 0 ==> rest == "" && failed == old(failed)
      ensures n < 0 ==> failed
    {
      Prewrite();
      n := FillDefault();
    }

    /** The first newline from `from` on among the bytes held, as a length. */
    method MemChr(from: nat) returns (n: nat)
      requires Valid() && from <= cnt
      ensures n == 0 ==> '\n' !in Held()[from..]
      ensures n > 0 ==> from < n <= cnt && Held()[n - 1] == '\n' && '\n' !in Held()[from..n - 1]
    {
      n := from;
      while n < cnt
        invariant from <= n <= cnt && '\n' !in Held()[from..n]
      {
        if buf[off + n] == '\n' {
          return n + 1;
        }
        assert Held()[from..n + 1] == Held()[from..n] + [Held()[n]];
        n := n + 1;
      }
      assert Held()[from..cnt] == Held()[from..];
      n := 0;
    }

    /** Refills the buffer until the bytes held begin with a whole line: its length, or
        nothing when the source fails. */
    method FindLine() returns (found: nat)
      requires Valid() && cnt > 0
      modifies this, buf
      ensures Valid() && (buf == old(buf) || fresh(buf)) && Ahead() == old(Ahead())
      ensures found == 0 ==> failed
      ensures found > 0 ==> failed == old(failed) && found <= cnt && LineIs(Held(), found, rest)
    {
      hide LineIs;
      found := MemChr(0);
      assert Held()[0..] == Held();
      FoundAtOnce(Held(), found, rest);
      while found == 0
        invariant Valid() && (buf == old(buf) || fresh(buf)) && Ahead() == old(Ahead()) && failed == old(failed) &&
                  cnt > 0
        invariant found == 0 ==> '\n' !in Held()
        invariant found > 0 ==> found <= cnt && LineIs(Held(), found, rest)
        decreases found == 0, |rest|
      {
        ghost var held := Held();
        var done := cnt;
        var n := Fill();
        if n < 0 {
          return 0;
        }
        if n == 0 {
          found := cnt;
          WholeLine(Held());
        } else {
          found := MemChr(done);
          LineBehind(held, Held(), found, rest);
        }
      }
    }

    /** Takes bytes out of the buffer. */
    method TakeOut(n: nat) returns (bytes: string)
      requires Valid() && n <= cnt
      modifies this`cnt, this`off
      ensures Valid() && bytes == old(Held())[..n] && Held() == old(Held())[n..]
    {
      bytes := buf[off..off + n];
      Slices(buf[..], off, n, cnt);
      assert buf[off..off + n] == buf[..][off..off + n] && buf[off..off + cnt] == buf[..][off..off + cnt];
      if n == cnt {
        cnt, off := 0, 0;
        assert Held() == "";
      } else {
        cnt, off := cnt - n, off + n;
        assert buf[off..off + cnt] == buf[..][off..off + cnt];
      }
    }

    /** The next line: the bytes up to the first newline, or all that is left. */
    method GetLn() returns (line: Option<string>)
      requires Valid()
      modifies this, buf
      ensures Valid() && (buf == old(buf) || fresh(buf))
      ensures line == None ==> Ahead() == old(Ahead()) && (failed || Ahead() == "")
      ensures line.Some? ==>
                && failed == old(failed) && old(Ahead()) != ""
                && line.value == old(Ahead())[..LineLen(old(Ahead()))] && old(Ahead()) == line.value + Ahead()
    {
      hide LineIs, LineLen;
      if cnt == 0 {
        var n := Fill();
        if n <= 0 {
          return None;
        }
      }
      var found := FindLine();
      if found == 0 {
        return None;
      }
      ghost var held := Held();
      LineFound(held, found, rest);
      var bytes := TakeOut(found);
      CutAt(held, found, rest);
      line := Some(bytes);
    }
  }

  /** The first `n` of the bytes held are a line: they end at the first newline, or
      nothing comes behind them. */
  ghost predicate LineIs(held: string, n: nat, rest: string) {
    && 0 < n <= |held| && '\n' !in held[..n - 1]
    && (held[n - 1] == '\n' || (n == |held| && rest == ""))
  }

  lemma {:induction false} AppendMoves(held: string, piece: string, rest: string)
    ensures held + piece + rest == held + (piece + rest) && (held + piece)[..|held|] == held
  {
  }

  lemma {:induction false} Slices(all: string, off: nat, n: nat, cnt: nat)
    requires n <= cnt && off + cnt <= |all|
    ensures all[off..off + cnt][..n] == all[off..off + n] && all[off..off + cnt][n..] == all[off + n..off + cnt]
  {
  }

  lemma {:induction false} CutAt(held: string, n: nat, rest: string)
    requires n <= |held|
    ensures held + rest == held[..n] + (held[n..] + rest)
  {
  }

  lemma {:induction false} WholeLine(held: string)
    requires held != "" && '\n' !in held
    ensures LineIs(held, |held|, "")
  {
    assert held == held[..|held| - 1] + [held[|held| - 1]];
  }

  lemma {:induction false} FoundAtOnce(held: string, n: nat, rest: string)
    requires n > 0 ==> n <= |held| && held[n - 1] == '\n' && '\n' !in held[0..n - 1]
    ensures n > 0 ==> LineIs(held, n, rest)
  {
    if n > 0 { assert held[0..n - 1] == held[..n - 1]; }
  }

  /** The newline is searched for only among the bytes that were added. */
  lemma {:induction false} LineBehind(before: string, held: string, n: nat, rest: string)
    requires |before| <= |held| && held[..|before|] == before && '\n' !in before
    requires n == 0 ==> '\n' !in held[|before|..]
    requires n > 0 ==> |before| < n <= |held| && held[n - 1] == '\n' && '\n' !in held[|before|..n - 1]
    ensures if n == 0 then '\n' !in held else LineIs(held, n, rest)
  {
    assert held == before + held[|before|..];
    if n > 0 { assert held[..n - 1] == before + held[|before|..n - 1]; }
  }

  lemma {:induction false} LineFound(held: string, n: nat, rest: string)
    requires LineIs(held, n, rest)
    ensures held + rest != "" && LineLen(held + rest) == n && (held + rest)[..n] == held[..n]
  {
    var all := held + rest;
    assert forall i :: 0 <= i < n - 1 ==> all[i] == held[..n - 1][i];
    LineLenIs(all, n);
  }

  lemma {:induction false} LineLenIs(s: string, n: nat)
    requires 0 < n <= |s| && (forall i :: 0 <= i < n - 1 ==> s[i] != '\n') && (s[n - 1] == '\n' || n == |s|)
    ensures LineLen(s) == n
  {
  }

  /** Reading lines until there are no more gives the lines of all bytes, however the
      source delivers them, unless it fails. */
  method ReadLines(stream: Stream) returns (ls: seq<Line>)
    requires stream.Valid()
    modifies stream, stream.buf
    ensures stream.Valid()
    ensures !stream.failed ==> ls == SplitLines(old(stream.Ahead())) && stream.Ahead() == ""
    ensures Concat(ls) + stream.Ahead() == old(stream.Ahead())
  {
    ls := [];
    ghost var all := stream.Ahead();
    SplitKeepsBytes(all);
    NoLinesYet(all);
    hide SplitLines, Concat, LineLen;
    var more := true;
    while more
      invariant stream.Valid() && (stream.buf == old(stream.buf) || fresh(stream.buf))
      invariant SplitLines(all) == ls + SplitLines(stream.Ahead()) && Concat(ls) + stream.Ahead() == all
      invariant !more ==> stream.failed || stream.Ahead() == ""
      decreases more, |stream.Ahead()|
    {
      ghost var before := stream.Ahead();
      var line := stream.GetLn();
      if line == None {
        more := false;
      } else {
        TakeLine(ls, line.value, before, stream.Ahead());
        ls := ls + [line.value];
      }
    }
    assert ls + [] == ls;
  }

  lemma {:induction false} NoLinesYet(all: string)
    ensures [] + SplitLines(all) == SplitLines(all) && Concat([]) + all == all && SplitLines("") == []
  {
  }

  lemma {:induction false} TakeLine(ls: seq<Line>, line: Line, before: string, after: string)
    requires before != "" && line == before[..LineLen(before)] && before == line + after
    ensures ls + SplitLines(before) == ls + [line] + SplitLines(after)
    ensures Concat(ls) + before == Concat(ls + [line]) + after
  {
    assert after == before[LineLen(before)..];
    assert SplitLines(before) == [line] + SplitLines(after);
    hide SplitLines, LineLen, Concat;
    ConcatSnoc(ls, line);
    Regroup(ls, line, SplitLines(after));
    AppendMoves(Concat(ls), line, after);
  }

  lemma {:induction false} Regroup(ls: seq<Line>, line: Line, more: seq<Line>)
    ensures ls + ([line] + more) == ls + [line] + more
  {
  }

  lemma {:induction false} ConcatSnoc(ls: seq<Line>, line: Line)
    ensures Concat(ls + [line]) == Concat(ls) + line
  {
    if ls == [] {
      assert ls + [line] == [line] && [line][1..] == [] && line + [] == line;
    } else {
      assert (ls + [line])[1..] == ls[1..] + [line];
      ConcatSnoc(ls[1..], line);
      assert ls[0] + (Concat(ls[1..]) + line) == ls[0] + Concat(ls[1..]) + line;
    }
  }
}
