/** The stream filter that feeds an RCS file to the digest without its layout.  The
    digest itself is the log of the bytes fed to it. */
module Md5Rcs {
  import opened RcsLex

  datatype State = Print | White | InString | Seen

  /** Where the filter is, and the last byte that was printed. */
  datatype Scan = Scan(state: State, lastc: char)

  const START := Scan(Print, ';')

  predicate IsWs(c: char) {
    c in {' ', '\n', '\t', 8 as char, 11 as char, 12 as char, '\r'}
  }

  predicate IsSpecial(c: char) { c in {'$', ',', ':', ';', '@'} }

  predicate IsPlain(c: char) { !IsWs(c) && c != '@' }

  // --------------------------------------------------------- what the filter does

  /** What one byte does, and what it feeds to the digest. */
  function Step(x: Scan, c: char): (Scan, string) {
    match x.state
    case Print =>
      if c == '@' then (x.(state := InString), "@") else if IsWs(c) then (x.(state := White), "")
          else (Scan(Print, c), [c])
    case White =>
      if c == '@' then (x.(state := InString), if x.lastc == '@' then " @" else "@")
      else if IsWs(c) then (x, "")
      else (Scan(Print, c), if IsSpecial(c) || IsSpecial(x.lastc) then [c] else [' ', c])
    case InString =>
      (if c == '@' then x.(state := Seen) else x, [c])
    case Seen =>
      if c == '@' then (x.(state := InString), "@") else if IsWs(c) then (Scan(White, '@'), "")
          else (Scan(Print, c), [c])
  }

  function Run(x: Scan, s: string): (Scan, string)
    decreases |s|
  {
    if s == "" then (x, "")
    else
      var (y, out) := Step(x, s[0]);
      var (z, more) := Run(y, s[1..]);
      (z, out + more)
  }

  lemma {:induction false} RunPlus(x: Scan, a: string, b: string)
    ensures var (y, out) := Run(x, a);
            Run(x, a + b) == (Run(y, b).0, out + Run(y, b).1)
    decreases |a|
  {
    if a == "" {
      assert a + b == b && "" + Run(x, b).1 == Run(x, b).1;
    } else {
      var (y, out) := Step(x, a[0]);
      assert (a + b)[1..] == a[1..] + b;
      RunPlus(y, a[1..], b);
      var (z, more) := Run(y, a[1..]);
      assert out + (more + Run(z, b).1) == out + more + Run(z, b).1;
    }
  }

  lemma {:induction false} RunOne(x: Scan, c: char)
    ensures Run(x, [c]) == Step(x, c)
  {
    assert [c][1..] == "" && Step(x, c).1 + "" == Step(x, c).1;
  }

  function Joined(chunks: seq<string>): string {
    if chunks == [] then "" else chunks[0] + Joined(chunks[1..])
  }

  function RunEach(x: Scan, chunks: seq<string>): (Scan, string)
    decreases |chunks|
  {
    if chunks == [] then (x, "")
    else
      var (y, out) := Run(x, chunks[0]);
      var (z, more) := RunEach(y, chunks[1..]);
      (z, out + more)
  }

  /** How the stream is cut into flushes makes no difference. */
  lemma {:induction false} ChunksIrrelevant(x: Scan, chunks: seq<string>)
    ensures RunEach(x, chunks) == Run(x, Joined(chunks))
    decreases |chunks|
  {
    if chunks != [] {
      RunPlus(x, chunks[0], Joined(chunks[1..]));
      ChunksIrrelevant(Run(x, chunks[0]).0, chunks[1..]);
    }
  }

  // ------------------------------------------------------------- white space runs

  predicate AllWs(w: string) {
    forall i :: 0 <= i < |w| ==> IsWs(w[i])
  }

  /** The byte before, as the filter sees it behind white space. */
  function Before(x: Scan): char { if x.state.Seen? then '@' else x.lastc }

  /** Outside strings, white space only has the filter remember that there was some. */
  lemma {:induction false} OverWhite(x: Scan, w: string)
    requires !x.state.InString? && AllWs(w) && w != ""
    ensures Run(x, w) == (Scan(White, Before(x)), "")
    decreases |w|
  {
    var y := Scan(White, Before(x));
    assert Step(x, w[0]) == (y, "");
    if |w| > 1 {
      OverWhite(y, w[1..]);
    } else {
      assert w[1..] == "";
    }
    assert "" + "" == "";
  }

  /** In a string, white space is fed as it is. */
  lemma {:induction false} InsideString(x: Scan, w: string)
    requires x.state.InString? && forall i :: 0 <= i < |w| ==> w[i] != '@'
    ensures Run(x, w) == (x, w)
  {
    if w != "" {
      InsideString(x, w[1..]);
      assert [w[0]] + w[1..] == w;
    }
  }

  lemma {:induction false} RunThree(x: Scan, a: string, w: string, b: string)
    ensures var (y, out) := Run(x, a);
            var (z, mid) := Run(y, w);
            Run(x, a + w + b) == (Run(z, b).0, out + mid + Run(z, b).1)
  {
    RunPlus(x, a + w, b);
    RunPlus(x, a, w);
  }

  lemma {:induction false} SameEnds(a: string, v: string, w: string, b: string)
    ensures a + v + b == a + w + b <==> v == w
  {
    var s, t := a + v + b, a + w + b;
    if s == t {
      assert |v| == |w|;
      assert v == s[|a|..|a| + |v|] && w == t[|a|..|a| + |w|];
    }
  }

  /** Replacing a run of white space by another one changes what is fed to the
      digest exactly when it is inside a string and not replaced by itself. */
  lemma {:induction false} WhiteSpaceExact(a: string, v: string, w: string, b: string)
    requires AllWs(v) && AllWs(w) && v != "" && w != ""
    ensures Run(START, a + v + b).1 == Run(START, a + w + b).1 <==> !Run(START, a).0.state.InString? || v == w
  {
    RunThree(START, a, v, b);
    RunThree(START, a, w, b);
    var (x, out) := Run(START, a);
    if x.state.InString? {
      InsideString(x, v);
      InsideString(x, w);
      SameEnds(out, v, w, Run(x, b).1);
    } else {
      OverWhite(x, v);
      OverWhite(x, w);
    }
  }

  // ------------------------------------------------------------------- the code

  class RcsDigest {
    var state: State
    var lastc: char
    var log: string

    constructor ()
      ensures Scan(state, lastc) == START && log == ""
    {
      state, lastc, log := Print, ';', "";
    }

    /** Where the filter will be, and what will have been fed, when the buffer from
        `i` on is done. */
    ghost function Whole(buf: string, i: nat): (Scan, string)
      requires i <= |buf|
      reads this
    {
      var (x, more) := Run(Scan(state, lastc), buf[i..]);
      (x, log + more)
    }

    /** How many changes of state may come before the next byte is taken. */
    ghost function Rank(buf: string, i: nat): nat
      requires i <= |buf|
      reads this
    {
      if i == |buf| then 0
      else if state.Seen? then 2
      else if (state.Print? && IsWs(buf[i])) || (state.White? && !IsWs(buf[i])) then 1
      else 0
    }

    method Update(bytes: string)
      modifies this`log
      ensures log == old(log) + bytes
    {
      log := log + bytes;
    }

    /** Outside of strings. */
    method TakePlain(buf: string, start: nat) returns (ptr: nat)
      requires start < |buf| && state.Print?
      modifies this
      ensures start <= ptr <= |buf| && Whole(buf, ptr) == old(Whole(buf, start))
      ensures ptr == start ==> Rank(buf, ptr) < old(Rank(buf, start))
    {
      hide Step, IsWs, Run;
      ptr := start;
      ghost var x := Scan(state, lastc);
      NothingRun(x);
      assert buf[start..ptr] == "";
      while ptr < |buf| && IsPlain(buf[ptr])
        invariant start <= ptr <= |buf| && state.Print? && log == old(log)
        invariant Run(x, buf[start..ptr]) == (Scan(Print, lastc), buf[start..ptr])
        invariant ptr == start ==> lastc == old(lastc)
      {
        PlainStep(lastc, buf[ptr]);
        RunPlus(x, buf[start..ptr], [buf[ptr]]);
        assert buf[start..ptr + 1] == buf[start..ptr] + [buf[ptr]];
        lastc := buf[ptr];
        ptr := ptr + 1;
      }
      Update(buf[start..ptr]);
      RunPlus(x, buf[start..ptr], buf[ptr..]);
      assert buf[start..] == buf[start..ptr] + buf[ptr..];
      Fed(old(log), buf[start..ptr], Run(Scan(Print, lastc), buf[ptr..]).1);
      if ptr < |buf| {
        QuoteFirst(lastc, buf, ptr);
        WhiteStep(lastc, buf[ptr..]);
        if buf[ptr] == '@' {
          Fed(log, "@", Run(Scan(InString, lastc), buf[ptr + 1..]).1);
          Update("@");
          ptr := ptr + 1;
          state := InString;
        } else {
          state := White;
        }
      }
    }

    /** In white space. */
    method TakeWhite(buf: string, start: nat) returns (ptr: nat)
      requires start < |buf| && state.White?
      modifies this
      ensures start <= ptr <= |buf| && Whole(buf, ptr) == old(Whole(buf, start))
      ensures ptr == start ==> Rank(buf, ptr) < old(Rank(buf, start))
    {
      hide IsWs;
      ptr := start;
      while ptr < |buf| && IsWs(buf[ptr])
        invariant start <= ptr <= |buf| && state.White? && Whole(buf, ptr) == old(Whole(buf, start)) && log == old(log)
        invariant lastc == old(lastc)
      {
        assert buf[ptr..][1..] == buf[ptr + 1..];
        SkipStep(lastc, buf[ptr..]);
        ptr := ptr + 1;
      }
      if ptr < |buf| {
        assert buf[ptr..][1..] == buf[ptr + 1..];
        QuoteStep(White, lastc);
        LeadStep(lastc, buf[ptr..]);
        hide Step;
        if buf[ptr] == '@' {
          Fed(log, if lastc == '@' then " @" else "@", Run(Scan(InString, lastc), buf[ptr + 1..]).1);
          if lastc == '@' {
            Update(" ");
            assert old(log) + " @" == log + "@";
          }
          Update("@");
          ptr := ptr + 1;
          state := InString;
        } else {
          Fed(log, " ", Run(Scan(Print, lastc), buf[ptr..]).1);
          if !IsSpecial(buf[ptr]) && !IsSpecial(lastc) {
            Update(" ");
          }
          state := Print;
        }
      }
    }

    /** In a string. */
    method TakeString(buf: string, start: nat) returns (ptr: nat)
      requires start < |buf| && state.InString?
      modifies this
      ensures start < ptr <= |buf| && Whole(buf, ptr) == old(Whole(buf, start))
    {
      ptr := start;
      ghost var x := Scan(state, lastc);
      while ptr < |buf| && buf[ptr] != '@'
        invariant start <= ptr <= |buf| && forall k :: start <= k < ptr ==> buf[k] != '@'
      {
        ptr := ptr + 1;
      }
      Update(buf[start..ptr]);
      InsideString(x, buf[start..ptr]);
      RunPlus(x, buf[start..ptr], buf[ptr..]);
      assert buf[start..] == buf[start..ptr] + buf[ptr..];
      Fed(old(log), buf[start..ptr], Run(x, buf[ptr..]).1);
      if ptr < |buf| {
        assert buf[ptr..][1..] == buf[ptr + 1..];
        Fed(log, "@", Run(Scan(Seen, lastc), buf[ptr + 1..]).1);
        Update("@");
        ptr := ptr + 1;
        state := Seen;
      }
    }

    /** Behind a quote that may end a string. */
    method TakeQuote(buf: string, start: nat) returns (ptr: nat)
      requires start < |buf| && state.Seen?
      modifies this
      ensures start <= ptr <= |buf| && Whole(buf, ptr) == old(Whole(buf, start))
      ensures ptr == start ==> Rank(buf, ptr) < old(Rank(buf, start))
    {
      ptr := start;
      assert buf[ptr..][1..] == buf[ptr + 1..];
      if buf[ptr] == '@' {
        Fed(log, "@", Run(Scan(InString, lastc), buf[ptr + 1..]).1);
        Update("@");
        ptr := ptr + 1;
        state := InString;
      } else if IsWs(buf[ptr]) {
        lastc, state := '@', White;
      } else {
        state := Print;
      }
    }

    /** One flush of the stream. */
    method Flush(buf: string)
      modifies this
      ensures (Scan(state, lastc), log) ==
              (Run(old(Scan(state, lastc)), buf).0, old(log) + Run(old(Scan(state, lastc)), buf).1)
    {
      hide Run, IsWs;
      var ptr: nat := 0;
      assert buf[0..] == buf;
      while ptr < |buf|
        invariant ptr <= |buf| && Whole(buf, ptr) == old(Whole(buf, 0))
        decreases |buf| - ptr, Rank(buf, ptr)
      {
        match state
        case Print => ptr := TakePlain(buf, ptr);
        case White => ptr := TakeWhite(buf, ptr);
        case InString => ptr := TakeString(buf, ptr);
        case Seen => ptr := TakeQuote(buf, ptr);
      }
      assert buf[ptr..] == "";
      NothingRun(Scan(state, lastc));
      assert log + "" == log;
    }
  }

  lemma {:induction false} QuoteFirst(lastc: char, buf: string, ptr: nat)
    requires ptr < |buf|
    ensures buf[ptr] == '@' ==>
              var (x, more) := Run(Scan(InString, lastc), buf[ptr + 1..]);
              Run(Scan(Print, lastc), buf[ptr..]) == (x, "@" + more)
  {
    assert buf[ptr..][1..] == buf[ptr + 1..];
  }

  lemma {:induction false} NothingRun(x: Scan)
    ensures Run(x, "") == (x, "")
  {
  }

  lemma {:induction false} Fed(log: string, a: string, b: string)
    ensures log + (a + b) == log + a + b
  {
  }

  lemma {:induction false} PlainStep(lastc: char, c: char)
    requires IsPlain(c)
    ensures Run(Scan(Print, lastc), [c]) == (Scan(Print, c), [c])
  {
    RunOne(Scan(Print, lastc), c);
  }

  lemma {:induction false} QuoteStep(s: State, lastc: char)
    requires s.Print? || s.White?
    ensures Step(Scan(s, lastc), '@') == (Scan(InString, lastc), if s.White? && lastc == '@' then " @" else "@")
  {
  }

  /** From print to white space nothing is taken. */
  lemma {:induction false} WhiteStep(lastc: char, s: string)
    requires s != ""
    ensures IsWs(s[0]) ==> Run(Scan(Print, lastc), s) == Run(Scan(White, lastc), s)
  {
  }

  lemma {:induction false} SkipStep(lastc: char, s: string)
    requires s != "" && IsWs(s[0])
    ensures Run(Scan(White, lastc), s) == Run(Scan(White, lastc), s[1..])
  {
    var more := Run(Scan(White, lastc), s[1..]).1;
    assert "" + more == more;
  }

  /** From white space to print only the space before the next byte is fed. */
  lemma {:induction false} LeadStep(lastc: char, s: string)
    requires s != "" && !IsWs(s[0])
    ensures s[0] != '@' ==>
              var (x, out) := Run(Scan(Print, lastc), s);
              Run(Scan(White, lastc), s) == (x, (if IsSpecial(s[0]) || IsSpecial(lastc) then "" else " ") + out)
  {
    if s[0] != '@' {
      var (x, more) := Run(Scan(Print, s[0]), s[1..]);
      assert [' ', s[0]] + more == " " + ([s[0]] + more);
      assert "" + ([s[0]] + more) == [s[0]] + more;
    }
  }

  // --------------------------------------------------------- layout and symbols

  /** The last byte of a token. */
  function Last(t: Tok): char
    requires GoodTok(t)
  {
    match t
    case Semi => ';'
    case Colon => ':'
    case Id(s) => s[|s| - 1]
    case Str(_) => '@'
  }

  /** The space that is fed between a token that ends in `l` and the token `t`. */
  function Lead(l: char, t: Tok): string
    requires GoodTok(t)
  {
    if t.Str? then if l == '@' then " " else "" else if IsSpecial(Text(t)[0]) || IsSpecial(l) then "" else " "
  }

  /** A list of tokens with the least layout. */
  function Packed(ts: seq<Tok>, l: char): seq<Piece>
    requires AllGood(ts)
    decreases |ts|
  {
    if ts == [] then [] else [Piece(Lead(l, ts[0]), ts[0])] + Packed(ts[1..], Last(ts[0]))
  }

  /** Symbols without a byte that the filter takes for white space and the lexer
      does not. */
  predicate NoBackspace(t: Tok) { t.Id? ==> (8 as char) !in t.text }

  lemma {:induction false} SymbolIsPlain(s: string)
    requires IsSymbol(s) && (8 as char) !in s
    ensures forall i :: 0 <= i < |s| ==> IsPlain(s[i])
  {
    forall i | 0 <= i < |s| ensures IsPlain(s[i]) {
      assert s[i] in s;
    }
  }

  lemma {:induction false} SpaceIsWs(s: string)
    requires AllSpace(s)
    ensures AllWs(s)
  {
  }

  /** Plain bytes are fed as they are. */
  lemma {:induction false} OverPlain(x: Scan, s: string)
    requires s != "" && (forall i :: 0 <= i < |s| ==> IsPlain(s[i])) && !x.state.InString? && !x.state.White?
    ensures Run(x, s) == (Scan(Print, s[|s| - 1]), s)
    decreases |s|
  {
    assert Step(x, s[0]) == (Scan(Print, s[0]), [s[0]]);
    if |s| > 1 {
      OverPlain(Scan(Print, s[0]), s[1..]);
    } else {
      assert s[1..] == "";
    }
    assert [s[0]] + s[1..] == s;
  }

  /** A string is fed as it is kept, whatever is in it. */
  lemma {:induction false} OverString(x: Scan, s: string)
    requires x.state.InString? && Doubled(s)
    ensures Run(x, s) == (x, s)
    decreases |s|
  {
    if s != "" && s[0] == '@' {
      var y := x.(state := Seen);
      assert s == "@@" + s[2..] && s[1..][1..] == s[2..];
      OverString(x, s[2..]);
      assert Run(y, s[1..]) == (x, "@" + s[2..]);
      assert "@" + ("@" + s[2..]) == "@@" + s[2..];
    } else if s != "" {
      OverString(x, s[1..]);
      assert [s[0]] + s[1..] == s;
    }
  }

  /** Between tokens. */
  predicate Between(x: Scan) { x.state.Print? || x.state.Seen? }

  /** The text of a token is fed as it is, when no white space comes before it. */
  lemma {:induction false} OverText(x: Scan, t: Tok)
    requires Between(x) && GoodTok(t) && NoBackspace(t) && (x.state.Seen? ==> !t.Str?)
    ensures var (y, out) := Run(x, Text(t));
            out == Text(t) && Between(y) && Before(y) == Last(t) && (y.state.Seen? <==> t.Str?)
  {
    match t
    case Id(s) =>
      SymbolIsPlain(s);
      OverPlain(x, s);
    case Str(s) =>
      var y := x.(state := InString);
      assert "@" + s + "@" == "@" + (s + "@") && ("@" + (s + "@"))[1..] == s + "@";
      OverString(y, s);
      RunPlus(y, s, "@");
      RunOne(y, '@');
    case _ =>
      RunOne(x, Text(t)[0]);
  }

  /** White space before a token is fed as the least layout has it. */
  lemma {:induction false} OverSpaced(l: char, t: Tok)
    requires GoodTok(t) && NoBackspace(t)
    ensures var (y, out) := Run(Scan(White, l), Text(t));
            out == Lead(l, t) + Text(t) && Between(y) && Before(y) == Last(t) && (y.state.Seen? <==> t.Str?)
  {
    OverText(Scan(Print, l), t);
    FirstChar(t);
    if t.Str? {
      var s := Text(t);
      RunPlus(Scan(White, l), "@", s[1..]);
      RunPlus(Scan(Print, l), "@", s[1..]);
      assert s == "@" + s[1..];
      RunOne(Scan(White, l), '@');
      RunOne(Scan(Print, l), '@');
      var more := Run(Scan(InString, l), s[1..]).1;
      assert " @" + more == " " + ("@" + more) && "" + ("@" + more) == "@" + more;
    } else {
      if t.Id? { SymbolIsPlain(t.text); }
      LeadStep(l, Text(t));
    }
  }

  /** One printed piece: its white space is fed as the least layout has it. */
  lemma {:induction false} OverPiece(x: Scan, p: Piece)
    requires Between(x) && AllSpace(p.space) && GoodTok(p.tok) && NoBackspace(p.tok)
    requires p.space == "" ==> Lead(Before(x), p.tok) == ""
    requires p.space == "" && x.state.Seen? ==> !p.tok.Str?
    ensures var (y, out) := Run(x, p.space + Text(p.tok));
            && out == Lead(Before(x), p.tok) + Text(p.tok)
            && Between(y) && Before(y) == Last(p.tok) && (y.state.Seen? <==> p.tok.Str?)
  {
    hide Run, GoodTok, Text, Last, NoBackspace;
    if p.space == "" {
      OverText(x, p.tok);
      assert "" + Text(p.tok) == Text(p.tok);
    } else {
      RunPlus(x, p.space, Text(p.tok));
      SpaceIsWs(p.space);
      OverWhite(x, p.space);
      OverSpaced(Before(x), p.tok);
      assert "" + (Lead(Before(x), p.tok) + Text(p.tok)) == Lead(Before(x), p.tok) + Text(p.tok);
    }
  }

  /** Tokens that were printed without white space between them. */
  lemma {:induction false} NoLead(t: Tok, next: Tok)
    requires GoodTok(t) && GoodTok(next)
    ensures Parted(t, Text(next)) ==> Lead(Last(t), next) == "" && !(t.Str? && next.Str?)
    ensures Text(next) != ""
  {
    FirstChar(next);
  }

  predicate AllGood(ts: seq<Tok>) {
    forall i :: 0 <= i < |ts| ==> GoodTok(ts[i])
  }

  predicate NoBackspaces(ts: seq<Tok>) {
    forall i :: 0 <= i < |ts| ==> NoBackspace(ts[i])
  }

  lemma {:induction false} GoodTail(ts: seq<Tok>)
    requires ts != [] && AllGood(ts)
    ensures GoodTok(ts[0]) && AllGood(ts[1..])
    ensures NoBackspaces(ts) ==> NoBackspace(ts[0]) && NoBackspaces(ts[1..])
  {
  }

  /** The next token can stand where the filter is: behind `l`, the end of a string
      if `seen`. */
  predicate Opens(l: char, seen: bool, ps: seq<Piece>)
    requires ps != [] ==> GoodTok(ps[0].tok)
  {
    ps != [] && ps[0].space == "" ==> Lead(l, ps[0].tok) == "" && !(seen && ps[0].tok.Str?)
  }

  lemma {:induction false} PartedOpens(t: Tok, ps: seq<Piece>, tail: string)
    requires GoodTok(t) && Printable(ps, tail) && Parted(t, Render(ps, tail))
    ensures (ps != [] ==> GoodTok(ps[0].tok)) && Opens(Last(t), t.Str?, ps)
  {
    if ps != [] && ps[0].space == "" {
      NoLead(t, ps[0].tok);
      var text := Text(ps[0].tok);
      assert Render(ps, tail) == "" + text + Render(ps[1..], tail);
      assert Render(ps, tail)[0] == text[0];
    }
  }

  lemma {:induction false} PrintedGood(ps: seq<Piece>, tail: string)
    requires Printable(ps, tail)
    ensures AllGood(Toks(ps)) && (ps != [] ==> Toks(ps) == [ps[0].tok] + Toks(ps[1..]) && GoodTok(ps[0].tok))
    decreases |ps|
  {
    if ps != [] {
      PrintedGood(ps[1..], tail);
    }
  }

  lemma {:induction false} Regroup(a: string, b: string, c: string)
    ensures a + b + c == a + (b + c)
  {
  }

  lemma {:induction false} PrintedFrom(x: Scan, ps: seq<Piece>, tail: string)
    requires Between(x) && Printable(ps, tail) && AllSpace(tail) && NoBackspaces(Toks(ps))
    requires (ps != [] ==> GoodTok(ps[0].tok)) && Opens(Before(x), x.state.Seen?, ps)
    ensures AllGood(Toks(ps)) && Run(x, Render(ps, tail)).1 == Render(Packed(Toks(ps), Before(x)), "")
    decreases |ps|
  {
    PrintedGood(ps, tail);
    if ps == [] {
      if tail != "" {
        SpaceIsWs(tail);
        OverWhite(x, tail);
      }
    } else {
      var p, rest, l := ps[0], Render(ps[1..], tail), Before(x);
      PrintableFirst(ps, tail);
      assert Toks(ps)[1..] == Toks(ps[1..]);
      GoodTail(Toks(ps));
      PartedOpens(p.tok, ps[1..], tail);
      RunPlus(x, p.space + Text(p.tok), rest);
      hide Run, Toks, Printable, NoBackspaces, AllGood, GoodTok, NoBackspace, Text, Last, Lead, Opens, Parted;
      OpensFirst(l, x.state.Seen?, ps);
      OverPiece(x, p);
      var y := Run(x, p.space + Text(p.tok)).0;
      PrintedFrom(y, ps[1..], tail);
      PackedStep(p.tok, Toks(ps[1..]), l);
    }
  }

  lemma {:induction false} OpensFirst(l: char, seen: bool, ps: seq<Piece>)
    requires ps != [] && GoodTok(ps[0].tok) && Opens(l, seen, ps)
    ensures ps[0].space == "" ==> Lead(l, ps[0].tok) == "" && (seen ==> !ps[0].tok.Str?)
  {
  }

  lemma {:induction false} PackedStep(t: Tok, ts: seq<Tok>, l: char)
    requires GoodTok(t) && AllGood(ts) && AllGood([t] + ts)
    ensures Render(Packed([t] + ts, l), "") == Lead(l, t) + Text(t) + Render(Packed(ts, Last(t)), "")
  {
    assert ([t] + ts)[1..] == ts;
    var ps := Packed(ts, Last(t));
    assert ([Piece(Lead(l, t), t)] + ps)[1..] == ps;
  }

  /** What is fed to the digest of a printed file is its tokens with the least
      layout: how the file was laid out does not matter, and nothing else is lost. */
  lemma {:induction false} DigestOfPrinted(ps: seq<Piece>, tail: string)
    requires Printable(ps, tail) && AllSpace(tail) && NoBackspaces(Toks(ps))
    ensures AllGood(Toks(ps)) && Run(START, Render(ps, tail)).1 == Render(Packed(Toks(ps), ';'), "")
  {
    PrintedGood(ps, tail);
    PrintedFrom(START, ps, tail);
  }

  // --------------------------------------------------------- what two files share

  /** Two symbols that meet in a special byte: the filter drops the white space that
      parts them. */
  predicate Meet(a: Tok, b: Tok) {
    a.Id? && b.Id? && a.text != "" && b.text != "" && (IsSpecial(a.text[|a.text| - 1]) || IsSpecial(b.text[0]))
  }

  /** The tokens with such symbols run together. */
  function Melt(ts: seq<Tok>): (us: seq<Tok>)
    ensures us == [] <==> ts == []
  {
    if ts == [] then []
    else
      var rest := Melt(ts[1..]);
      if rest != [] && Meet(ts[0], rest[0]) then [Id(ts[0].text + rest[0].text)] + rest[1..] else [ts[0]] + rest
  }

  /** No two symbols meet in a special byte. */
  predicate Clear(ts: seq<Tok>) {
    |ts| < 2 || (!Meet(ts[0], ts[1]) && Clear(ts[1..]))
  }

  lemma {:induction false} Melted(a: Tok, b: Tok)
    requires Meet(a, b) && GoodTok(a) && GoodTok(b)
    ensures var t := Id(a.text + b.text);
            && GoodTok(t) && (NoBackspace(a) && NoBackspace(b) ==> NoBackspace(t))
            && Lead(Last(a), b) == "" && Last(t) == Last(b) && forall l :: Lead(l, t) == Lead(l, a)
  {
    var s := a.text + b.text;
    assert s[0] == a.text[0] && s[|s| - 1] == b.text[|b.text| - 1];
    if NoBackspace(a) && NoBackspace(b) {
      assert (8 as char) !in s;
    }
  }

  lemma {:induction false} AllGoodCons(t: Tok, ts: seq<Tok>)
    requires GoodTok(t) && AllGood(ts)
    ensures AllGood([t] + ts) && (NoBackspace(t) && NoBackspaces(ts) ==> NoBackspaces([t] + ts))
  {
  }

  lemma {:induction false} MeltGood(ts: seq<Tok>)
    requires AllGood(ts)
    ensures AllGood(Melt(ts)) && (NoBackspaces(ts) ==> NoBackspaces(Melt(ts)))
    decreases |ts|
  {
    if ts != [] {
      GoodTail(ts);
      MeltGood(ts[1..]);
      var rest := Melt(ts[1..]);
      hide GoodTok, NoBackspace, AllGood, NoBackspaces, Meet;
      if rest != [] && Meet(ts[0], rest[0]) {
        GoodTail(rest);
        Melted(ts[0], rest[0]);
        AllGoodCons(Id(ts[0].text + rest[0].text), rest[1..]);
      } else {
        AllGoodCons(ts[0], rest);
      }
    }
  }

  lemma {:induction false} MeltClear(ts: seq<Tok>)
    requires AllGood(ts)
    ensures Clear(Melt(ts))
    decreases |ts|
  {
    if ts != [] {
      GoodTail(ts);
      MeltClear(ts[1..]);
      var rest := Melt(ts[1..]);
      if rest != [] {
        if Meet(ts[0], rest[0]) {
          ClearJoined(ts[0], rest);
        } else {
          assert ([ts[0]] + rest)[1..] == rest;
        }
      }
    }
  }

  lemma {:induction false} ClearJoined(a: Tok, rest: seq<Tok>)
    requires rest != [] && Meet(a, rest[0]) && Clear(rest)
    ensures Clear([Id(a.text + rest[0].text)] + rest[1..])
  {
    var t, more := Id(a.text + rest[0].text), rest[1..];
    assert ([t] + more)[1..] == more;
    assert t.text[|t.text| - 1] == rest[0].text[|rest[0].text| - 1];
  }

  /** Without melted symbols nothing changes. */
  lemma {:induction false} ClearMelts(ts: seq<Tok>)
    requires AllGood(ts)
    ensures Melt(ts) == ts <==> Clear(ts)
    decreases |ts|
  {
    if ts == [] {
    } else if !Clear(ts) {
      MeltClear(ts);
    } else {
      GoodTail(ts);
      ClearMelts(ts[1..]);
      assert ts == [ts[0]] + ts[1..];
      if |ts| > 1 { assert Melt(ts[1..])[0] == ts[1]; }
    }
  }

  lemma {:induction false} MeltStep(t: Tok, ts: seq<Tok>)
    ensures var rest := Melt(ts);
            Melt([t] + ts) ==
            if rest != [] && Meet(t, rest[0]) then [Id(t.text + rest[0].text)] + rest[1..] else [t] + rest
  {
    assert ([t] + ts)[1..] == ts;
  }

  lemma {:induction false} JoinedPacked(a: Tok, rest: seq<Tok>, l: char)
    requires GoodTok(a) && AllGood(rest) && rest != [] && Meet(a, rest[0])
    ensures var t := Id(a.text + rest[0].text);
            && AllGood([t] + rest[1..])
            && Lead(l, a) + Text(a) + Render(Packed(rest, Last(a)), "") == Render(Packed([t] + rest[1..], l), "")
  {
    var b, more := rest[0], rest[1..];
    var t := Id(a.text + b.text);
    GoodTail(rest);
    Melted(a, b);
    AllGoodCons(t, more);
    assert Text(t) == Text(a) + Text(b);
    hide GoodTok, AllGood, Render, Packed, Last, Lead, Text, Meet;
    assert rest == [b] + more;
    PackedStep(b, more, Last(a));
    PackedStep(t, more, l);
    JoinTexts(Lead(l, a), Text(a), Text(b), Render(Packed(more, Last(b)), ""));
  }

  lemma {:induction false} JoinTexts(lead: string, a: string, b: string, tail: string)
    ensures lead + a + ("" + b + tail) == lead + (a + b) + tail
  {
  }

  /** Melted symbols are fed to the digest alike. */
  lemma {:induction false} MeltPacked(ts: seq<Tok>, l: char)
    requires AllGood(ts)
    ensures AllGood(Melt(ts)) && Render(Packed(ts, l), "") == Render(Packed(Melt(ts), l), "")
    decreases |ts|
  {
    MeltGood(ts);
    if ts != [] {
      var t, more := ts[0], ts[1..];
      GoodTail(ts);
      assert ts == [t] + more;
      var rest := Melt(more);
      MeltStep(t, more);
      hide GoodTok, AllGood, Render, Packed, Last, Lead, Text, Meet, Melt;
      MeltPacked(more, Last(t));
      PackedStep(t, more, l);
      if rest != [] && Meet(t, rest[0]) {
        JoinedPacked(t, rest, l);
      } else {
        PackedStep(t, rest, l);
      }
    }
  }

  lemma {:induction false} PackedParts(t: Tok, ts: seq<Tok>)
    requires GoodTok(t) && AllGood(ts) && (ts != [] ==> !Meet(t, ts[0]))
    ensures Parted(t, Render(Packed(ts, Last(t)), "\n"))
  {
    if ts != [] {
      var n := ts[0];
      assert GoodTok(n);
      FirstChar(n);
      var more := Render(Packed(ts, Last(t))[1..], "\n");
      assert Render(Packed(ts, Last(t)), "\n") == Lead(Last(t), n) + Text(n) + more;
      PackedPair(t, n, more);
    }
  }

  lemma {:induction false} PackedPair(t: Tok, n: Tok, more: string)
    requires GoodTok(t) && GoodTok(n) && !Meet(t, n)
    ensures Parted(t, Lead(Last(t), n) + Text(n) + more)
  {
    FirstChar(n);
    var lead, text := Lead(Last(t), n), Text(n);
    assert (lead + text + more)[0] == if lead == "" then text[0] else ' ';
  }

  lemma {:induction false} LeadIsSpace(l: char, t: Tok)
    requires GoodTok(t)
    ensures AllSpace(Lead(l, t))
  {
  }

  lemma {:induction false} PrintableCons(p: Piece, ps: seq<Piece>, tail: string)
    requires AllSpace(p.space) && GoodTok(p.tok) && Parted(p.tok, Render(ps, tail)) && Printable(ps, tail)
    ensures Printable([p] + ps, tail) && Toks([p] + ps) == [p.tok] + Toks(ps)
    ensures Render([p] + ps, tail) == p.space + Text(p.tok) + Render(ps, tail)
  {
    assert ([p] + ps)[1..] == ps;
  }

  lemma {:induction false} PackedPrints(ts: seq<Tok>, l: char)
    requires AllGood(ts) && Clear(ts)
    ensures Printable(Packed(ts, l), "\n") && Toks(Packed(ts, l)) == ts
    decreases |ts|
  {
    if ts != [] {
      var t, rest := ts[0], ts[1..];
      GoodTail(ts);
      PackedPrints(rest, Last(t));
      PackedParts(t, rest);
      LeadIsSpace(l, t);
      var p, ps := Piece(Lead(l, t), t), Packed(rest, Last(t));
      assert Packed(ts, l) == [p] + ps && ts == [t] + rest;
      hide Packed, GoodTok, Parted, AllGood, Clear, Lead, AllSpace;
      PrintableCons(p, ps, "\n");
    }
  }

  lemma {:induction false} TailMoved(ps: seq<Piece>, tail: string)
    ensures Render(ps, tail) == Render(ps, "") + tail
    decreases |ps|
  {
    if ps != [] {
      TailMoved(ps[1..], tail);
      Regroup(ps[0].space + Text(ps[0].tok), Render(ps[1..], ""), tail);
    }
  }

  /** What was fed to the digest lexes back to the tokens, melted ones as one. */
  lemma {:induction false} PackedLexes(ts: seq<Tok>)
    requires AllGood(ts) && Clear(ts)
    ensures Tokens(Render(Packed(ts, ';'), "\n"), 0) == (ts, true)
  {
    PackedPrints(ts, ';');
    var d := Render(Packed(ts, ';'), "\n");
    assert d[0..] == d;
    TokensOfPrinted(d, 0, Packed(ts, ';'), "\n");
  }

  /** Two printed files without backspaces in their symbols are fed to the digest
      alike if and only if their tokens are the same once symbols that meet in a
      special byte are run together. */
  lemma {:induction false} DigestExact(ps: seq<Piece>, t: string, qs: seq<Piece>, u: string)
    requires Printable(ps, t) && AllSpace(t) && NoBackspaces(Toks(ps))
    requires Printable(qs, u) && AllSpace(u) && NoBackspaces(Toks(qs))
    ensures Run(START, Render(ps, t)).1 == Run(START, Render(qs, u)).1 <==> Melt(Toks(ps)) == Melt(Toks(qs))
  {
    hide Run, Render, Packed, Melt, Clear, Printable, NoBackspaces, AllGood;
    DigestOfPrinted(ps, t);
    DigestOfPrinted(qs, u);
    var a, b := Melt(Toks(ps)), Melt(Toks(qs));
    MeltPacked(Toks(ps), ';');
    MeltPacked(Toks(qs), ';');
    MeltClear(Toks(ps));
    MeltClear(Toks(qs));
    TailMoved(Packed(a, ';'), "\n");
    TailMoved(Packed(b, ';'), "\n");
    PackedLexes(a);
    PackedLexes(b);
  }

  /** A symbol that could be taken for two that meet in a special byte. */
  predicate Splits(t: Tok) {
    t.Id? && |t.text| > 1 && exists i :: 0 <= i < |t.text| && IsSpecial(t.text[i])
  }

  /** No two symbols meet in a special byte, and none could be taken for two. */
  predicate Distinct(ts: seq<Tok>) {
    Clear(ts) && NoSplits(ts)
  }

  predicate NoSplits(ts: seq<Tok>) {
    forall i :: 0 <= i < |ts| ==> !Splits(ts[i])
  }

  lemma {:induction false} JoinSplits(a: Tok, b: Tok)
    requires Meet(a, b)
    ensures Splits(Id(a.text + b.text))
  {
    var s := a.text + b.text;
    assert s[|a.text| - 1] == a.text[|a.text| - 1] && s[|a.text|] == b.text[0];
  }

  /** Run-together symbols could be taken for two. */
  lemma {:induction false} MeltSplits(ts: seq<Tok>)
    ensures NoSplits(Melt(ts)) ==> Melt(ts) == ts
    decreases |ts|
  {
    if ts != [] {
      MeltSplits(ts[1..]);
      var rest := Melt(ts[1..]);
      assert ts == [ts[0]] + ts[1..];
      if rest != [] && Meet(ts[0], rest[0]) {
        JoinSplits(ts[0], rest[0]);
        assert Splits(Melt(ts)[0]);
      } else {
        assert Melt(ts)[1..] == rest;
        assert NoSplits(Melt(ts)) ==> NoSplits(Melt(ts)[1..]);
      }
    }
  }

  lemma {:induction false} SplitInTwo(t: Tok) returns (a: Tok, b: Tok)
    requires Splits(t) && GoodTok(t) && NoBackspace(t)
    ensures Meet(a, b) && t == Id(a.text + b.text) && GoodTok(a) && GoodTok(b) && NoBackspace(a) && NoBackspace(b)
  {
    var i :| 0 <= i < |t.text| && IsSpecial(t.text[i]);
    var k := if i == 0 then 1 else i;
    a, b := Id(t.text[..k]), Id(t.text[k..]);
    assert t.text == a.text + b.text;
  }

  /** Tokens that are not distinct have a counterpart that is fed alike. */
  lemma {:induction false} Counterpart(ts: seq<Tok>) returns (us: seq<Tok>)
    requires AllGood(ts) && NoBackspaces(ts) && !Distinct(ts)
    ensures us != ts && AllGood(us) && NoBackspaces(us) && Melt(us) == Melt(ts)
  {
    if !Clear(ts) {
      us := Melt(ts);
      ClearMelts(ts);
      MeltGood(ts);
      MeltClear(ts);
      ClearMelts(us);
    } else {
      us := SplitOne(ts);
    }
  }

  lemma {:induction false} SpliceGood(pre: seq<Tok>, t: Tok, a: Tok, b: Tok, post: seq<Tok>)
    requires AllGood(pre + ([t] + post)) && NoBackspaces(pre + ([t] + post))
    requires GoodTok(a) && GoodTok(b) && NoBackspace(a) && NoBackspace(b)
    ensures AllGood(pre + ([a, b] + post)) && NoBackspaces(pre + ([a, b] + post))
  {
    hide GoodTok, NoBackspace;
    var ts, us := pre + ([t] + post), pre + ([a, b] + post);
    forall i | 0 <= i < |us| ensures GoodTok(us[i]) && NoBackspace(us[i]) {
      if i < |pre| {
        assert us[i] == ts[i];
      } else if i >= |pre| + 2 {
        assert us[i] == ts[i - 1];
      }
    }
  }

  lemma {:induction false} SplitOne(ts: seq<Tok>) returns (us: seq<Tok>)
    requires AllGood(ts) && NoBackspaces(ts) && Clear(ts) && !NoSplits(ts)
    ensures us != ts && AllGood(us) && NoBackspaces(us) && Melt(us) == Melt(ts)
  {
    var i: nat :| i < |ts| && Splits(ts[i]);
    assert GoodTok(ts[i]) && NoBackspace(ts[i]);
    hide Clear, Splits, GoodTok, NoBackspace, Meet, Melt, AllGood, NoBackspaces, NoSplits;
    var a, b := SplitInTwo(ts[i]);
    var pre, post := ts[..i], ts[i + 1..];
    us := pre + ([a, b] + post);
    assert ts == pre + ([Id(a.text + b.text)] + post);
    SplitMelts(pre, a, b, post);
    SpliceGood(pre, ts[i], a, b, post);
    assert |us| == |ts| + 1;
  }

  lemma {:induction false} SplitMelts(pre: seq<Tok>, a: Tok, b: Tok, post: seq<Tok>)
    requires Meet(a, b) && Clear(pre + ([Id(a.text + b.text)] + post)) && AllGood(pre + ([Id(a.text + b.text)] + post))
    ensures Melt(pre + ([a, b] + post)) == Melt(pre + ([Id(a.text + b.text)] + post))
    decreases |pre|
  {
    var t := Id(a.text + b.text);
    if pre == [] {
      var ts := [t] + post;
      assert pre + ([a, b] + post) == [a] + ([b] + post) && pre + ts == ts;
      GoodTail(ts);
      assert ts[1..] == post;
      ClearMelts(post);
      MeltStep(b, post);
      MeltStep(a, [b] + post);
      MeltStep(t, post);
      NoMeeting(a, b, post);
    } else {
      var x := pre[0];
      var more := pre[1..];
      assert pre + ([a, b] + post) == [x] + (more + ([a, b] + post));
      assert pre + ([t] + post) == [x] + (more + ([t] + post));
      GoodTail(pre + ([t] + post));
      SplitMelts(more, a, b, post);
      MeltStep(x, more + ([a, b] + post));
      MeltStep(x, more + ([t] + post));
    }
  }

  lemma {:induction false} NoMeeting(a: Tok, b: Tok, post: seq<Tok>)
    requires Meet(a, b) && Clear([Id(a.text + b.text)] + post)
    ensures Clear(post) && (post != [] ==> !Meet(b, post[0]) && !Meet(Id(a.text + b.text), post[0]))
  {
    var t := Id(a.text + b.text);
    assert ([t] + post)[1..] == post;
    assert t.text[|t.text| - 1] == b.text[|b.text| - 1];
  }

  /** Some printed file with other tokens is fed to the digest like this one. */
  ghost predicate Mistakable(ps: seq<Piece>, t: string) {
    exists qs: seq<Piece>, u: string ::
      && Printable(qs, u) && AllSpace(u) && NoBackspaces(Toks(qs)) && Toks(qs) != Toks(ps)
      && Run(START, Render(qs, u)).1 == Run(START, Render(ps, t)).1
  }

  /** A list of tokens printed with a blank before each. */
  function Spread(ts: seq<Tok>): seq<Piece> {
    if ts == [] then [] else [Piece(" ", ts[0])] + Spread(ts[1..])
  }

  lemma {:induction false} SpreadPrints(ts: seq<Tok>)
    requires AllGood(ts)
    ensures Printable(Spread(ts), "\n") && Toks(Spread(ts)) == ts
    ensures Render(Spread(ts), "\n") != "" && IsSpace(Render(Spread(ts), "\n")[0])
    decreases |ts|
  {
    if ts != [] {
      GoodTail(ts);
      SpreadPrints(ts[1..]);
      var ps := Spread(ts[1..]);
      assert ([Piece(" ", ts[0])] + ps)[1..] == ps;
      assert ts == [ts[0]] + ts[1..];
      assert Render(Spread(ts), "\n") == " " + Text(ts[0]) + Render(ps, "\n");
    }
  }

  /** A printed file without backspaces in its symbols is told by its digest from
      every other one if and only if no two of its symbols meet in a special byte and
      no longer symbol holds one. */
  lemma {:induction false} DigestTells(ps: seq<Piece>, t: string)
    requires Printable(ps, t) && AllSpace(t) && NoBackspaces(Toks(ps))
    ensures Mistakable(ps, t) <==> !Distinct(Toks(ps))
  {
    hide Run, Render, Packed, Melt, Clear, Printable, NoBackspaces, AllGood, Splits;
    var ts := Toks(ps);
    PrintedGood(ps, t);
    if Distinct(ts) && Mistakable(ps, t) {
      var qs: seq<Piece>, u: string :|
        && Printable(qs, u) && AllSpace(u) && NoBackspaces(Toks(qs)) && Toks(qs) != Toks(ps)
        && Run(START, Render(qs, u)).1 == Run(START, Render(ps, t)).1;
      DigestExact(ps, t, qs, u);
      ClearMelts(ts);
      MeltSplits(Toks(qs));
    }
    if !Distinct(ts) {
      var us := Counterpart(ts);
      SpreadPrints(us);
      NewlineIsSpace();
      DigestExact(ps, t, Spread(us), "\n");
      assert Printable(Spread(us), "\n") && Toks(Spread(us)) != Toks(ps);
    }
  }

  lemma {:induction false} NewlineIsSpace()
    ensures AllSpace("\n")
  {
  }

  // ------------------------------------------------------------------ backspaces

  /** Behind a symbol the filter does not notice a backspace. */
  lemma {:induction false} AfterSymbol(l: char, rest: string)
    requires rest != "" && Stops(rest[0]) && l != '@'
    ensures Run(Scan(Print, l), [8 as char] + rest).1 == Run(Scan(Print, l), rest).1
  {
    var b := [8 as char];
    RunPlus(Scan(Print, l), b, rest);
    RunOne(Scan(Print, l), 8 as char);
    assert "" + Run(Scan(White, l), rest).1 == Run(Scan(White, l), rest).1;
    if IsWs(rest[0]) {
      WhiteStep(l, rest);
    } else if rest[0] == '@' {
      QuoteStep(Print, l);
      QuoteStep(White, l);
    } else {
      LeadStep(l, rest);
      assert "" + Run(Scan(Print, l), rest).1 == Run(Scan(Print, l), rest).1;
    }
  }

  /** Outside strings a symbol is fed alike with a backspace at its end. */
  lemma {:induction false} BackspaceHere(x: Scan, s: string, rest: string)
    requires !x.state.InString? && IsSymbol(s) && (8 as char) !in s && rest != "" && Stops(rest[0])
    ensures Run(x, s + [8 as char] + rest).1 == Run(x, s + rest).1
  {
    var b, l := [8 as char], s[|s| - 1];
    SymbolIsPlain(s);
    assert Run(x, s).0 == Scan(Print, l) by {
      if x.state.White? {
        LeadStep(x.lastc, s);
        OverPlain(Scan(Print, x.lastc), s);
      } else {
        OverPlain(x, s);
      }
    }
    RunPlus(x, s, b + rest);
    RunPlus(x, s, rest);
    assert s + b + rest == s + (b + rest);
    AfterSymbol(l, rest);
  }

  /** After printed pieces the filter is outside strings. */
  lemma {:induction false} OverPieces(x: Scan, ps: seq<Piece>, rest: string)
    requires Between(x) && Printable(ps, rest) && NoBackspaces(Toks(ps))
    requires (ps != [] ==> GoodTok(ps[0].tok)) && Opens(Before(x), x.state.Seen?, ps)
    ensures Between(Run(x, Render(ps, "")).0)
    decreases |ps|
  {
    if ps != [] {
      var p, l := ps[0], Before(x);
      PrintedGood(ps, rest);
      PrintableFirst(ps, rest);
      assert Toks(ps)[1..] == Toks(ps[1..]);
      GoodTail(Toks(ps));
      PartedOpens(p.tok, ps[1..], rest);
      RunPlus(x, p.space + Text(p.tok), Render(ps[1..], ""));
      assert Render(ps, "") == p.space + Text(p.tok) + Render(ps[1..], "");
      hide Run, Toks, Printable, NoBackspaces, AllGood, GoodTok, NoBackspace, Text, Last, Lead, Opens, Parted, Render;
      OpensFirst(l, x.state.Seen?, ps);
      OverPiece(x, p);
      OverPieces(Run(x, p.space + Text(p.tok)).0, ps[1..], rest);
    }
  }

  /** What comes behind printed pieces matters only by its first byte. */
  lemma {:induction false} SameFirst(ps: seq<Piece>, r: string, q: string)
    requires r != "" && q != "" && r[0] == q[0] && Printable(ps, r)
    ensures Printable(ps, q) && Render(ps, q) != "" && Render(ps, q)[0] == Render(ps, r)[0]
    decreases |ps|
  {
    if ps != [] {
      SameFirst(ps[1..], r, q);
      FirstChar(ps[0].tok);
      var text := ps[0].space + Text(ps[0].tok);
      assert Render(ps, q)[0] == text[0] == Render(ps, r)[0];
    }
  }

  /** The piece with a backspace at the end of its symbol. */
  function Twin(p: Piece): (q: Piece)
    requires p.tok.Id?
    ensures q != p && q.tok != p.tok && q.space == p.space
  {
    assert |p.tok.text + [8 as char]| == |p.tok.text| + 1;
    Piece(p.space, Id(p.tok.text + [8 as char]))
  }

  lemma {:induction false} TwinPrints(pre: seq<Piece>, p: Piece, post: seq<Piece>, tail: string)
    requires p.tok.Id? && AllSpace(p.space) && GoodTok(p.tok)
    requires Printable(post, tail) && Parted(p.tok, Render(post, tail)) && Printable(pre, Render([p] + post, tail))
    ensures Printable([Twin(p)] + post, tail) && Printable(pre, Render([Twin(p)] + post, tail))
  {
    var q, rest := Twin(p), Render(post, tail);
    assert GoodTok(q.tok);
    hide Printable, GoodTok, Render, AllSpace;
    PrintableCons(p, post, tail);
    PrintableCons(q, post, tail);
    var s := p.tok.text;
    assert s != "" by { FirstChar(p.tok); }
    assert (p.space + s + rest)[0] == (p.space + (s + [8 as char]) + rest)[0];
    SameFirst(pre, Render([p] + post, tail), Render([q] + post, tail));
  }

  lemma {:induction false} BeforePiece(pre: seq<Piece>, space: string, rest: string)
    requires Printable(pre, rest) && NoBackspaces(Toks(pre)) && AllSpace(space)
    ensures !Run(START, Render(pre, "") + space).0.state.InString?
  {
    PrintedGood(pre, rest);
    OverPieces(START, pre, rest);
    RunPlus(START, Render(pre, ""), space);
    SpaceIsWs(space);
    if space != "" { OverWhite(Run(START, Render(pre, "")).0, space); }
  }

  lemma {:induction false} TwinFed(before: string, s: string, rest: string)
    requires !Run(START, before).0.state.InString? && IsSymbol(s) && (8 as char) !in s && rest != "" && Stops(rest[0])
    ensures Run(START, before + (s + [8 as char] + rest)).1 == Run(START, before + (s + rest)).1
  {
    hide Run;
    BackspaceHere(Run(START, before).0, s, rest);
    RunPlus(START, before, s + [8 as char] + rest);
    RunPlus(START, before, s + rest);
  }

  /** Every printed file with a symbol has a twin that is fed to the digest alike,
      with a backspace at the end of the symbol. */
  lemma {:induction false} BackspaceTwin(pre: seq<Piece>, p: Piece, post: seq<Piece>, tail: string)
    requires p.tok.Id? && AllSpace(p.space) && GoodTok(p.tok) && NoBackspace(p.tok) && NoBackspaces(Toks(pre))
    requires Printable(post, tail) && Parted(p.tok, Render(post, tail)) && Printable(pre, Render([p] + post, tail))
    ensures Printable([Twin(p)] + post, tail) && Printable(pre, Render([Twin(p)] + post, tail))
    ensures Run(START, Render(pre, Render([Twin(p)] + post, tail))).1 ==
            Run(START, Render(pre, Render([p] + post, tail))).1
  {
    var q, s, rest := Twin(p), p.tok.text, Render(post, tail);
    TwinPrints(pre, p, post, tail);
    BeforePiece(pre, p.space, Render([p] + post, tail));
    TwinFed(Render(pre, "") + p.space, s, rest);
    hide Run, Printable, Toks, AllSpace, Render, NoBackspaces;
    OneRendered(p, post, tail);
    OneRendered(q, post, tail);
    TailMoved(pre, Render([p] + post, tail));
    TailMoved(pre, Render([q] + post, tail));
    MoveOver(Render(pre, ""), p.space, s, rest);
    MoveOver(Render(pre, ""), p.space, s + [8 as char], rest);
  }

  lemma {:induction false} OneRendered(p: Piece, post: seq<Piece>, tail: string)
    ensures Render([p] + post, tail) == p.space + Text(p.tok) + Render(post, tail)
  {
    assert ([p] + post)[1..] == post;
  }

  lemma {:induction false} MoveOver(a: string, space: string, s: string, rest: string)
    ensures a + (space + s + rest) == a + space + (s + rest)
  {
  }
}
