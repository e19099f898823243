/** The lexer of RCS files, which works on the whole file in memory. */
module RcsLex {
  import opened Lines

  datatype Tok = Semi | Colon | Id(text: string) | Str(text: string)

  predicate IsSpace(c: char) {
    c in {' ', '\t', '\n', '\r', 11 as char, 12 as char}
  }

  /** What ends a plain symbol. */
  predicate Stops(c: char) { c == '@' || c == ';' || c == ':' || IsSpace(c) }

  /** The first position from `i` on that is not white space. */
  function SkipSpace(d: string, i: nat): (n: nat)
    requires i <= |d|
    ensures i <= n <= |d| && (n < |d| ==> !IsSpace(d[n])) && forall k :: i <= k < n ==> IsSpace(d[k])
    decreases |d| - i
  {
    if i < |d| && IsSpace(d[i]) then SkipSpace(d, i + 1) else i
  }

  /** The end of the symbol that begins at `i`. */
  function IdEnd(d: string, i: nat): (n: nat)
    requires i <= |d|
    ensures i <= n <= |d| && (n < |d| ==> Stops(d[n])) && forall k :: i <= k < n ==> !Stops(d[k])
    decreases |d| - i
  {
    if i < |d| && !Stops(d[i]) then IdEnd(d, i + 1) else i
  }

  /** The first `c` from `i` on, before the end `n`. */
  function Find(d: string, i: nat, n: nat, c: char): (r: Option<nat>)
    requires n <= |d|
    ensures r.Some? ==> i <= r.value < n && d[r.value] == c && forall k :: i <= k < r.value ==> d[k] != c
    ensures r.None? ==> forall k :: i <= k < n ==> d[k] != c
    decreases n - i
  {
    if i >= n then None else if d[i] == c then Some(i) else Find(d, i + 1, n, c)
  }

  /** Where the string that is open at `i` ends: the first quote that is not
      doubled.  The last byte of the file is never taken for a quote. */
  function StrEnd(d: string, i: nat): (r: Option<nat>)
    requires d != ""
    ensures r.Some? ==> i <= r.value < |d| - 1 && d[r.value] == '@'
    decreases |d| - i
  {
    if i > |d| - 1 then None
    else
      match Find(d, i, |d| - 1, '@')
      case None => None
      case Some(sep) => if d[sep + 1] != '@' then Some(sep) else StrEnd(d, sep + 2)
  }

  datatype Lexed = Got(tok: Tok, end: nat) | Eof | BadString

  /** The token at an offset.  A last byte on its own counts as the end. */
  function LexAt(d: string, o: nat): (r: Lexed)
    requires o <= |d|
    ensures r.Got? ==> o < r.end <= |d|
  {
    var i := SkipSpace(d, o);
    if i >= |d| - 1 then Eof
    else if d[i] == '@' then
      match StrEnd(d, i + 1)
      case None => BadString
      case Some(sep) => Got(Str(d[i + 1..sep]), sep + 1)
    else if d[i] == ';' then Got(Semi, i + 1)
    else if d[i] == ':' then Got(Colon, i + 1)
    else Got(Id(d[i..IdEnd(d, i)]), IdEnd(d, i))
  }

  /** All tokens from an offset on, and whether they end at the end of the file. */
  function Tokens(d: string, o: nat): (seq<Tok>, bool)
    requires o <= |d|
    decreases |d| - o
  {
    match LexAt(d, o)
    case Eof => ([], true)
    case BadString => ([], false)
    case Got(tok, end) => var (ts, clean) := Tokens(d, end); ([tok] + ts, clean)
  }

  /** Length of a token's text in the file, as `unget` counts it. */
  function TokLen(t: Tok): nat {
    match t
    case Semi => 1
    case Colon => 1
    case Id(s) => |s|
    case Str(s) => |s|
  }

  /** Going back the length of a symbol brings it back. */
  lemma {:induction false} UngetId(d: string, o: nat)
    requires o <= |d| && LexAt(d, o).Got? && !LexAt(d, o).tok.Str?
    ensures var r := LexAt(d, o);
            r.end - TokLen(r.tok) >= o && LexAt(d, r.end - TokLen(r.tok)) == r
  {
    var i := SkipSpace(d, o);
    assert SkipSpace(d, i) == i;
  }

  // ------------------------------------------------------------- the lexer's code

  class Lexer {
    const data: string
    var offset: nat
    var eof: bool
    var tok: Tok

    ghost predicate Valid()
      reads this
    {
      offset <= |data| && (eof ==> LexAt(data, offset) == Eof)
    }

    /** The tokens still to come, and whether they end with the file. */
    ghost function Ahead(): (seq<Tok>, bool)
      reads this
      requires Valid()
    {
      Tokens(data, offset)
    }

    /** The token read last can be put back. */
    ghost predicate CanUnget()
      reads this
    {
      !eof && TokLen(tok) <= offset <= |data| && LexAt(data, offset - TokLen(tok)) == Got(tok, offset)
    }

    constructor (data: string)
      ensures Valid() && this.data == data && offset == 0 && !eof
    {
      this.data := data;
      offset, eof, tok := 0, false, Semi;
    }

    /** The end of a string whose contents begin at `from`. */
    method EndOfString(from: nat) returns (sep: int)
      requires data != "" && from <= |data|
      ensures StrEnd(data, from) == if sep < 0 then None else Some(sep)
    {
      var cp := from;
      while cp <= |data| - 1
        invariant cp <= |data| + 1 && StrEnd(data, from) == StrEnd(data, cp)
        decreases |data| + 1 - cp
      {
        var at := MemChr(cp, |data| - 1, '@');
        if at < 0 {
          return -1;
        }
        if data[at + 1] != '@' {
          return at;
        }
        cp := at + 2;
      }
      return -1;
    }

    method MemChr(from: nat, to: nat, c: char) returns (at: int)
      requires to <= |data|
      ensures Find(data, from, to, c) == if at < 0 then None else Some(at)
    {
      at := from;
      while at < to
        invariant from <= at && Find(data, from, to, c) == Find(data, at, to, c)
      {
        if data[at] == c {
          return;
        }
        at := at + 1;
      }
      at := -1;
    }

    method SkipWhite() returns (cp: nat)
      requires offset <= |data|
      ensures cp == SkipSpace(data, offset)
    {
      cp := offset;
      while cp <= |data| - 1 && IsSpace(data[cp])
        invariant offset <= cp <= |data| && SkipSpace(data, offset) == SkipSpace(data, cp)
      {
        cp := cp + 1;
      }
    }

    method SymbolEnd(start: nat) returns (cp: nat)
      requires start <= |data|
      ensures cp == IdEnd(data, start)
    {
      cp := start;
      while cp <= |data| - 1 && !Stops(data[cp])
        invariant start <= cp <= |data| && IdEnd(data, start) == IdEnd(data, cp)
      {
        cp := cp + 1;
      }
    }

    method Lex() returns (t: Option<Tok>)
      requires offset <= |data| && !eof
      modifies this
      ensures match LexAt(data, old(offset))
              case Got(tok0, end) => t == Some(tok0) && tok == tok0 && offset == end && !eof
              case Eof => t == None && offset == old(offset) && eof
              case BadString => t == None && offset == old(offset) && !eof
    {
      var cp := SkipWhite();
      if cp >= |data| - 1 {
        eof := true;
        return None;
      }
      hide SkipSpace, StrEnd, IdEnd;
      if data[cp] == '@' {
        var sep := EndOfString(cp + 1);
        if sep < 0 {
          return None;
        }
        tok, offset := Str(data[cp + 1..sep]), sep + 1;
      } else if data[cp] == ';' {
        tok, offset := Semi, cp + 1;
      } else if data[cp] == ':' {
        tok, offset := Colon, cp + 1;
      } else {
        var end := SymbolEnd(cp);
        tok, offset := Id(data[cp..end]), end;
      }
      t := Some(tok);
    }

    /** The next token, or none at the end of the file or in a string that does
        not end; only the end of the file is marked. */
    method Get() returns (t: Option<Tok>)
      requires Valid()
      modifies this
      ensures Valid()
      ensures var (ts, clean) := old(Ahead());
              if ts == [] then t == None && Ahead() == ([], clean) && eof == clean
              else
                t == Some(ts[0]) && tok == ts[0] && Ahead() == (ts[1..], clean) && !eof && TokLen(tok) <= offset &&
                (!tok.Str? ==> CanUnget())
    {
      if eof {
        return None;
      }
      if LexAt(data, offset).Got? && !LexAt(data, offset).tok.Str? { UngetId(data, offset); }
      hide LexAt;
      t := Lex();
    }

    /** Goes back the length of the token read last, which puts back a symbol or a
        sign, but not a string. */
    method Unget()
      requires Valid() && !eof && TokLen(tok) <= offset
      modifies this`offset
      ensures Valid() && !eof && offset == old(offset) - TokLen(tok)
      ensures old(CanUnget()) ==> Ahead() == ([tok] + old(Ahead()).0, old(Ahead()).1)
    {
      hide LexAt;
      offset := offset - TokLen(tok);
    }
  }

  // ---------------------------------------------------- printed tokens lex back

  /** A string as it is kept: every quote doubled. */
  predicate Doubled(s: string) {
    s == "" || (if s[0] == '@' then |s| > 1 && s[1] == '@' && Doubled(s[2..]) else Doubled(s[1..]))
  }

  /** What `rcsdelta_writestring` stores of a text. */
  function Double(s: string): (r: string)
    ensures Doubled(r)
  {
    if s == "" then "" else if s[0] == '@' then DoubleStep("@@", Double(s[1..])) else DoubleStep([s[0]], Double(s[1..]))
  }

  function DoubleStep(c: string, rest: string): (r: string)
    requires Doubled(rest) && (c == "@@" || (|c| == 1 && c[0] != '@'))
    ensures Doubled(r) && r == c + rest
  {
    assert (c + rest)[|c|..] == rest;
    c + rest
  }

  lemma {:induction false} DoubledPlus(a: string, b: string)
    requires Doubled(a) && Doubled(b)
    ensures Doubled(a + b)
  {
    if a == "" {
      assert a + b == b;
    } else if a[0] == '@' {
      assert (a + b)[2..] == a[2..] + b;
      DoubledPlus(a[2..], b);
    } else {
      assert (a + b)[1..] == a[1..] + b;
      DoubledPlus(a[1..], b);
    }
  }

  /** What reading a stored string turns doubled quotes back into. */
  function Undouble(s: string): string {
    if s == "" then "" else if s[0] == '@' && |s| > 1 then [s[0]] + Undouble(s[2..]) else [s[0]] + Undouble(s[1..])
  }

  lemma {:induction false} UndoubleDouble(s: string)
    ensures Undouble(Double(s)) == s
  {
    if s != "" {
      UndoubleDouble(s[1..]);
      var rest := Double(s[1..]);
      if s[0] == '@' {
        assert ("@@" + rest)[2..] == rest;
      } else {
        assert ([s[0]] + rest)[1..] == rest;
      }
    }
  }

  lemma {:induction false} FindFirst(d: string, i: nat, n: nat, c: char, at: nat)
    requires n <= |d| && i <= at < n && d[at] == c && forall k :: i <= k < at ==> d[k] != c
    ensures Find(d, i, n, c) == Some(at)
    decreases at - i
  {
    if i < at {
      FindFirst(d, i + 1, n, c, at);
    }
  }

  /** The file from an offset on, in two parts. */
  lemma {:induction false} Behind(d: string, o: nat, a: string, b: string)
    requires o <= |d| && d[o..] == a + b
    ensures o + |a| <= |d| && d[o..o + |a|] == a && d[o + |a|..] == b && |d| == o + |a| + |b|
    ensures a != "" ==> d[o] == a[0]
    ensures b != "" ==> d[o + |a|] == b[0]
  {
    var t := d[o..];
    assert t[..|a|] == a && t[|a|..] == b;
    assert d[o..o + |a|] == t[..|a|] && d[o + |a|..] == t[|a|..];
    assert a != "" ==> d[o] == t[0];
    assert b != "" ==> d[o + |a|] == t[|a|];
  }

  /** The first quote of a stored string is the first of a pair. */
  lemma {:induction false} FirstQuote(s: string) returns (at: nat)
    requires Doubled(s)
    ensures at <= |s| && forall k :: 0 <= k < at ==> s[k] != '@'
    ensures at < |s| ==> at + 2 <= |s| && s[at] == '@' && s[at + 1] == '@' && Doubled(s[at + 2..])
  {
    if s == "" || s[0] == '@' {
      at := 0;
    } else {
      var a := FirstQuote(s[1..]);
      at := a + 1;
      if at < |s| { assert s[1..][a + 2..] == s[at + 2..]; }
    }
  }

  lemma {:induction false} StringAt(d: string, i: nat, s: string)
    requires Doubled(s) && i + |s| < |d| - 1 && d[i + |s|] == '@' && d[i + |s| + 1] != '@'
    requires forall k :: 0 <= k < |s| ==> d[i + k] == s[k]
    ensures StrEnd(d, i) == Some(i + |s|)
    decreases |s|
  {
    var at := FirstQuote(s);
    assert forall k :: i <= k < i + at ==> d[k] == s[k - i];
    FindFirst(d, i, |d| - 1, '@', i + at);
    if at < |s| {
      assert d[i + at + 1] == s[at + 1];
      StringAt(d, i + at + 2, s[at + 2..]);
    }
    hide Find, Doubled;
  }

  /** A stored string lexes back to exactly itself, whatever comes behind its quote,
      as long as something does that is not a quote. */
  lemma {:induction false} StringEnds(d: string, i: nat, s: string, rest: string)
    requires Doubled(s) && rest != "" && rest[0] != '@' && i <= |d| && d[i..] == s + ("@" + rest)
    ensures StrEnd(d, i) == Some(i + |s|)
  {
    Behind(d, i, s, "@" + rest);
    Behind(d, i + |s|, "@", rest);
    assert forall k :: 0 <= k < |s| ==> d[i + k] == d[i..i + |s|][k] == s[k];
    hide StrEnd, Doubled;
    StringAt(d, i, s);
  }

  predicate AllSpace(s: string) {
    forall i :: 0 <= i < |s| ==> IsSpace(s[i])
  }

  predicate IsSymbol(s: string) {
    s != "" && forall i :: 0 <= i < |s| ==> !Stops(s[i])
  }

  /** A token with the white space before it. */
  datatype Piece = Piece(space: string, tok: Tok)

  function Text(t: Tok): string {
    match t
    case Semi => ";"
    case Colon => ":"
    case Id(s) => s
    case Str(s) => "@" + s + "@"
  }

  predicate GoodTok(t: Tok) {
    match t
    case Id(s) => IsSymbol(s)
    case Str(s) => Doubled(s)
    case _ => true
  }

  /** What may come behind a token's text. */
  predicate Parted(t: Tok, rest: string) {
    rest != "" && (t.Id? ==> Stops(rest[0])) && (t.Str? ==> rest[0] != '@')
  }

  lemma {:induction false} SkipTo(d: string, o: nat, space: string, rest: string)
    requires o <= |d| && AllSpace(space) && d[o..] == space + rest && (rest != "" ==> !IsSpace(rest[0]))
    ensures SkipSpace(d, o) == o + |space|
    decreases |space|
  {
    if space == "" {
      if rest != "" { assert d[o] == d[o..][0] == rest[0]; }
    } else {
      assert d[o] == d[o..][0] == space[0];
      assert d[o + 1..] == d[o..][1..] == space[1..] + rest;
      SkipTo(d, o + 1, space[1..], rest);
    }
  }

  lemma {:induction false} SymbolEnds(d: string, i: nat, s: string, rest: string)
    requires i <= |d| && d[i..] == s + rest && rest != "" && Stops(rest[0])
    requires forall k :: 0 <= k < |s| ==> !Stops(s[k])
    ensures IdEnd(d, i) == i + |s|
    decreases |s|
  {
    if s == "" {
      assert d[i] == d[i..][0] == rest[0];
    } else {
      assert d[i] == d[i..][0] == s[0];
      assert d[i + 1..] == d[i..][1..] == s[1..] + rest;
      SymbolEnds(d, i + 1, s[1..], rest);
    }
  }

  lemma {:induction false} LexSymbol(d: string, o: nat, i: nat, s: string, rest: string)
    requires o <= |d| && i == SkipSpace(d, o) && d[i..] == s + rest && IsSymbol(s) && rest != "" && Stops(rest[0])
    ensures LexAt(d, o) == Got(Id(s), i + |s|)
  {
    Behind(d, i, s, rest);
    SymbolEnds(d, i, s, rest);
    assert !Stops(d[i]);
  }

  lemma {:induction false} LexString(d: string, o: nat, i: nat, s: string, rest: string)
    requires o <= |d| && i == SkipSpace(d, o) && d[i..] == "@" + s + "@" + rest
    requires Doubled(s) && rest != "" && rest[0] != '@'
    ensures LexAt(d, o) == Got(Str(s), i + |s| + 2)
  {
    hide StrEnd, Doubled, SkipSpace;
    assert "@" + s + "@" + rest == "@" + (s + ("@" + rest));
    Behind(d, i, "@", s + ("@" + rest));
    Behind(d, i + 1, s, "@" + rest);
    StringEnds(d, i + 1, s, rest);
    LexQuoted(d, o, i, i + 1 + |s|);
  }

  lemma {:induction false} LexQuoted(d: string, o: nat, i: nat, sep: nat)
    requires o <= |d| && i == SkipSpace(d, o) && i < |d| - 1 && d[i] == '@' && StrEnd(d, i + 1) == Some(sep)
    ensures LexAt(d, o) == Got(Str(d[i + 1..sep]), sep + 1)
  {
    hide StrEnd, SkipSpace;
  }

  lemma {:induction false} LexSign(d: string, o: nat, i: nat, t: Tok, rest: string)
    requires o <= |d| && i == SkipSpace(d, o) && (t.Semi? || t.Colon?) && d[i..] == Text(t) + rest && rest != ""
    ensures LexAt(d, o) == Got(t, i + 1)
  {
    Behind(d, i, Text(t), rest);
  }

  /** One printed token is read back. */
  lemma {:induction false} LexPiece(d: string, o: nat, p: Piece, rest: string)
    requires o <= |d| && d[o..] == p.space + Text(p.tok) + rest
    requires AllSpace(p.space) && GoodTok(p.tok) && Parted(p.tok, rest)
    ensures |rest| <= |d| && LexAt(d, o) == Got(p.tok, |d| - |rest|) && d[|d| - |rest|..] == rest
  {
    var i, text := o + |p.space|, Text(p.tok);
    assert p.space + text + rest == p.space + (text + rest);
    Behind(d, o, p.space, text + rest);
    Behind(d, i, text, rest);
    FirstChar(p.tok);
    SkipTo(d, o, p.space, text + rest);
    hide SkipSpace, LexAt, Doubled, IsSymbol;
    match p.tok
    case Id(s) => LexSymbol(d, o, i, s, rest);
    case Str(s) => LexString(d, o, i, s, rest);
    case _ => LexSign(d, o, i, p.tok, rest);
  }

  lemma {:induction false} FirstChar(t: Tok)
    requires GoodTok(t)
    ensures Text(t) != "" && !IsSpace(Text(t)[0])
  {
  }

  function Render(ps: seq<Piece>, tail: string): string {
    if ps == [] then tail else ps[0].space + Text(ps[0].tok) + Render(ps[1..], tail)
  }

  /** Every piece can be told from what follows it. */
  predicate Printable(ps: seq<Piece>, tail: string) {
    ps == [] ||
    (AllSpace(ps[0].space) && GoodTok(ps[0].tok) && Parted(ps[0].tok, Render(ps[1..], tail)) &&
        Printable(ps[1..], tail))
  }

  function Toks(ps: seq<Piece>): seq<Tok> {
    if ps == [] then [] else [ps[0].tok] + Toks(ps[1..])
  }

  lemma {:induction false} PrintableFirst(ps: seq<Piece>, tail: string)
    requires Printable(ps, tail) && ps != []
    ensures var p, rest := ps[0], Render(ps[1..], tail);
            && Render(ps, tail) == p.space + Text(p.tok) + rest && Toks(ps) == [p.tok] + Toks(ps[1..])
            && AllSpace(p.space) && GoodTok(p.tok) && Parted(p.tok, rest) && Printable(ps[1..], tail)
  {
  }

  lemma {:induction false} TokensStep(d: string, o: nat, tok: Tok, end: nat)
    requires o <= |d| && LexAt(d, o) == Got(tok, end)
    ensures end <= |d| && Tokens(d, o) == ([tok] + Tokens(d, end).0, Tokens(d, end).1)
  {
    hide LexAt;
  }

  lemma {:induction false} TokensEnd(d: string, o: nat)
    requires o <= |d| && AllSpace(d[o..])
    ensures Tokens(d, o) == ([], true)
  {
    assert d[o..] + "" == d[o..];
    SkipTo(d, o, d[o..], "");
  }

  /** Printed tokens are read back, one by one, up to the end of the file. */
  lemma {:induction false} TokensOfPrinted(d: string, o: nat, ps: seq<Piece>, tail: string)
    requires o <= |d| && d[o..] == Render(ps, tail) && Printable(ps, tail) && AllSpace(tail)
    ensures Tokens(d, o) == (Toks(ps), true)
    decreases |ps|
  {
    if ps == [] {
      TokensEnd(d, o);
    } else {
      PrintableFirst(ps, tail);
      hide LexAt, Render, GoodTok, Parted, AllSpace, Printable, Toks, Tokens, Text;
      var p, rest := ps[0], Render(ps[1..], tail);
      LexPiece(d, o, p, rest);
      var end := |d| - |rest|;
      TokensStep(d, o, p.tok, end);
      TokensOfPrinted(d, end, ps[1..], tail);
    }
  }

  // ------------------------------------------------------------- byte by byte

  /** The six bytes of white space. */
  predicate Gap(w: string) {
    forall i :: 0 <= i < |w| ==> w[i] in {' ', '\t', '\n', '\r', 11 as char, 12 as char}
  }

  /** Bytes that end a symbol. */
  predicate Breaks(c: char) {
    c in {' ', '\t', '\n', '\r', 11 as char, 12 as char, '@', ';', ':'}
  }

  /** A symbol is what stands between white space, quotes, semicolons and colons. */
  lemma {:induction false} SymbolBytes(d: string, o: nat, w: string, s: string, rest: string)
    requires o <= |d| && d[o..] == w + s + rest && Gap(w) && rest != "" && Breaks(rest[0])
    requires s != "" && forall i :: 0 <= i < |s| ==> !Breaks(s[i])
    ensures LexAt(d, o) == Got(Id(s), o + |w| + |s|)
  {
    hide LexAt;
    LexPiece(d, o, Piece(w, Id(s)), rest);
  }

  /** A string is what stands between quotes; two quotes in it are part of it. */
  lemma {:induction false} StringBytes(d: string, o: nat, w: string, a: string, b: string, rest: string)
    requires o <= |d| && Gap(w) && '@' !in a && '@' !in b && rest != "" && rest[0] != '@'
    ensures d[o..] == w + ("@" + a + "@") + rest ==> LexAt(d, o) == Got(Str(a), o + |w| + |a| + 2)
    ensures d[o..] == w + ("@" + (a + "@@" + b) + "@") + rest ==>
              LexAt(d, o) == Got(Str(a + "@@" + b), o + |w| + |a| + |b| + 4)
  {
    assert a + "" == a && "@@" + b == ("@@" + b);
    PlainDoubled(a, "");
    PlainDoubled(b, "");
    assert b + "" == b && ("@@" + b)[2..] == b;
    PlainDoubled(a, "@@" + b);
    assert a + ("@@" + b) == a + "@@" + b;
    hide LexAt, Doubled;
    if d[o..] == w + ("@" + a + "@") + rest { LexPiece(d, o, Piece(w, Str(a)), rest); }
    if d[o..] == w + ("@" + (a + "@@" + b) + "@") + rest { LexPiece(d, o, Piece(w, Str(a + "@@" + b)), rest); }
  }

  lemma {:induction false} PlainDoubled(a: string, more: string)
    requires '@' !in a && Doubled(more)
    ensures Doubled(a + more)
  {
    if a == "" {
      assert a + more == more;
    } else {
      assert a[0] in a && (a + more)[1..] == a[1..] + more;
      PlainDoubled(a[1..], more);
    }
  }

  /** Signs stand for themselves. */
  lemma {:induction false} SignBytes(d: string, o: nat, w: string, rest: string)
    requires o <= |d| && Gap(w) && rest != ""
    ensures d[o..] == w + ";" + rest ==> LexAt(d, o) == Got(Semi, o + |w| + 1)
    ensures d[o..] == w + ":" + rest ==> LexAt(d, o) == Got(Colon, o + |w| + 1)
  {
    hide LexAt;
    if d[o..] == w + ";" + rest { LexPiece(d, o, Piece(w, Semi), rest); }
    if d[o..] == w + ":" + rest { LexPiece(d, o, Piece(w, Colon), rest); }
  }
}
