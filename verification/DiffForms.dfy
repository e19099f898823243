/** Edit scripts byte by byte. */
module DiffForms {
  import opened Lines
  import opened CNumbers
  import opened EditScript
  import E = EditScriptProofs
  import B = DiffBytes

  predicate Numeral(s: string) {
    s != "" && forall i :: 0 <= i < |s| ==> '0' <= s[i] <= '9'
  }

  /** The number that decimal digits stand for, behind those that stand for `n`. */
  function Number(s: string, n: nat): nat
    requires forall i :: 0 <= i < |s| ==> '0' <= s[i] <= '9'
  {
    if s == "" then n else Number(s[1..], 10 * n + (s[0] as int - '0' as int))
  }

  lemma {:induction false} NumberMore(s: string, c: char, n: nat)
    requires (forall i :: 0 <= i < |s| ==> '0' <= s[i] <= '9') && '0' <= c <= '9'
    ensures Number(s + [c], n) == 10 * Number(s, n) + (c as int - '0' as int)
  {
    if s == "" {
      assert s + [c] == [c] && [c][1..] == "";
    } else {
      assert (s + [c])[1..] == s[1..] + [c];
      NumberMore(s[1..], c, 10 * n + (s[0] as int - '0' as int));
    }
  }

  lemma {:induction false} ValueIsNumber(s: string)
    requires forall i :: 0 <= i < |s| ==> IsDigit(s[i])
    ensures Value(s) == Number(s, 0)
  {
    if s != "" {
      ValueIsNumber(s[..|s| - 1]);
      NumberMore(s[..|s| - 1], s[|s| - 1], 0);
      assert s == s[..|s| - 1] + [s[|s| - 1]];
    }
  }

  lemma {:induction false} ScansNumeral(s: string, rest: string)
    requires Numeral(s) && (rest == "" || !('0' <= rest[0] <= '9'))
    ensures var n := Number(s, 0); Strtol(s + rest) == Scanned(n, rest, n > LONG_MAX)
  {
    ScanDigits(s, rest);
    ValueIsNumber(s);
    StrtolParts(s + rest, s, rest);
  }

  lemma {:induction false} CStringPlain(s: string)
    requires '\n' !in s && '\0' !in s
    ensures CString(s + "\n") == s
  {
    if s == "" {
      assert s + "\n" == "\n";
    } else {
      assert s[0] in s && (s + "\n")[1..] == s[1..] + "\n";
      CStringPlain(s[1..]);
    }
  }

  lemma {:induction false} Letter(c: char, s: string, t: string)
    requires c == 'a' || c == 'd'
    requires Numeral(s) && Numeral(t) && Number(s, 0) <= LONG_MAX && 0 < Number(t, 0) <= LONG_MAX
    ensures ParseHeader(CString([c] + s + " " + t + "\n")) == Some(Header(c == 'a', Number(s, 0), Number(t, 0)))
  {
    hide Number, Strtol, CString, ParseHeader;
    var line := [c] + s + " " + t;
    NoBreak(c, s, t);
    CStringPlain(line);
    LineParts(c, s, t);
    ScansNumeral(s, " " + t);
    ScansNumeral(t, "");
    HeaderFrom(line, t, Number(s, 0), Number(t, 0));
  }

  lemma LineParts(c: char, s: string, t: string)
    ensures var line := [c] + s + " " + t;
            line != "" && line[0] == c && line[1..] == s + (" " + t) && t + "" == t && (" " + t)[0] == ' '
  {
  }

  lemma HeaderFrom(line: string, t: string, w: nat, n: nat)
    requires line != "" && (line[0] == 'a' || line[0] == 'd') && Strtol(line[1..]) == Scanned(w, " " + t, false)
    requires Strtol(t) == Scanned(n, "", false) && n > 0
    ensures ParseHeader(line) == Some(Header(line[0] == 'a', w, n))
  {
    hide Strtol;
    assert (" " + t)[1..] == t;
  }

  /** A command line is a letter, a line number, one blank and a count. */
  lemma {:induction false} CommandLine(s: string, t: string)
    requires Numeral(s) && Numeral(t) && Number(s, 0) <= LONG_MAX && 0 < Number(t, 0) <= LONG_MAX
    ensures ParseHeader(CString("a" + s + " " + t + "\n")) == Some(Header(true, Number(s, 0), Number(t, 0)))
    ensures ParseHeader(CString("d" + s + " " + t + "\n")) == Some(Header(false, Number(s, 0), Number(t, 0)))
  {
    hide Numeral, Number, ParseHeader, CString;
    Letter('a', s, t);
    Letter('d', s, t);
    assert ['a'] == "a" && ['d'] == "d";
  }

  lemma {:induction false} NoBreak(c: char, s: string, t: string)
    requires Numeral(s) && Numeral(t) && (c == 'a' || c == 'd')
    ensures '\n' !in [c] + s + " " + t && '\0' !in [c] + s + " " + t
  {
  }

  // ------------------------------------------------- exactly which lines are commands

  /** A number as C reads it: white space, perhaps a sign, and digits. */
  datatype Numeric = Numeric(space: string, sign: string, digits: string)

  predicate IsBlank(c: char) { c == ' ' || 9 <= c as int <= 13 }

  predicate GoodNumeric(n: Numeric) {
    (forall i :: 0 <= i < |n.space| ==> IsBlank(n.space[i])) && n.sign in {"", "+", "-"} && Numeral(n.digits)
  }

  function NumericText(n: Numeric): string { n.space + n.sign + n.digits }

  function NumericValue(n: Numeric): int
    requires Numeral(n.digits)
  {
    var v: int := Number(n.digits, 0);
    if n.sign == "-" then -v else v
  }

  lemma {:induction false} SpacesSkipped(w: string, rest: string)
    requires (forall i :: 0 <= i < |w| ==> IsBlank(w[i])) && (rest == "" || !IsBlank(rest[0]))
    ensures SpaceLen(w + rest) == |w|
  {
    if w == "" {
      assert w + rest == rest;
    } else {
      assert (w + rest)[1..] == w[1..] + rest;
      SpacesSkipped(w[1..], rest);
    }
  }

  lemma {:induction false} SpacesFound(s: string)
    ensures var k := SpaceLen(s);
            (forall i :: 0 <= i < k ==> IsBlank(s[i])) && (k == |s| || !IsBlank(s[k]))
  {
    if s != "" && IsSpace(s[0]) {
      SpacesFound(s[1..]);
      assert forall i :: 0 < i < SpaceLen(s) ==> s[i] == s[1..][i - 1];
    }
  }

  /** The number behind the white space. */
  lemma {:induction false} ScansSigned(s: string, n: Numeric, rest: string)
    requires GoodNumeric(n) && (rest == "" || !('0' <= rest[0] <= '9'))
    requires SpaceLen(s) == |n.space| && s[|n.space|..] == n.sign + (n.digits + rest)
    ensures var v := NumericValue(n); Strtol(s) == Scanned(v, rest, v < LONG_MIN || v > LONG_MAX)
  {
    ScanDigits(n.digits, rest);
    ValueIsNumber(n.digits);
    hide DigitLen, Value, Number;
    var t := s[SpaceLen(s)..];
    if n.sign == "" {
      assert t == n.digits + rest;
    } else {
      assert t[0] == n.sign[0] && t[1..] == n.digits + rest;
    }
  }

  lemma {:induction false} ScansNumeric(n: Numeric, rest: string)
    requires GoodNumeric(n) && (rest == "" || !('0' <= rest[0] <= '9'))
    ensures var v := NumericValue(n); Strtol(NumericText(n) + rest) == Scanned(v, rest, v < LONG_MIN || v > LONG_MAX)
  {
    var s, t := NumericText(n) + rest, n.sign + (n.digits + rest);
    assert s == n.space + t;
    assert t[0] == if n.sign == "" then n.digits[0] else n.sign[0];
    SpacesSkipped(n.space, t);
    hide SpaceLen, Strtol, Number;
    ScansSigned(s, n, rest);
  }

  function SignOf(t: string): (sign: string)
    ensures sign in {"", "+", "-"}
  {
    if t != "" && (t[0] == '-' || t[0] == '+') then [t[0]] else ""
  }

  function Unsigned(t: string): string {
    if SignOf(t) == "" then t else t[1..]
  }

  lemma SignApart(t: string)
    ensures t == SignOf(t) + Unsigned(t)
  {
  }

  /** Reading, in parts. */
  lemma {:induction false} ScannedShape(s: string)
    ensures var t := s[SpaceLen(s)..];
            var u := Unsigned(t);
            var k := DigitLen(u);
            if k == 0 then Strtol(s) == Scanned(0, s, false)
            else
              var v: int := Value(u[..k]);
              Strtol(s).rest == u[k..] && Strtol(s).value == if SignOf(t) == "-" then -v else v
  {
    hide Value, DigitLen, SpaceLen;
  }

  /** Where a number is read, one stands. */
  lemma {:induction false} NumericFound(s: string) returns (n: Numeric)
    requires Strtol(s).rest != s
    ensures GoodNumeric(n) && s == NumericText(n) + Strtol(s).rest && NumericValue(n) == Strtol(s).value
  {
    hide SpaceLen, Value, Number, Strtol, SignOf, Unsigned;
    SpacesFound(s);
    ScannedShape(s);
    var i := SpaceLen(s);
    var t := s[i..];
    var u := Unsigned(t);
    var k := DigitLen(u);
    n := Numeric(s[..i], SignOf(t), u[..k]);
    ValueIsNumber(n.digits);
    SignApart(t);
    Apart(s[..i], SignOf(t), u[..k], u[k..]);
    assert u == u[..k] + u[k..] && s == s[..i] + t;
  }

  lemma Apart(w: string, sign: string, digits: string, rest: string)
    ensures w + (sign + (digits + rest)) == w + sign + digits + rest
  {
  }

  /** With no number behind a blank there is none behind what follows it. */
  lemma {:induction false} NoNumber(s: string)
    requires s != "" && s[0] == ' ' && Strtol(s).rest == s
    ensures Strtol(s[1..]).value == 0
  {
    ScannedShape(s);
    ScannedShape(s[1..]);
    assert SpaceLen(s) == 1 + SpaceLen(s[1..]);
    assert s[SpaceLen(s)..] == s[1..][SpaceLen(s[1..])..];
    hide SpaceLen, Value, Strtol, SignOf, DigitLen;
  }

  /** The letter, a number, one blank and a number: the line is the command `h`. */
  ghost predicate Written(s: string, h: Header, a: Numeric, b: Numeric) {
    && GoodNumeric(a) && GoodNumeric(b)
    && s == (if h.add then "a" else "d") + (NumericText(a) + (" " + NumericText(b)))
    && 0 <= h.where == NumericValue(a) <= 0x7fff_ffff_ffff_ffff
    && 0 < h.count == NumericValue(b) <= 0x7fff_ffff_ffff_ffff
  }

  lemma {:induction false} WrittenParsed(s: string, h: Header, a: Numeric, b: Numeric)
    requires Written(s, h, a, b)
    ensures ParseHeader(s) == Some(h)
  {
    hide GoodNumeric, NumericText, NumericValue, Strtol;
    var rest := " " + NumericText(b);
    assert s[1..] == NumericText(a) + rest && rest[1..] == NumericText(b) == NumericText(b) + "";
    ScansNumeric(a, rest);
    ScansNumeric(b, "");
  }

  lemma {:induction false} WrittenFound(s: string, h: Header) returns (a: Numeric, b: Numeric)
    requires ParseHeader(s) == Some(h)
    ensures Written(s, h, a, b)
  {
    hide GoodNumeric, NumericText, NumericValue, Strtol;
    var w := Strtol(s[1..]);
    var c := Strtol(w.rest[1..]);
    if w.rest == s[1..] { NoNumber(s[1..]); }
    a := NumericFound(s[1..]);
    NothingRead(w.rest[1..]);
    b := NumericFound(w.rest[1..]);
    assert s == [s[0]] + s[1..] && w.rest == " " + w.rest[1..];
    assert NumericText(b) + "" == NumericText(b);
  }

  lemma {:induction false} NothingRead(s: string)
    ensures Strtol(s).value != 0 ==> Strtol(s).rest != s
  {
    hide SpaceLen, DigitLen, Value;
  }

  /** A line is a command if and only if it is a letter, a number, one blank and a
      number, as C reads them, that fit their type and are not too small. */
  lemma {:induction false} CommandExactly(s: string, h: Header)
    ensures ParseHeader(s) == Some(h) <==> exists a: Numeric, b: Numeric :: Written(s, h, a, b)
  {
    hide ParseHeader, Written;
    if ParseHeader(s) == Some(h) {
      var a, b := WrittenFound(s, h);
    }
    forall a: Numeric, b: Numeric | Written(s, h, a, b) ensures ParseHeader(s) == Some(h) {
      WrittenParsed(s, h, a, b);
    }
  }

  // ----------------------------------------------------------------- what they do

  /** `d` takes lines out, counting from one; `a` puts lines behind a line; both count
      the lines of the old text. */
  lemma {:induction false} RunForms(a: seq<Line>, b: seq<Line>, c: seq<Line>, t: seq<Line>, more: seq<Cmd>)
    ensures Run([Del(|a| + 1, |b|)], a + b + c, 0) == Some(a + c)
    ensures Run([Add(|a|, t)], a + c, 0) == Some(a + t + c)
    ensures Run(more, a + b + c, |a + b|).Some? ==>
              Run([Del(|a| + 1, |b|)] + more, a + b + c, 0) == Some(a + Run(more, a + b + c, |a + b|).value)
    ensures Run(more, a + c, |a|).Some? ==>
              Run([Add(|a|, t)] + more, a + c, 0) == Some(a + t + Run(more, a + c, |a|).value)
  {
    var full, short := a + b + c, a + c;
    assert full[..|a|] == a && full[|a| + |b|..] == c && short[..|a|] == a && short[|a|..] == c;
    var d, e := Del(|a| + 1, |b|), Add(|a|, t);
    assert [d][1..] == [] && [e][1..] == [] && ([d] + more)[1..] == more && ([e] + more)[1..] == more;
    assert a + [] + c == a + c;
    if Run(more, full, |a + b|).Some? {
      assert a + [] + Run(more, full, |a + b|).value == a + Run(more, full, |a + b|).value;
    }
  }

  /** A text line that begins with a dot is sent with one more, and `.+` takes the last
      byte off. */
  lemma {:induction false} DotLine(l: Line, orig: seq<Line>)
    requires l != ""
    ensures var sent, bytes := if l[0] == '.' then "." + l else l, l + Concat(orig);
            && Apply(["a0 1\n", sent, ".\n"], orig, true) == Some(bytes)
            && Apply(["a0 1\n", sent, ".+\n"], orig, true) == Some(bytes[..|bytes| - 1])
  {
    hide CString, Apply, Concat;
    Endings();
    DotEnd(l, ".\n", orig);
    DotEnd(l, ".+\n", orig);
  }

  lemma Endings()
    ensures CString(".\n") == "." && CString(".+\n") == ".+"
  {
    CStringPlain(".");
    CStringPlain(".+");
    assert "." + "\n" == ".\n" && ".+" + "\n" == ".+\n";
  }

  lemma {:induction false} DotEnd(l: Line, end: Line, orig: seq<Line>)
    requires l != "" && CString(end) in {".", ".+"}
    ensures var bytes := l + Concat(orig);
            Apply(["a0 1\n", if l[0] == '.' then "." + l else l, end], orig, true) ==
            Some(if CString(end) == "." then bytes else bytes[..|bytes| - 1])
  {
    hide CString, B.Quoted, Print, Apply, Concat;
    var cmds := [Add(0, [l])];
    assert B.Sendable(cmds) by { OnePrints(l); assert cmds[0] == Add(0, [l]); }
    hide B.Sendable;
    SentLines(l, end);
    PlainAdd(l, orig);
    B.QuotedScript(cmds, end, orig);
  }

  lemma {:induction false} SentLines(l: Line, end: Line)
    requires l != ""
    ensures B.Quoted([Add(0, [l])], end) == ["a0 1\n", if l[0] == '.' then "." + l else l, end]
  {
    var x := Add(0, [l]);
    assert [x][1..] == [];
    assert Digits(0) == "0" && Digits(1) == "1";
    assert HeaderLine('a', 0, 1) == "a0 1\n";
    assert B.QuotedThen([], [end]) == [end];
    assert B.QuoteAll([l]) == [B.Quote(l)];
  }

  lemma {:induction false} PlainAdd(l: Line, orig: seq<Line>)
    ensures Apply(Print([Add(0, [l])]), orig, false) == Some(l + Concat(orig))
  {
    hide Print, ParseScript, Run, CString, E.Printable, Accepts, Concat;
    var x := Add(0, [l]);
    OnePrints(l);
    E.ParsePrinted([x], START);
    RunForms([], [], orig, [l], []);
    assert [] + orig == orig && [] + [l] + orig == [l] + orig;
    ConcatCons(l, orig);
  }

  lemma OnePrints(l: Line)
    ensures E.Printable([Add(0, [l])]) && Accepts([Add(0, [l])], START)
  {
    var x := Add(0, [l]);
    assert [x][0] == x && [x][1..] == [];
  }

  lemma {:induction false} ConcatCons(l: Line, orig: seq<Line>)
    ensures Concat([l] + orig) == l + Concat(orig)
  {
    assert ([l] + orig)[1..] == orig;
  }
}
