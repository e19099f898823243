/** The diff engine on byte strings, and the server's quoted form of a script. */
module DiffBytes {
  import opened Lines
  import opened CNumbers
  import opened EditScript
  import opened EditScriptProofs
  import opened Reverse

  // -------------------------------------------------------------------- bytes

  lemma SliceIsText(ls: seq<Line>, from: nat, to: nat)
    requires IsText(ls) && from <= to <= |ls|
    ensures IsText(ls[from..to])
    ensures to < |ls| ==> forall i :: 0 <= i < to - from ==> Ended(ls[from..to][i])
  {
  }

  lemma JoinTexts(a: seq<Line>, b: seq<Line>)
    requires IsText(a) && IsText(b)
    requires b == [] || forall i :: 0 <= i < |a| ==> Ended(a[i])
    ensures IsText(a + b)
  {
  }

  lemma HunkLinesText(at: int, del: int, ins: seq<Line>)
    requires IsText(ins)
    ensures IsText(HunkLines(at, del, ins))
    ensures (forall i :: 0 <= i < |ins| ==> Ended(ins[i])) ==>
              forall i :: 0 <= i < |HunkLines(at, del, ins)| ==> Ended(HunkLines(at, del, ins)[i])
  {
    hide HeaderLine, IsLine, Ended, IsText;
    HeaderChars('d', at + 1, del);
    HeaderChars('a', at + del, |ins|);
    PrintNothing([], 0);
    var a := if ins != [] then [HeaderLine('a', at + del, |ins|)] + ins else [];
    if ins != [] {
      HeaderFirst(HeaderLine('a', at + del, |ins|), ins);
    }
    if del > 0 {
      HeaderFirst(HeaderLine('d', at + 1, del), a);
      assert [HeaderLine('d', at + 1, del)] + a == HunkLines(at, del, ins);
    } else {
      assert a == HunkLines(at, del, ins);
    }
  }

  lemma {:induction false} HeaderFirst(l: Line, rest: seq<Line>)
    requires IsLine(l) && Ended(l) && IsText(rest)
    ensures IsText([l] + rest)
    ensures (forall i :: 0 <= i < |rest| ==> Ended(rest[i])) ==>
            forall i :: 0 <= i < |[l] + rest| ==> Ended(([l] + rest)[i])
  {
    hide IsLine, Ended;
    var ls := [l] + rest;
    forall i | 0 <= i < |ls| - 1 ensures Ended(ls[i]) {
      if i > 0 { assert ls[i] == rest[i - 1]; }
    }
  }

  lemma {:induction false} PrintJoin(h: Hunk, rest: seq<Hunk>, orig: seq<Line>, off: int, off1: int)
    requires Fit([h] + rest, |orig|) && Fit(rest, |orig|) && off1 == off + h.del - |h.ins|
    requires 0 <= h.at <= h.at + h.del <= |orig|
    ensures Print(HunksCmds(Undo([h] + rest, orig, off)))
         == HunkLines(h.at - off, |h.ins|, orig[h.at..h.at + h.del]) + Print(HunksCmds(Undo(rest, orig, off1)))
  {
    hide HunkLines, Print, HunkCmds, Fit;
    UndoStep(h, rest, orig, off);
    var u, us := Hunk(h.at - off, |h.ins|, orig[h.at..h.at + h.del]), Undo(rest, orig, off1);
    assert ([u] + us)[1..] == us;
    PrintHunkCmds(u, HunksCmds(us));
  }

  lemma {:induction false} TextJoin(h: Hunk, rest: seq<Hunk>, orig: seq<Line>, off: int, off1: int)
    requires Chain([h] + rest) && Fit([h] + rest, |orig|) && Fit(rest, |orig|) && off1 == off + h.del - |h.ins|
    requires IsText(orig) && 0 <= h.at <= h.at + h.del <= |orig|
    requires rest != [] ==> h.at + h.del < |orig|
    requires IsText(Print(HunksCmds(Undo(rest, orig, off1))))
    ensures IsText(Print(HunksCmds(Undo([h] + rest, orig, off))))
  {
    hide HunksCmds, HunkLines, Print, Undo, IsText, Ended, Fit, Chain;
    var text := orig[h.at..h.at + h.del];
    PrintJoin(h, rest, orig, off, off1);
    SliceIsText(orig, h.at, h.at + h.del);
    HunkLinesText(h.at - off, |h.ins|, text);
    if rest == [] {
      PrintNothing(orig, off1);
    }
    JoinTexts(HunkLines(h.at - off, |h.ins|, text), Print(HunksCmds(Undo(rest, orig, off1))));
  }

  lemma {:induction false} FirstOfChain(h: Hunk, rest: seq<Hunk>, size: int)
    requires Chain([h] + rest) && Fit([h] + rest, size)
    ensures Chain(rest) && Fit(rest, size) && 0 <= h.at <= h.at + h.del <= size
    ensures rest != [] ==> h.at + h.del < size
  {
    assert ([h] + rest)[1..] == rest;
  }

  /** Only the last line of a reverse script can lack its newline. */
  lemma {:induction false} UndoPrintsText(hs: seq<Hunk>, orig: seq<Line>, off: int)
    requires Chain(hs) && Fit(hs, |orig|) && IsText(orig)
    ensures IsText(Print(HunksCmds(Undo(hs, orig, off))))
  {
    hide HunksCmds, Print, Undo, IsText, Chain, Fit;
    if hs != [] {
      var h, rest := hs[0], hs[1..];
      assert hs == [h] + rest;
      FirstOfChain(h, rest, |orig|);
      UndoPrintsText(rest, orig, off + h.del - |h.ins|);
      TextJoin(h, rest, orig, off, off + h.del - |h.ins|);
    } else {
      PrintNothing(orig, off);
    }
  }

  lemma {:induction false} PrintNothing(orig: seq<Line>, off: int)
    ensures Undo([], orig, off) == [] && Print(HunksCmds([])) == [] && IsText([])
  {
  }

  /** The inversion on byte strings: script, old text and new text are stored as
      bytes and read back as lines in between.  The old text's unterminated last
      line, if any, must not end up before other lines of the new text. */
  lemma {:induction false} ReverseInvertsBytes(script: string, oldText: string)
    requires Reversible(SplitLines(script))
    requires NewText(SplitLines(script), SplitLines(oldText)).Some?
    requires SmallText(SplitLines(oldText)) && SmallText(NewText(SplitLines(script), SplitLines(oldText)).value)
    requires IsText(NewText(SplitLines(script), SplitLines(oldText)).value)
    ensures var rd, orig := SplitLines(script), SplitLines(oldText);
            && Reversed(rd, orig).Some?
            && Apply(SplitLines(Concat(Reversed(rd, orig).value)),
                     SplitLines(Concat(NewText(rd, orig).value)), false)
               == if Separated(ScriptHunks(rd)) then Some(oldText) else None
  {
    hide Reversed, NewText, Reversible, ScriptHunks, Apply, IsText;
    var rd, orig := SplitLines(script), SplitLines(oldText);
    SplitKeepsBytes(oldText);
    ReverseInverts(rd, orig);
    ScriptFacts(rd, orig);
    ReversedIsUndo(rd, orig);
    UndoPrintsText(ScriptHunks(rd), orig, 0);
    SplitConcat(Reversed(rd, orig).value);
    SplitConcat(NewText(rd, orig).value);
  }

  // ------------------------------------------------------------- quoted scripts

  function Quote(l: Line): Line {
    if l != "" && l[0] == '.' then "." + l else l
  }

  function QuoteAll(ls: seq<Line>): seq<Line> {
    seq(|ls|, i requires 0 <= i < |ls| => Quote(ls[i]))
  }

  function QuotedCmd(c: Cmd): seq<Line> {
    [HeaderLine(if c.Add? then 'a' else 'd', c.where, HeaderOf(c).count)] + (if c.Add? then QuoteAll(c.text) else [])
  }

  /** Commands as the server sends them, with text lines dot-quoted, and what comes
      behind them. */
  function QuotedThen(cmds: seq<Cmd>, rest: seq<Line>): seq<Line> {
    if cmds == [] then rest else QuotedCmd(cmds[0]) + QuotedThen(cmds[1..], rest)
  }

  /** A whole script: a dot line last. */
  function Quoted(cmds: seq<Cmd>, end: Line): seq<Line> {
    QuotedThen(cmds, [end])
  }

  lemma {:induction false} QuotedStep(c: Cmd, rest: seq<Line>, g: Guard, blank: bool)
    requires InLong(c.where) && 0 < HeaderOf(c).count <= LONG_MAX
    requires c.Add? ==> "" !in c.text
    ensures ParseScript(QuotedCmd(c) + rest, g, blank, true)
         == if c.where >= 0 && InOrder(HeaderOf(c), g)
            then Cons(c, ParseScript(rest, NextGuard(HeaderOf(c), g), blank, true)) else None
  {
    hide ParseHeader, CString, HeaderLine;
    var h := HeaderOf(c);
    var kind := if c.Add? then 'a' else 'd';
    ParsePrintedHeader(kind, h.where, h.count);
    HeaderChars(kind, h.where, h.count);
    var line := HeaderLine(kind, h.where, h.count);
    assert CString(line)[0] == kind;
    var rd := QuotedCmd(c) + rest;
    assert rd[0] == line;
    if c.Add? {
      assert rd[1..1 + h.count] == QuoteAll(c.text) && rd[1 + h.count..] == rest;
      assert UnquoteAll(QuoteAll(c.text), true) == c.text;
    } else {
      assert rd[1..] == rest;
    }
  }

  /** The commands `cmds` in front of what is read of the rest. */
  function Before(cmds: seq<Cmd>, sc: Option<Script>): Option<Script> {
    match sc
    case None => None
    case Some(s) => Some(s.(cmds := cmds + s.cmds))
  }

  predicate Sendable(cmds: seq<Cmd>) {
    Printable(cmds) && forall i :: 0 <= i < |cmds| && cmds[i].Add? ==> "" !in cmds[i].text
  }

  function GuardAll(cmds: seq<Cmd>, g: Guard): Guard {
    if cmds == [] then g else GuardAll(cmds[1..], NextGuard(HeaderOf(cmds[0]), g))
  }

  lemma {:induction false} ParseThen(cmds: seq<Cmd>, rest: seq<Line>, g: Guard, blank: bool)
    requires Sendable(cmds)
    ensures ParseScript(QuotedThen(cmds, rest), g, blank, true)
         == if Accepts(cmds, g) then Before(cmds, ParseScript(rest, GuardAll(cmds, g), blank, true)) else None
  {
    if cmds == [] {
      BeforeSome([], ParseScript(rest, g, blank, true), Del(0, 0));
    } else {
      SendableRest(cmds);
      hide CString, HeaderLine, ParseScript, Sendable, InOrder, Before, InLong, QuotedCmd, NextGuard, WellFormedCmd;
      var c, more := cmds[0], cmds[1..];
      QuotedStep(c, QuotedThen(more, rest), g, blank);
      ParseThen(more, rest, NextGuard(HeaderOf(c), g), blank);
      assert cmds == [c] + more;
      BeforeSome(more, ParseScript(rest, GuardAll(cmds, g), blank, true), c);
      WellNumbered(c);
    }
  }

  lemma {:induction false} SendableRest(cmds: seq<Cmd>)
    requires cmds != [] && Sendable(cmds)
    ensures Sendable(cmds[1..]) && InLong(cmds[0].where) && 0 < HeaderOf(cmds[0]).count <= LONG_MAX
    ensures cmds[0].Add? ==> "" !in cmds[0].text
  {
  }

  lemma WellNumbered(c: Cmd)
    requires InLong(c.where) && 0 < HeaderOf(c).count <= LONG_MAX
    ensures WellFormedCmd(c) <==> c.where >= 0
  {
  }

  lemma BeforeSome(cmds: seq<Cmd>, sc: Option<Script>, c: Cmd)
    ensures Before([], sc) == sc && Cons(c, Before(cmds, sc)) == Before([c] + cmds, sc) && Cons(c, None) == None
  {
    if sc.Some? {
      assert [] + sc.value.cmds == sc.value.cmds;
      assert [c] + (cmds + sc.value.cmds) == [c] + cmds + sc.value.cmds;
    }
  }

  lemma {:induction false} ParseEnd(end: Line, g: Guard, blank: bool)
    requires CString(end) in {".", ".+"}
    ensures ParseScript([end], g, blank, true) == Some(Script([], if CString(end) == "." then Dot else DotPlus, blank))
  {
    hide CString;
  }

  lemma {:induction false} ParseBlank(empty: Line, rest: seq<Line>, g: Guard, blank: bool)
    requires CString(empty) == ""
    ensures ParseScript([empty] + rest, g, blank, true) == if blank then None else ParseScript(rest, g, true, true)
  {
    hide CString;
    assert ([empty] + rest)[1..] == rest;
  }

  lemma {:induction false} ParseQuoted(cmds: seq<Cmd>, g: Guard, end: Line, blank: bool)
    requires Sendable(cmds) && CString(end) in {".", ".+"}
    ensures ParseScript(Quoted(cmds, end), g, blank, true)
         == if Accepts(cmds, g) then Some(Script(cmds, if CString(end) == "." then Dot else DotPlus, blank)) else None
  {
    ParseThen(cmds, [end], g, blank);
    ParseEnd(end, GuardAll(cmds, g), blank);
    hide CString, ParseScript;
    assert cmds + [] == cmds;
  }

  /** A script sent in quoted form has the effect of the plain one, and the
      ending ".+" drops the last byte. */
  lemma {:induction false} QuotedScript(cmds: seq<Cmd>, end: Line, orig: seq<Line>)
    requires Sendable(cmds) && CString(end) in {".", ".+"}
    ensures var plain := Apply(Print(cmds), orig, false);
            Apply(Quoted(cmds, end), orig, true)
            == if CString(end) == "." || plain.None? then plain
               else if plain.value == "" then None
               else Some(plain.value[..|plain.value| - 1])
  {
    hide ParseScript, CString, Run, Quoted;
    ParseQuoted(cmds, START, end, false);
    ParsePrinted(cmds, START);
  }

  lemma {:induction false} AcceptsBoth(first: seq<Cmd>, more: seq<Cmd>, g: Guard)
    ensures Accepts(first + more, g) <==> Accepts(first, g) && Accepts(more, GuardAll(first, g))
  {
    if first == [] {
      assert first + more == more;
    } else {
      assert (first + more)[1..] == first[1..] + more;
      AcceptsBoth(first[1..], more, NextGuard(HeaderOf(first[0]), g));
    }
  }

  /** With one blank line among the commands, or instead of them, nothing is dropped,
      whatever the ending; with a second one the script is rejected. */
  lemma {:induction false} QuotedBlank(first: seq<Cmd>, empty: Line, more: seq<Cmd>, end: Line, orig: seq<Line>,
                                       empty2: Line)
    requires Sendable(first) && Sendable(more) && CString(end) in {".", ".+"} && CString(empty) == CString(empty2) == ""
    ensures Apply(QuotedThen(first, [empty] + Quoted(more, end)), orig, true) == Apply(Print(first + more), orig, false)
    ensures Apply(QuotedThen(first, [empty] + QuotedThen(more, [empty2] + [end])), orig, true) == None
  {
    hide ParseScript, CString, Run, Quoted, Print, Accepts;
    var g := GuardAll(first, START);
    ParseThen(first, [empty] + Quoted(more, end), START, false);
    ParseBlank(empty, Quoted(more, end), g, false);
    ParseQuoted(more, g, end, true);
    ParsePrinted(first + more, START);
    AcceptsBoth(first, more, START);
    ParseThen(first, [empty] + QuotedThen(more, [empty2] + [end]), START, false);
    ParseBlank(empty, QuotedThen(more, [empty2] + [end]), g, false);
    ParseThen(more, [empty2] + [end], g, true);
    ParseBlank(empty2, [end], GuardAll(more, g), true);
  }
}
