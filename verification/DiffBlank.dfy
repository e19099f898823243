/** Scripts with a blank command line: the applier goes on behind it, the reverser
    stops there. */
module DiffBlank {
  import opened Lines
  import opened CNumbers
  import opened EditScript
  import opened EditScriptProofs
  import opened Reverse

  // ------------------------------------------------------------- running in parts

  /** Where a command that is run at `pos` begins and ends in the old text. */
  function From(c: Cmd, pos: nat): nat {
    Max(pos, if c.Add? then c.where else c.where - 1)
  }

  function To(c: Cmd, pos: nat): nat {
    if c.Add? then From(c, pos) else From(c, pos) + Max(0, c.count)
  }

  function EndPos(cmds: seq<Cmd>, pos: nat): nat
    decreases |cmds|
  {
    if cmds == [] then pos else EndPos(cmds[1..], To(cmds[0], pos))
  }

  /** What is written up to there. */
  function RunHead(cmds: seq<Cmd>, orig: seq<Line>, pos: nat): (out: seq<Line>)
    requires pos <= |orig| && EndPos(cmds, pos) <= |orig|
    decreases |cmds|
  {
    if cmds == [] then []
    else
      EndGrows(cmds[1..], To(cmds[0], pos));
      orig[pos..From(cmds[0], pos)] + (if cmds[0].Add? then cmds[0].text else []) +
      RunHead(cmds[1..], orig, To(cmds[0], pos))
  }

  lemma {:induction false} EndGrows(cmds: seq<Cmd>, pos: nat)
    ensures pos <= EndPos(cmds, pos)
    decreases |cmds|
  {
    if cmds != [] {
      EndGrows(cmds[1..], To(cmds[0], pos));
    }
  }

  lemma {:induction false} RunCons(c: Cmd, rest: seq<Cmd>, orig: seq<Line>, pos: nat)
    requires pos <= |orig|
    ensures Run([c] + rest, orig, pos) ==
            if To(c, pos) > |orig| then None
            else
              match Run(rest, orig, To(c, pos))
              case None => None
              case Some(out) => Some(orig[pos..From(c, pos)] + (if c.Add? then c.text else []) + out)
  {
    assert ([c] + rest)[1..] == rest;
  }

  /** Commands and then more commands. */
  lemma {:induction false} RunPlus(cmds: seq<Cmd>, more: seq<Cmd>, orig: seq<Line>, pos: nat)
    requires pos <= |orig|
    ensures EndPos(cmds, pos) > |orig| ==> Run(cmds + more, orig, pos) == None
    ensures EndPos(cmds, pos) <= |orig| ==>
              Run(cmds + more, orig, pos) ==
              match Run(more, orig, EndPos(cmds, pos))
              case None => None
              case Some(out) => Some(RunHead(cmds, orig, pos) + out)
    decreases |cmds|
  {
    if cmds == [] {
      assert cmds + more == more;
      if Run(more, orig, pos).Some? { assert [] + Run(more, orig, pos).value == Run(more, orig, pos).value; }
    } else {
      var c, rest := cmds[0], cmds[1..];
      assert cmds + more == [c] + (rest + more);
      RunCons(c, rest + more, orig, pos);
      EndGrows(rest, To(c, pos));
      if To(c, pos) <= |orig| {
        RunPlus(rest, more, orig, To(c, pos));
        if EndPos(cmds, pos) <= |orig| && Run(more, orig, EndPos(cmds, pos)).Some? {
          var a := orig[pos..From(c, pos)] + (if c.Add? then c.text else []);
          var b, out := RunHead(rest, orig, To(c, pos)), Run(more, orig, EndPos(cmds, pos)).value;
          assert a + (b + out) == a + b + out;
        }
      }
    }
  }

  lemma {:induction false} RunEnds(cmds: seq<Cmd>, orig: seq<Line>, pos: nat)
    requires pos <= |orig|
    ensures Run(cmds, orig, pos).Some? <==> EndPos(cmds, pos) <= |orig|
    ensures EndPos(cmds, pos) <= |orig| ==>
              Run(cmds, orig, pos) == Some(RunHead(cmds, orig, pos) + orig[EndPos(cmds, pos)..])
  {
    RunPlus(cmds, [], orig, pos);
    assert cmds + [] == cmds;
  }

  /** Only the part that is used matters. */
  lemma {:induction false} HeadShort(cmds: seq<Cmd>, orig: seq<Line>, n: nat, pos: nat)
    requires pos <= n <= |orig| && EndPos(cmds, pos) <= n
    ensures RunHead(cmds, orig[..n], pos) == RunHead(cmds, orig, pos)
    decreases |cmds|
  {
    if cmds != [] {
      EndGrows(cmds[1..], To(cmds[0], pos));
      HeadShort(cmds[1..], orig, n, To(cmds[0], pos));
      assert orig[..n][pos..From(cmds[0], pos)] == orig[pos..From(cmds[0], pos)];
    }
  }

  /** More lines behind what a run uses stay behind its result. */
  lemma {:induction false} RunLonger(cmds: seq<Cmd>, a: seq<Line>, y: seq<Line>, pos: nat)
    requires pos <= |a| && Run(cmds, a, pos).Some?
    ensures Run(cmds, a + y, pos) == Some(Run(cmds, a, pos).value + y)
  {
    RunEnds(cmds, a, pos);
    RunEnds(cmds, a + y, pos);
    var n := EndPos(cmds, pos);
    HeadShort(cmds, a + y, |a|, pos);
    EndGrows(cmds, pos);
    assert (a + y)[..|a|] == a && (a + y)[n..] == a[n..] + y;
    var head := RunHead(cmds, a, pos);
    assert head + (a[n..] + y) == head + a[n..] + y;
  }

  /** A command that begins at or behind `pos`. */
  predicate Reaches(c: Cmd, pos: nat) {
    pos <= if c.Add? then c.where else c.where - 1
  }

  lemma {:induction false} RunFrom(cmds: seq<Cmd>, orig: seq<Line>, n: nat)
    requires n <= |orig| && (cmds != [] ==> Reaches(cmds[0], n))
    ensures Run(cmds, orig, 0) ==
            match Run(cmds, orig, n)
            case None => None
            case Some(out) => Some(orig[..n] + out)
  {
    if cmds == [] {
      assert orig[0..] == orig[..n] + orig[n..];
    } else {
      var c, rest := cmds[0], cmds[1..];
      assert cmds == [c] + rest && From(c, 0) == From(c, n) && To(c, 0) == To(c, n);
      RunCons(c, rest, orig, 0);
      RunCons(c, rest, orig, n);
      hide Run;
      if To(c, n) <= |orig| && Run(rest, orig, To(c, n)).Some? {
        CutJoin(orig, n, From(c, n), if c.Add? then c.text else [], Run(rest, orig, To(c, n)).value);
      }
    }
  }

  lemma {:induction false} CutJoin(orig: seq<Line>, n: nat, to: nat, text: seq<Line>, out: seq<Line>)
    requires n <= to <= |orig|
    ensures orig[0..to] + text + out == orig[..n] + (orig[n..to] + text + out)
  {
    assert orig[0..to] == orig[..n] + orig[n..to];
  }

  /** The next command of a script begins where the ones before it end, or later. */
  lemma {:induction false} NextReaches(cmds: seq<Cmd>, next: Cmd, g: Guard, pos: nat)
    requires Standard(cmds + [next]) && Accepts(cmds + [next], g)
    requires Reaches((cmds + [next])[0], pos)
    ensures Reaches(next, EndPos(cmds, pos))
    decreases |cmds|
  {
    if cmds == [] {
      assert cmds + [next] == [next];
    } else {
      var c, rest := cmds[0], cmds[1..];
      assert (cmds + [next])[1..] == rest + [next];
      var d := (rest + [next])[0];
      assert d == (cmds + [next])[1];
      assert InOrder(HeaderOf(d), NextGuard(HeaderOf(c), g));
      NextReaches(rest, next, NextGuard(HeaderOf(c), g), To(c, pos));
    }
  }

  // ------------------------------------------------------------- reading in parts

  lemma {:induction false} AcceptsPrefix(a: seq<Cmd>, b: seq<Cmd>, g: Guard)
    ensures Accepts(a + b, g) ==> Accepts(a, g)
    ensures Standard(a + b) ==> Standard(a)
    decreases |a|
  {
    if a != [] {
      assert (a + b)[1..] == a[1..] + b;
      AcceptsPrefix(a[1..], b, NextGuard(HeaderOf(a[0]), g));
    }
  }

  lemma {:induction false} FirstNamed(a: seq<Cmd>, b: seq<Cmd>)
    requires a + b != [] && Standard(a + b) && Accepts(a + b, START)
    ensures Reaches((a + b)[0], 0)
  {
  }

  /** The applier accepts commands in order. */
  lemma {:induction false} ParsedAccepts(rd: seq<Line>, g: Guard, blank: bool)
    requires ParseScript(rd, g, blank, false).Some?
    ensures Accepts(ParseScript(rd, g, blank, false).value.cmds, g)
    decreases |rd|
  {
    hide ParseHeader, CString;
    if rd != [] {
      var s := CString(rd[0]);
      if s == "" {
        ParsedAccepts(rd[1..], g, true);
      } else if s != "." && s != ".+" {
        var h := ParseHeader(s).value;
        var n := if h.add then 1 + h.count else 1;
        ParsedAccepts(rd[n..], NextGuard(h, g), blank);
        if h.add {
          assert |UnquoteAll(rd[1..n], false)| == h.count;
        }
      }
    }
  }

  /** How many commands the reverser reads of an accepted script. */
  function Read(rd: seq<Line>, g: Guard): nat {
    match ReadEdits(rd, g)
    case None => 0
    case Some(cmds) => |cmds|
  }

  /** The reverser reads the first of the commands that the applier runs, and all of
      them if there is no blank line. */
  lemma {:induction false} ReadsFirst(rd: seq<Line>, g: Guard)
    requires ParseScript(rd, g, false, false).Some?
    ensures var cmds := ParseScript(rd, g, false, false).value.cmds;
            && ReadEdits(rd, g).Some? && Read(rd, g) <= |cmds| && ReadEdits(rd, g).value == cmds[..Read(rd, g)]
            && (!ParseScript(rd, g, false, false).value.blank ==> Read(rd, g) == |cmds|)
    decreases |rd|
  {
    hide ParseHeader, CString;
    if rd != [] {
      var s := CString(rd[0]);
      if s == "" {
        BlankStays(rd[1..], g);
        NoHeader(s);
      } else if s == "." || s == ".+" {
        NoHeader(s);
      } else {
        var h := ParseHeader(s).value;
        var n := if h.add then 1 + h.count else 1;
        ReadsFirst(rd[n..], NextGuard(h, g));
        ReadStep(rd, g, h, n);
      }
    }
  }

  lemma {:induction false} NoHeader(s: string)
    requires s in {"", ".", ".+"}
    ensures ParseHeader(s) == None
  {
  }

  lemma {:induction false} ReadStep(rd: seq<Line>, g: Guard, h: Header, n: nat)
    requires rd != [] && ParseHeader(CString(rd[0])) == Some(h) && InOrder(h, g) &&
             n == (if h.add then 1 + h.count else 1) <= |rd|
    requires CString(rd[0]) !in {"", ".", ".+"}
    requires ParseScript(rd[n..], NextGuard(h, g), false, false).Some? && ReadEdits(rd[n..], NextGuard(h, g)).Some?
    ensures var c := if h.add then Add(h.where, rd[1..n]) else Del(h.where, h.count);
            var sc := ParseScript(rd[n..], NextGuard(h, g), false, false).value;
            && ParseScript(rd, g, false, false) == Some(Script([c] + sc.cmds, sc.end, sc.blank))
            && ReadEdits(rd, g) == Some([c] + ReadEdits(rd[n..], NextGuard(h, g)).value)
  {
    hide ParseHeader, CString;
    if h.add {
      assert UnquoteAll(rd[1..n], false) == rd[1..n];
    }
  }

  // ------------------------------------------------------- what the reverser writes

  /** The reverser writes the printed undoing hunks of the commands it reads. */
  lemma {:induction false} EmittedIsUndo(cmds: seq<Cmd>, orig: seq<Line>, new_: seq<Line>)
    requires Standard(cmds) && Accepts(cmds, START) && Run(cmds, orig, 0) == Some(new_) && |new_| <= LONG_MAX
    ensures var hs := Hunks(cmds);
            && Chain(hs) && Ascending(hs, 0) && Fit(hs, |orig|) && Patch(hs, orig, 0) == Some(new_)
            && EmitAll(InsertAll([], EditList(cmds, 0, None)), orig, 0) == Print(HunksCmds(Undo(hs, orig, 0)))
  {
    HunksChain(cmds, START);
    var hs := Hunks(cmds);
    assert hs != [] ==> hs[0].at >= 0 by {
      if cmds != [] && cmds[0].Del? { assert cmds[0].where >= 1; }
    }
    hide Standard, Accepts, Hunks, Chain;
    ChainAscends(hs, 0);
    RunHunks(cmds, START, orig, 0);
    PatchFits(hs, orig, 0);
    assert new_[0..] == new_;
    UndoRestores(hs, orig, 0, 0, new_);
    EditListOfHunks(cmds, START, 0);
    var es := HunkEdits(hs, 0);
    HunkEditsSorted(hs, 0, orig, 0, |new_|);
    assert [] + es == es;
    SortIdles([], es);
    EmitHunks(hs, orig, 0, 0);
  }

  lemma {:induction false} UndoShort(hs: seq<Hunk>, orig: seq<Line>, n: nat, off: int)
    requires n <= |orig| && Fit(hs, n) && Fit(hs, |orig|)
    ensures Undo(hs, orig[..n], off) == Undo(hs, orig, off)
  {
    if hs != [] {
      UndoShort(hs[1..], orig, n, off + hs[0].del - |hs[0].ins|);
      assert orig[..n][hs[0].at..hs[0].at + hs[0].del] == orig[hs[0].at..hs[0].at + hs[0].del];
    }
  }

  /** Running what the reverser writes for the first commands of a script on the text
      that all of them make gives the text that the others make alone. */
  lemma {:induction false} UndoFirst(first: seq<Cmd>, more: seq<Cmd>, orig: seq<Line>)
    requires Standard(first + more) && Accepts(first + more, START) && Run(first + more, orig, 0).Some?
    requires SmallText(orig) && SmallText(Run(first + more, orig, 0).value)
    ensures Run(more, orig, 0).Some?
    ensures var script := EmitAll(InsertAll([], EditList(first, 0, None)), orig, 0);
            Apply(script, Run(first + more, orig, 0).value, false) ==
            if Separated(Hunks(first)) then Some(Concat(Run(more, orig, 0).value)) else None
  {
    hide Standard, Accepts, Chain, Separated, Hunks, Undo, Print, HunksCmds, EmitAll, InsertAll, EditList, ParseScript,
         Run;
    AcceptsPrefix(first, more, START);
    RunPlus(first, more, orig, 0);
    RunEnds(first, orig, 0);
    var n := EndPos(first, 0);
    var head, rest := RunHead(first, orig, 0), Run(more, orig, n).value;
    var new_, was := head + rest, orig[..n];
    Seam(first, more, n);
    RunFrom(more, orig, n);
    RunEnds(first, was, 0);
    HeadShort(first, orig, n, 0);
    assert was[n..] == [] && head + [] == head;
    EmittedIsUndo(first, orig, head + orig[n..]) by { LengthsFit(first, more, orig); }
    EmittedIsUndo(first, was, head);
    UndoShort(Hunks(first), orig, n, 0);
    UndoingScript(Hunks(first), was, head);
    var cmds := HunksCmds(Undo(Hunks(first), orig, 0));
    RunLonger(cmds, head, rest, 0);
    ApplyPrinted(Print(cmds), cmds, new_, was + rest, Separated(Hunks(first)));
  }

  lemma {:induction false} ApplyPrinted(script: seq<Line>, cmds: seq<Cmd>, text: seq<Line>, out: seq<Line>, ok: bool)
    requires ParseScript(script, START, false, false) == if ok then Some(Script(cmds, Eof, false)) else None
    requires Run(cmds, text, 0) == Some(out)
    ensures Apply(script, text, false) == if ok then Some(Concat(out)) else None
  {
    hide ParseScript, Run;
  }

  lemma {:induction false} Seam(first: seq<Cmd>, more: seq<Cmd>, n: nat)
    requires Standard(first + more) && Accepts(first + more, START) && n == EndPos(first, 0)
    ensures more != [] ==> Reaches(more[0], n)
  {
    if more != [] {
      assert first + more == (first + [more[0]]) + more[1..];
      AcceptsPrefix(first + [more[0]], more[1..], START);
      FirstNamed(first, [more[0]]);
      NextReaches(first, more[0], START, 0);
    }
  }

  lemma {:induction false} LengthsFit(first: seq<Cmd>, more: seq<Cmd>, orig: seq<Line>)
    requires Run(first + more, orig, 0).Some? && SmallText(orig) && SmallText(Run(first + more, orig, 0).value)
    ensures EndPos(first, 0) <= |orig|
    ensures |RunHead(first, orig, 0) + orig[EndPos(first, 0)..]| <= LONG_MAX
  {
    RunPlus(first, more, orig, 0);
  }

  // ------------------------------------------------------------------ the theorem

  /** An accepted script that numbers lines from one and never adds strictly inside
      the block it has just deleted; it may have a blank command line. */
  predicate Regular(rd: seq<Line>) {
    ParseScript(rd, START, false, false).Some? && Standard(ParseScript(rd, START, false, false).value.cmds)
  }

  /** The commands that the reverser reads, and those behind a blank line. */
  function FirstCmds(rd: seq<Line>): seq<Cmd>
    requires Regular(rd)
  {
    ReadsFirst(rd, START);
    ParseScript(rd, START, false, false).value.cmds[..Read(rd, START)]
  }

  function LaterCmds(rd: seq<Line>): seq<Cmd>
    requires Regular(rd)
  {
    ReadsFirst(rd, START);
    ParseScript(rd, START, false, false).value.cmds[Read(rd, START)..]
  }

  function NewLines(rd: seq<Line>, orig: seq<Line>): Option<seq<Line>>
    requires Regular(rd)
  {
    Run(ParseScript(rd, START, false, false).value.cmds, orig, 0)
  }

  /** What reversing does to a script with a blank command line: applied to the new
      text, the written script gives what the commands behind the blank line alone
      make of the old text.  So it inverts the script exactly when they change
      nothing, in particular when there are none. */
  lemma {:induction false} BlankLineExact(rd: seq<Line>, orig: seq<Line>)
    requires Regular(rd) && NewLines(rd, orig).Some?
    requires SmallText(orig) && SmallText(NewLines(rd, orig).value)
    ensures Reversed(rd, orig).Some? && Run(LaterCmds(rd), orig, 0).Some?
    ensures Apply(Reversed(rd, orig).value, NewLines(rd, orig).value, false) ==
            if Separated(Hunks(FirstCmds(rd))) then Some(Concat(Run(LaterCmds(rd), orig, 0).value)) else None
    ensures LaterCmds(rd) == [] ==> Run(LaterCmds(rd), orig, 0) == Some(orig)
  {
    hide ParseScript, Standard, Accepts, Separated, Hunks, EmitAll, InsertAll, EditList, Apply, ReadEdits, Read,
         UnquoteAll;
    ReadsFirst(rd, START);
    ParsedAccepts(rd, START, false);
    assert ParseScript(rd, START, false, false).value.cmds == FirstCmds(rd) + LaterCmds(rd);
    RunNothing(orig);
    hide Run, FirstCmds, LaterCmds;
    UndoFirst(FirstCmds(rd), LaterCmds(rd), orig);
  }

  lemma {:induction false} RunNothing(orig: seq<Line>)
    ensures Run([], orig, 0) == Some(orig)
  {
    assert orig[0..] == orig;
  }
}
