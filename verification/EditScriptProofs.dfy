/** Edit scripts print and parse back, run as their hunks do, and hunks undo. */
module EditScriptProofs {
  import opened Lines
  import opened CNumbers
  import opened EditScript

  // ------------------------------------------------------- print, then parse

  lemma {:induction false} CStringOfLine(s: string)
    requires forall i :: 0 <= i < |s| ==> s[i] != '\n' && s[i] != '\0'
    ensures CString(s + "\n") == s
  {
    if s != "" {
      assert (s + "\n")[1..] == s[1..] + "\n";
      CStringOfLine(s[1..]);
    }
  }

  lemma DecimalChars(n: int)
    ensures Decimal(n) != ""
    ensures forall i :: 0 <= i < |Decimal(n)| ==> IsDigit(Decimal(n)[i]) || Decimal(n)[i] == '-'
  {
  }

  lemma HeaderChars(kind: char, where: int, count: int)
    requires kind == 'a' || kind == 'd'
    ensures CString(HeaderLine(kind, where, count)) == [kind] + Decimal(where) + (" " + Decimal(count))
    ensures IsLine(HeaderLine(kind, where, count)) && Ended(HeaderLine(kind, where, count))
  {
    DecimalChars(where);
    DecimalChars(count);
    var s := [kind] + Decimal(where) + (" " + Decimal(count));
    assert forall i :: 0 <= i < |s| ==> s[i] != '\n' && s[i] != '\0';
    assert HeaderLine(kind, where, count) == s + "\n";
    CStringOfLine(s);
  }

  predicate InLong(n: int) { LONG_MIN <= n <= LONG_MAX }

  lemma ParseText(kind: char, where: int, count: int, s: string, tail: string)
    requires kind == 'a' || kind == 'd'
    requires InLong(where) && 0 < count <= LONG_MAX
    requires s != "" && s[0] == kind && tail != "" && tail[0] == ' '
    requires Strtol(s[1..]) == Scanned(where, tail, false)
    requires Strtol(tail[1..]) == Scanned(count, "", false)
    ensures ParseHeader(s) == if where < 0 then None else Some(Header(kind == 'a', where, count))
  {
  }

  lemma ParsePrintedHeader(kind: char, where: int, count: int)
    requires kind == 'a' || kind == 'd'
    requires InLong(where) && 0 < count <= LONG_MAX
    ensures ParseHeader(CString(HeaderLine(kind, where, count)))
         == if where < 0 then None else Some(Header(kind == 'a', where, count))
  {
    hide Strtol, ParseHeader, CString, Decimal, HeaderLine;
    HeaderChars(kind, where, count);
    var tail := " " + Decimal(count);
    var s := [kind] + Decimal(where) + tail;
    assert s[1..] == Decimal(where) + tail;
    assert tail[1..] == Decimal(count) + "";
    assert Strtol(s[1..]) == Scanned(where, tail, false) by { StrtolDecimal(where, tail); }
    assert Strtol(tail[1..]) == Scanned(count, "", false) by { StrtolDecimal(count, ""); }
    ParseText(kind, where, count, s, tail);
  }

  predicate Printable(cmds: seq<Cmd>) {
    forall i :: 0 <= i < |cmds| ==>
      InLong(cmds[i].where) && 0 < HeaderOf(cmds[i]).count <= LONG_MAX
  }

  /** One parsing step on a script that starts with a printed command. */
  lemma {:induction false} ParseStep(c: Cmd, rest: seq<Line>, g: Guard)
    requires InLong(c.where) && 0 < HeaderOf(c).count <= LONG_MAX
    ensures ParseScript(PrintCmd(c) + rest, g, false, false)
         == if c.where >= 0 && InOrder(HeaderOf(c), g)
            then Cons(c, ParseScript(rest, NextGuard(HeaderOf(c), g), false, false)) else None
  {
    hide ParseHeader, CString, HeaderLine;
    var h := HeaderOf(c);
    var kind := if c.Add? then 'a' else 'd';
    ParsePrintedHeader(kind, h.where, h.count);
    HeaderChars(kind, h.where, h.count);
    var rd := PrintCmd(c) + rest;
    assert rd[0] == HeaderLine(kind, h.where, h.count);
    assert CString(rd[0])[0] == kind;
    if c.Add? {
      assert rd[1..1 + h.count] == c.text && rd[1 + h.count..] == rest;
      assert UnquoteAll(c.text, false) == c.text;
    } else {
      assert rd[1..] == rest;
    }
  }

  /** A printed script is read back as the same commands, when their line
      numbers pass the order check, and is rejected otherwise. */
  lemma {:induction false} ParsePrinted(cmds: seq<Cmd>, g: Guard)
    requires Printable(cmds)
    ensures ParseScript(Print(cmds), g, false, false)
         == if Accepts(cmds, g) then Some(Script(cmds, Eof, false)) else None
  {
    if cmds != [] {
      var c, rest := cmds[0], cmds[1..];
      var h := HeaderOf(c);
      assert InLong(c.where) && 0 < h.count <= LONG_MAX;
      assert Printable(rest);
      AcceptsStep(c, rest, g);
      assert [c] + rest == cmds && Print(cmds) == PrintCmd(c) + Print(rest);
      hide ParseScript, Accepts, Print, PrintCmd, Printable, InOrder;
      ParseStep(c, Print(rest), g);
      ParsePrinted(rest, NextGuard(h, g));
    }
  }

  lemma {:induction false} AcceptsStep(c: Cmd, rest: seq<Cmd>, g: Guard)
    requires 0 < HeaderOf(c).count <= LONG_MAX && InLong(c.where)
    ensures Accepts([c] + rest, g) <==>
            c.where >= 0 && InOrder(HeaderOf(c), g) && Accepts(rest, NextGuard(HeaderOf(c), g))
  {
    assert ([c] + rest)[1..] == rest;
  }

  /** The reverser reads an accepted script without blank command lines as
      the applier does. */
  lemma {:induction false} ReadersAgree(rd: seq<Line>, g: Guard)
    requires ParseScript(rd, g, false, false).Some?
    requires !ParseScript(rd, g, false, false).value.blank
    ensures ReadEdits(rd, g) == Some(ParseScript(rd, g, false, false).value.cmds)
    ensures Accepts(ParseScript(rd, g, false, false).value.cmds, g)
    decreases |rd|
  {
    hide ParseHeader, CString;
    if rd != [] {
      var s := CString(rd[0]);
      if s == "" {
        BlankStays(rd[1..], g);
      } else if s != "." && s != ".+" {
        var h := ParseHeader(s).value;
        var n := if h.add then 1 + h.count else 1;
        ReadersAgree(rd[n..], NextGuard(h, g));
        if h.add {
          assert UnquoteAll(rd[1..n], false) == rd[1..n];
        }
      }
    }
  }

  lemma {:induction false} BlankStays(rd: seq<Line>, g: Guard)
    ensures ParseScript(rd, g, true, false).Some? ==> ParseScript(rd, g, true, false).value.blank
    decreases |rd|
  {
    hide ParseHeader, CString;
    if rd != [] && ParseScript(rd, g, true, false).Some? {
      var s := CString(rd[0]);
      if s != "." && s != ".+" {
        var h := ParseHeader(s).value;
        BlankStays(rd[if h.add then 1 + h.count else 1..], NextGuard(h, g));
      }
    }
  }

  // --------------------------------------------------------- scripts as hunks

  /** The order check makes the hunks of a script a chain. */
  lemma {:induction false} HunksChain(cmds: seq<Cmd>, g: Guard)
    requires Standard(cmds) && Accepts(cmds, g)
    ensures Chain(Hunks(cmds))
    ensures cmds != [] ==> Hunks(cmds) != [] && Hunks(cmds)[0].at + 1 >= g.lasta
    ensures cmds != [] && cmds[0].Add? ==> Hunks(cmds)[0] == Hunk(cmds[0].where, 0, cmds[0].text)
    ensures cmds != [] && cmds[0].Del? ==> Hunks(cmds)[0].at == cmds[0].where - 1 && Hunks(cmds)[0].del == cmds[0].count
    decreases |cmds|
  {
    if cmds != [] {
      var g1 := NextGuard(HeaderOf(cmds[0]), g);
      if |cmds| > 1 && Replaces(cmds[0], cmds[1]) {
        assert cmds[2..] == cmds[1..][1..];
        HunksChain(cmds[2..], NextGuard(HeaderOf(cmds[1]), g1));
      } else {
        HunksChain(cmds[1..], g1);
      }
    }
  }

  lemma {:induction false} ChainAscends(hs: seq<Hunk>, pos: int)
    requires Chain(hs) && (hs != [] ==> pos <= hs[0].at)
    ensures Ascending(hs, pos)
  {
    if hs != [] {
      ChainAscends(hs[1..], hs[0].at + hs[0].del);
    }
  }

  lemma {:induction false} RunTwo(c: Cmd, d: Cmd, rest: seq<Cmd>, orig: seq<Line>, pos: nat)
    requires c.Del? && Replaces(c, d) && 0 < c.count && pos < c.where
    requires c.where - 1 + c.count <= |orig|
    ensures Run([c, d] + rest, orig, pos)
         == match Run(rest, orig, c.where - 1 + c.count)
            case None => None
            case Some(out) => Some(orig[pos..c.where - 1] + d.text + out)
  {
    var next := c.where - 1 + c.count;
    assert ([c, d] + rest)[1..] == [d] + rest && ([d] + rest)[1..] == rest;
    assert Run([d] + rest, orig, next) == match Run(rest, orig, next)
                                          case None => None
                                          case Some(out) => Some(orig[next..next] + d.text + out);
    if Run(rest, orig, next).Some? {
      var out := Run(rest, orig, next).value;
      assert orig[pos..c.where - 1] + [] + (orig[next..next] + d.text + out) == orig[pos..c.where - 1] + d.text + out;
    }
  }

  lemma {:induction false} RunOne(c: Cmd, rest: seq<Cmd>, orig: seq<Line>, pos: nat)
    requires pos <= |orig| && (if c.Del? then 0 < c.count && pos < c.where else pos <= c.where)
    ensures c.Add? && c.where > |orig| ==> Run([c] + rest, orig, pos) == None
    ensures c.Del? && c.where - 1 + c.count > |orig| ==> Run([c] + rest, orig, pos) == None
    ensures c.Add? && c.where <= |orig| ==>
              Run([c] + rest, orig, pos) == match Run(rest, orig, c.where)
                                            case None => None
                                            case Some(out) => Some(orig[pos..c.where] + c.text + out)
    ensures c.Del? && c.where - 1 + c.count <= |orig| ==>
              Run([c] + rest, orig, pos) == match Run(rest, orig, c.where - 1 + c.count)
                                            case None => None
                                            case Some(out) => Some(orig[pos..c.where - 1] + [] + out)
  {
    assert ([c] + rest)[1..] == rest;
  }

  /** Running the commands of a hunk first. */
  lemma {:induction false} RunHunk(h: Hunk, rest: seq<Cmd>, orig: seq<Line>, pos: nat)
    requires GoodHunk(h) && pos <= h.at && pos <= |orig|
    ensures Run(HunkCmds(h) + rest, orig, pos)
         == if h.at + h.del > |orig| then None
            else match Run(rest, orig, h.at + h.del)
                 case None => None
                 case Some(out) => Some(orig[pos..h.at] + h.ins + out)
  {
    var d, a := Del(h.at + 1, h.del), Add(h.at + h.del, h.ins);
    hide Run;
    if h.del > 0 && h.ins != [] {
      assert HunkCmds(h) + rest == [d] + ([a] + rest) == [d, a] + rest;
      RunOne(d, [a] + rest, orig, pos);
      if h.at + h.del <= |orig| {
        RunTwo(d, a, rest, orig, pos);
      }
    } else if h.del > 0 {
      assert HunkCmds(h) == [d];
      RunOne(d, rest, orig, pos);
    } else {
      assert HunkCmds(h) == [a];
      RunOne(a, rest, orig, pos);
    }
  }

  lemma {:induction false} PatchStep(h: Hunk, hs: seq<Hunk>, orig: seq<Line>, pos: int)
    requires 0 <= pos <= |orig| && Ascending([h] + hs, pos)
    ensures pos <= h.at && GoodHunk(h) && Ascending(hs, h.at + h.del)
    ensures Patch([h] + hs, orig, pos)
         == if h.at + h.del > |orig| then None
            else match Patch(hs, orig, h.at + h.del)
                 case None => None
                 case Some(out) => Some(orig[pos..h.at] + h.ins + out)
  {
    assert ([h] + hs)[1..] == hs;
  }

  lemma {:induction false} HunkOfTwo(c: Cmd, d: Cmd, rest: seq<Cmd>)
    requires Replaces(c, d) && c.count > 0 && d.text != []
    ensures var h := Hunk(c.where - 1, c.count, d.text);
            [c, d] + rest == HunkCmds(h) + rest && Hunks([c, d] + rest) == [h] + Hunks(rest)
  {
    assert ([c, d] + rest)[2..] == rest;
    assert HunkCmds(Hunk(c.where - 1, c.count, d.text)) == [c, d];
  }

  lemma {:induction false} HunkOfOne(c: Cmd, rest: seq<Cmd>)
    requires rest != [] ==> !Replaces(c, rest[0])
    requires if c.Add? then c.text != [] else c.count > 0
    ensures var h := if c.Add? then Hunk(c.where, 0, c.text) else Hunk(c.where - 1, c.count, []);
            [c] + rest == HunkCmds(h) + rest && Hunks([c] + rest) == [h] + Hunks(rest)
  {
    assert ([c] + rest)[1..] == rest;
    assert HunkCmds(if c.Add? then Hunk(c.where, 0, c.text) else Hunk(c.where - 1, c.count, [])) == [c];
  }

  /** The first hunk of a script and the commands it stands for. */
  lemma {:induction false} FirstHunk(cmds: seq<Cmd>, g: Guard) returns (h: Hunk, rest: seq<Cmd>, g2: Guard)
    requires Standard(cmds) && Accepts(cmds, g) && cmds != []
    ensures cmds == HunkCmds(h) + rest && Hunks(cmds) == [h] + Hunks(rest) && |rest| < |cmds|
    ensures Standard(rest) && Accepts(rest, g2)
  {
    hide Hunks, HunkCmds;
    g2 := NextGuard(HeaderOf(cmds[0]), g);
    if |cmds| > 1 && Replaces(cmds[0], cmds[1]) {
      h := Hunk(cmds[0].where - 1, cmds[0].count, cmds[1].text);
      rest := cmds[2..];
      assert cmds[1..][1..] == rest && cmds == [cmds[0], cmds[1]] + rest;
      HunkOfTwo(cmds[0], cmds[1], rest);
      g2 := NextGuard(HeaderOf(cmds[1]), g2);
    } else {
      h := if cmds[0].Add? then Hunk(cmds[0].where, 0, cmds[0].text) else Hunk(cmds[0].where - 1, cmds[0].count, []);
      rest := cmds[1..];
      assert cmds == [cmds[0]] + rest;
      HunkOfOne(cmds[0], rest);
    }
  }

  lemma {:induction false} NothingRuns(orig: seq<Line>, pos: nat)
    requires pos <= |orig|
    ensures Hunks([]) == [] && Run([], orig, pos) == Patch([], orig, pos)
  {
  }

  /** Running a script is patching by its hunks. */
  lemma {:induction false} RunHunks(cmds: seq<Cmd>, g: Guard, orig: seq<Line>, pos: nat)
    requires Standard(cmds) && Accepts(cmds, g) && pos <= |orig|
    requires Ascending(Hunks(cmds), pos)
    ensures Run(cmds, orig, pos) == Patch(Hunks(cmds), orig, pos)
    decreases |cmds|
  {
    hide Run, Patch, Hunks, HunkCmds, Standard, Accepts, Ascending;
    if cmds == [] {
      NothingRuns(orig, pos);
    } else {
      var h, rest, g2 := FirstHunk(cmds, g);
      PatchStep(h, Hunks(rest), orig, pos);
      RunHunk(h, rest, orig, pos);
      if h.at + h.del <= |orig| {
        RunHunks(rest, g2, orig, h.at + h.del);
      }
    }
  }

  /** Running the commands of a list of hunks is patching by the hunks. */
  lemma {:induction false} RunHunksCmds(hs: seq<Hunk>, orig: seq<Line>, pos: nat)
    requires pos <= |orig| && Ascending(hs, pos)
    ensures Run(HunksCmds(hs), orig, pos) == Patch(hs, orig, pos)
  {
    if hs != [] {
      var h, rest := hs[0], hs[1..];
      assert HunksCmds(hs) == HunkCmds(h) + HunksCmds(rest);
      assert hs == [h] + rest;
      hide Run, Patch, HunksCmds, HunkCmds, Ascending;
      PatchStep(h, rest, orig, pos);
      RunHunk(h, HunksCmds(rest), orig, pos);
      if h.at + h.del <= |orig| {
        RunHunksCmds(rest, orig, h.at + h.del);
      }
    }
  }

  // ------------------------------------------------------------------ undoing

  lemma {:induction false} PatchFits(hs: seq<Hunk>, orig: seq<Line>, pos: int)
    requires 0 <= pos <= |orig| && Ascending(hs, pos)
    requires Patch(hs, orig, pos).Some?
    ensures Fit(hs, |orig|)
  {
    if hs != [] {
      PatchFits(hs[1..], orig, hs[0].at + hs[0].del);
    }
  }

  lemma Segments(a: seq<Line>, b: seq<Line>, c: seq<Line>, whole: seq<Line>, at: nat)
    requires at <= |whole| && whole[at..] == a + b + c
    ensures whole[at..at + |a|] == a && whole[at + |a| + |b|..] == c
  {
    var tail := whole[at..];
    assert whole[at..at + |a|] == tail[..|a|];
    assert whole[at + |a| + |b|..] == tail[|a| + |b|..];
  }

  lemma {:induction false} UndoStep(h: Hunk, rest: seq<Hunk>, orig: seq<Line>, off: int)
    requires Fit([h] + rest, |orig|)
    ensures 0 <= h.at <= h.at + h.del <= |orig| && Fit(rest, |orig|)
    ensures Undo([h] + rest, orig, off)
         == [Hunk(h.at - off, |h.ins|, orig[h.at..h.at + h.del])] + Undo(rest, orig, off + h.del - |h.ins|)
  {
    assert ([h] + rest)[1..] == rest;
  }

  /** The first undoing hunk takes out what was added and puts back what was deleted. */
  lemma {:induction false} UndoFirst(h: Hunk, us: seq<Hunk>, orig: seq<Line>, pos: int, off: int, new_: seq<Line>)
    requires GoodHunk(h) && 0 <= pos <= h.at && h.at + h.del <= |orig| && 0 <= pos - off
    requires h.at - off + |h.ins| <= |new_| && new_[pos - off..h.at - off] == orig[pos..h.at]
    requires Ascending(us, h.at - off + |h.ins|)
    requires Patch(us, new_, h.at - off + |h.ins|) == Some(orig[h.at + h.del..]) && Fit(us, |new_|)
    ensures var u := Hunk(h.at - off, |h.ins|, orig[h.at..h.at + h.del]);
            && Ascending([u] + us, pos - off) && Fit([u] + us, |new_|)
            && Patch([u] + us, new_, pos - off) == Some(orig[pos..])
  {
    var u := Hunk(h.at - off, |h.ins|, orig[h.at..h.at + h.del]);
    assert ([u] + us)[1..] == us;
    PatchStep(u, us, new_, pos - off);
    hide Patch;
    assert orig[pos..h.at] + orig[h.at..h.at + h.del] + orig[h.at + h.del..] == orig[pos..];
  }

  /** Patching the new text by the undoing hunks gives the old text back. */
  lemma {:induction false} UndoRestores(hs: seq<Hunk>, orig: seq<Line>, pos: int, off: int, new_: seq<Line>)
    requires 0 <= pos <= |orig| && Ascending(hs, pos)
    requires Patch(hs, orig, pos).Some? && Fit(hs, |orig|)
    requires 0 <= pos - off <= |new_| && new_[pos - off..] == Patch(hs, orig, pos).value
    ensures Ascending(Undo(hs, orig, off), pos - off)
    ensures Patch(Undo(hs, orig, off), new_, pos - off) == Some(orig[pos..])
    ensures Fit(Undo(hs, orig, off), |new_|)
  {
    if hs != [] {
      var h, rest := hs[0], hs[1..];
      assert hs == [h] + rest;
      UndoStep(h, rest, orig, off);
      PatchStep(h, rest, orig, pos);
      var next, off1 := h.at + h.del, off + h.del - |h.ins|;
      hide Patch, Undo, Fit;
      var kept, out := orig[pos..h.at], Patch(rest, orig, next).value;
      Segments(kept, h.ins, out, new_, pos - off);
      UndoRestores(rest, orig, next, off1, new_);
      UndoFirst(h, Undo(rest, orig, off1), orig, pos, off, new_);
    }
  }

  /** Whether a list of hunks may follow a hunk that ended at line `p`; `tight`
      says that this hunk added lines. */
  predicate Fits(us: seq<Hunk>, p: int, tight: bool) {
    us == [] ||
    (!(tight && us[0].del == 0 && us[0].at == p) && Fits(us[1..], us[0].at + us[0].del, us[0].ins != []))
  }

  predicate Small(u: Hunk) {
    u.at + u.del < LONG_MAX && |u.ins| <= LONG_MAX
  }

  function HunkGuard(u: Hunk, g: Guard): Guard {
    var next := u.at + u.del;
    var g1 := if u.del > 0 then Guard(u.at + 1, next + 1) else g;
    if u.ins != [] then Guard(next + 1, g1.lastd) else g1
  }

  lemma {:induction false} AcceptsHunk(u: Hunk, rest: seq<Cmd>, g: Guard)
    requires GoodHunk(u) && Small(u) && Printable(rest)
    requires g.lasta <= u.at + 1 && g.lastd <= u.at + 1
    ensures Accepts(HunkCmds(u) + rest, g)
       <==> (u.del == 0 ==> g.lasta <= u.at) && Accepts(rest, HunkGuard(u, g))
    ensures Printable(HunkCmds(u) + rest)
  {
    var d, a := Del(u.at + 1, u.del), Add(u.at + u.del, u.ins);
    if u.del > 0 && u.ins != [] {
      AcceptsCons(a, rest, Guard(u.at + 1, u.at + u.del + 1));
      AcceptsCons(d, [a] + rest, g);
      assert HunkCmds(u) + rest == [d] + ([a] + rest);
    } else if u.del > 0 {
      AcceptsCons(d, rest, g);
    } else {
      AcceptsCons(a, rest, g);
    }
  }

  lemma {:induction false} AcceptsCons(c: Cmd, rest: seq<Cmd>, g: Guard)
    requires WellFormedCmd(c) && Printable(rest)
    ensures Accepts([c] + rest, g)
       <==> InOrder(HeaderOf(c), g) && Accepts(rest, NextGuard(HeaderOf(c), g))
    ensures Printable([c] + rest)
  {
    assert ([c] + rest)[1..] == rest;
  }

  lemma {:induction false} AcceptsHunks(us: seq<Hunk>, g: Guard, p: int)
    requires Ascending(us, p) && forall u :: u in us ==> Small(u)
    requires g.lasta <= p + 1 && g.lastd <= p + 1
    ensures Accepts(HunksCmds(us), g) <==> Fits(us, p, g.lasta == p + 1)
    ensures Printable(HunksCmds(us))
  {
    if us != [] {
      var u := us[0];
      assert u in us;
      AcceptsHunks(us[1..], HunkGuard(u, g), u.at + u.del);
      AcceptsHunk(u, HunksCmds(us[1..]), g);
    }
  }

  /** The undoing hunks pass the order check exactly when no delete-only hunk
      starts where a deleting hunk ended. */
  lemma {:induction false} UndoFits(h: Hunk, hs: seq<Hunk>, orig: seq<Line>, off: int)
    requires Chain([h] + hs) && Fit(hs, |orig|)
    ensures Fits(Undo(hs, orig, off + h.del - |h.ins|), h.at - off + |h.ins|, h.del > 0) <==> Separated([h] + hs)
    decreases |hs|
  {
    var all := [h] + hs;
    assert all[1..] == hs;
    if hs != [] {
      var k, rest := hs[0], hs[1..];
      assert hs == [k] + rest;
      UndoStep(k, rest, orig, off + h.del - |h.ins|);
      UndoFits(k, rest, orig, off + h.del - |h.ins|);
    }
  }

  // ------------------------------------------------------------ steps of a run

  lemma AddStep(rd: seq<Line>, g: Guard, blank: bool, comode: bool, orig: seq<Line>, pos: nat)
    requires pos <= |orig| && rd != []
    requires CString(rd[0]) !in {"", ".", ".+"}
    requires ParseHeader(CString(rd[0])).Some? && ParseHeader(CString(rd[0])).value.add
    requires InOrder(ParseHeader(CString(rd[0])).value, g)
    ensures var h, to := ParseHeader(CString(rd[0])).value, Max(pos, ParseHeader(CString(rd[0])).value.where);
            Continue(rd, g, blank, comode, orig, pos)
            == if to > |orig| || |rd| - 1 < h.count then None
               else Prepend(orig[pos..to] + UnquoteAll(rd[1..1 + h.count], comode),
                            Continue(rd[1 + h.count..], NextGuard(h, g), blank, comode, orig, to))
  {
    hide CString, ParseHeader;
    var h := ParseHeader(CString(rd[0])).value;
    if |rd| - 1 >= h.count {
      var rest := ParseScript(rd[1 + h.count..], NextGuard(h, g), blank, comode);
      if rest.Some? {
        var cmds := [Add(h.where, UnquoteAll(rd[1..1 + h.count], comode))] + rest.value.cmds;
        assert cmds[1..] == rest.value.cmds;
      }
    }
  }

  lemma DelStep(rd: seq<Line>, g: Guard, blank: bool, comode: bool, orig: seq<Line>, pos: nat)
    requires pos <= |orig| && rd != []
    requires CString(rd[0]) !in {"", ".", ".+"}
    requires ParseHeader(CString(rd[0])).Some? && !ParseHeader(CString(rd[0])).value.add
    requires InOrder(ParseHeader(CString(rd[0])).value, g)
    ensures var h, to := ParseHeader(CString(rd[0])).value, Max(pos, ParseHeader(CString(rd[0])).value.where - 1);
            Continue(rd, g, blank, comode, orig, pos)
            == if to + h.count > |orig| then None
               else Prepend(orig[pos..to], Continue(rd[1..], NextGuard(h, g), blank, comode, orig, to + h.count))
  {
    hide CString, ParseHeader;
    var h := ParseHeader(CString(rd[0])).value;
    var rest := ParseScript(rd[1..], NextGuard(h, g), blank, comode);
    if rest.Some? {
      var cmds := [Del(h.where, h.count)] + rest.value.cmds;
      assert cmds[1..] == rest.value.cmds;
      var to := Max(pos, h.where - 1);
      if to + h.count <= |orig| {
        assert orig[pos..to] + [] == orig[pos..to];
      }
    }
  }

  lemma {:induction false} ReadStep(rd: seq<Line>, g: Guard)
    requires rd != [] && ParseHeader(CString(rd[0])).Some?
    requires InOrder(ParseHeader(CString(rd[0])).value, g)
    ensures var h := ParseHeader(CString(rd[0])).value;
            var n := if h.add then 1 + h.count else 1;
            ReadEdits(rd, g) ==
              if n > |rd| || ReadEdits(rd[n..], NextGuard(h, g)).None? then None
              else Some([if h.add then Add(h.where, rd[1..n]) else Del(h.where, h.count)]
                        + ReadEdits(rd[n..], NextGuard(h, g)).value)
  {
    hide CString, ParseHeader;
  }

  lemma BadStep(rd: seq<Line>, g: Guard, blank: bool, comode: bool, orig: seq<Line>, pos: nat)
    requires pos <= |orig| && rd != []
    requires CString(rd[0]) !in {"", ".", ".+"}
    requires ParseHeader(CString(rd[0])).None? || !InOrder(ParseHeader(CString(rd[0])).value, g)
    ensures Continue(rd, g, blank, comode, orig, pos) == None
  {
    hide CString, ParseHeader;
  }

  lemma BlankStep(rd: seq<Line>, g: Guard, blank: bool, comode: bool, orig: seq<Line>, pos: nat)
    requires pos <= |orig| && rd != [] && CString(rd[0]) == ""
    ensures Continue(rd, g, blank, comode, orig, pos)
         == if blank then None else Continue(rd[1..], g, true, comode, orig, pos)
  {
    hide CString, ParseHeader;
  }

  lemma EndStep(rd: seq<Line>, g: Guard, blank: bool, comode: bool, orig: seq<Line>, pos: nat)
    requires pos <= |orig| && (rd == [] || CString(rd[0]) in {".", ".+"})
    ensures Continue(rd, g, blank, comode, orig, pos)
         == if comode && rd == [] then None
            else Some((orig[pos..], comode && rd != [] && CString(rd[0]) == ".+" && !blank))
  {
    hide CString, ParseHeader;
  }

  lemma PrependNone(out: seq<Line>, r: Option<(seq<Line>, bool)>)
    ensures Prepend([], r) == r && Prepend(out, None) == None
    ensures r.Some? ==> Prepend(out, r) == Some((out + r.value.0, r.value.1))
  {
    assert r.Some? ==> [] + r.value.0 == r.value.0;
  }

  lemma PrependTwice(a: seq<Line>, b: seq<Line>, r: Option<(seq<Line>, bool)>)
    ensures Prepend(a, Prepend(b, r)) == Prepend(a + b, r)
  {
    if r.Some? {
      assert a + (b + r.value.0) == (a + b) + r.value.0;
    }
  }
}
