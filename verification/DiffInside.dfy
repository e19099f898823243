/** Scripts that begin with a delete from line zero, or with a delete and an add strictly
    inside the deleted lines: what is written for them does not lead back. */
module DiffInside {
  import opened Lines
  import opened CNumbers
  import opened EditScript
  import opened EditScriptProofs
  import opened Reverse
  import opened DiffBlank
  import opened DiffIrregular

  /** A delete, an add strictly inside the deleted lines, and then a regular script that
      goes on behind them. */
  predicate InsideFirst(d: Cmd, a: Cmd, more: seq<Cmd>) {
    && d.Del? && a.Add? && d.where >= 1 && Accepts([d] + [a] + more, START) && Standard(more)
    && a.where < d.where + d.count - 1
    && (more != [] && more[0].Add? ==> more[0].where >= d.where + d.count - 1)
  }

  /** The add is too short to come behind the delete in the order of the keys. */
  predicate Displaced(d: Cmd, a: Cmd, more: seq<Cmd>) {
    InsideFirst(d, a, more) && a.where + |a.text| < d.where + d.count - 1
  }

  // --------------------------------------------------------------------- lines

  predicate AllLines(ls: seq<Line>) {
    forall i :: 0 <= i < |ls| ==> IsLine(ls[i])
  }

  predicate TextsAreLines(cmds: seq<Cmd>) {
    forall i :: 0 <= i < |cmds| && cmds[i].Add? ==> AllLines(cmds[i].text)
  }

  lemma {:induction false} LinesPlus(a: seq<Line>, b: seq<Line>)
    requires AllLines(a) && AllLines(b)
    ensures AllLines(a + b)
  {
  }

  lemma {:induction false} LinesSlice(a: seq<Line>, i: nat, j: nat)
    requires AllLines(a) && i <= j <= |a|
    ensures AllLines(a[i..j])
  {
  }

  lemma {:induction false} RunLines(cmds: seq<Cmd>, orig: seq<Line>, pos: nat)
    requires pos <= |orig| && AllLines(orig) && TextsAreLines(cmds) && Run(cmds, orig, pos).Some?
    ensures AllLines(Run(cmds, orig, pos).value)
    decreases |cmds|
  {
    if cmds == [] {
      LinesSlice(orig, pos, |orig|);
    } else {
      var c := cmds[0];
      assert cmds == [c] + cmds[1..] && TextsAreLines(cmds[1..]) && (c.Add? ==> AllLines(c.text));
      hide Run, AllLines, TextsAreLines;
      RunCons(c, cmds[1..], orig, pos);
      RunLines(cmds[1..], orig, To(c, pos));
      LinesSlice(orig, pos, From(c, pos));
      var text := if c.Add? then c.text else [];
      assert AllLines([]) by { NoLines(); }
      LinesPlus(orig[pos..From(c, pos)], text);
      LinesPlus(orig[pos..From(c, pos)] + text, Run(cmds[1..], orig, To(c, pos)).value);
    }
  }

  lemma {:induction false} NoLines()
    ensures AllLines([])
  {
  }

  lemma {:induction false} OpenLine(l: Line, s: string)
    requires IsLine(l) && !Ended(l) && s != ""
    ensures LineLen(l + s) == |l| + LineLen(s)
    decreases |l|
  {
    if |l| == 1 {
      assert (l + s)[1..] == s;
    } else {
      assert (l + s)[1..] == l[1..] + s;
      OpenLine(l[1..], s);
    }
  }

  lemma {:induction false} OpenCount(l: Line, s: string)
    requires IsLine(l) && !Ended(l) && s != ""
    ensures |SplitLines(l + s)| == |SplitLines(s)|
  {
    OpenLine(l, s);
    assert (l + s)[|l| + LineLen(s)..] == s[LineLen(s)..];
    hide LineLen;
  }

  /** Lines that are run together are read back as at most as many. */
  lemma {:induction false} NoMoreLines(ls: seq<Line>)
    requires AllLines(ls)
    ensures |SplitLines(Concat(ls))| <= |ls|
    decreases |ls|
  {
    if ls != [] {
      var l, rest := ls[0], Concat(ls[1..]);
      assert IsLine(l) && AllLines(ls[1..]);
      NoMoreLines(ls[1..]);
      hide IsLine, Ended, AllLines;
      if Ended(l) || rest == [] {
        SplitFirst(l, rest);
      } else {
        OpenCount(l, rest);
      }
    }
  }

  /** Fewer lines are never the same bytes. */
  lemma {:induction false} OtherBytes(ls: seq<Line>, orig: seq<Line>)
    requires AllLines(ls) && IsText(orig) && |ls| < |orig|
    ensures Concat(ls) != Concat(orig)
  {
    NoMoreLines(ls);
    SplitConcat(orig);
  }

  // ------------------------------------------------------------------- the lengths

  lemma {:induction false} PatchLength(hs: seq<Hunk>, orig: seq<Line>, pos: int)
    requires 0 <= pos <= |orig| && Ascending(hs, pos) && Patch(hs, orig, pos).Some?
    ensures |Patch(hs, orig, pos).value| == |orig| - pos - Net(hs)
    decreases |hs|
  {
    if hs != [] {
      PatchLength(hs[1..], orig, hs[0].at + hs[0].del);
    }
  }

  lemma {:induction false} HunkOff(u: Hunk, rest: seq<Cmd>, off: int)
    requires u.del >= 0
    ensures OffAfter(HunkCmds(u) + rest, off) == OffAfter(rest, off + u.del - |u.ins|)
  {
    var d, a := Del(u.at + 1, u.del), Add(u.at + u.del, u.ins);
    if u.del > 0 && u.ins != [] {
      assert HunkCmds(u) + rest == [d] + ([a] + rest);
      assert ([d] + ([a] + rest))[1..] == [a] + rest && ([a] + rest)[1..] == rest;
    } else if u.del > 0 {
      assert ([d] + rest)[1..] == rest;
    } else if u.ins != [] {
      assert ([a] + rest)[1..] == rest;
    } else {
      assert HunkCmds(u) + rest == rest;
    }
  }

  lemma {:induction false} UndoOff(hs: seq<Hunk>, orig: seq<Line>, off: int, o: int)
    requires Fit(hs, |orig|)
    ensures OffAfter(HunksCmds(Undo(hs, orig, off)), o) == o - Net(hs)
    decreases |hs|
  {
    if hs != [] {
      var h := hs[0];
      assert hs == [h] + hs[1..];
      hide OffAfter, HunkCmds;
      UndoStep(h, hs[1..], orig, off);
      var u := Hunk(h.at - off, |h.ins|, orig[h.at..h.at + h.del]);
      var us := Undo(hs[1..], orig, off + h.del - |h.ins|);
      assert ([u] + us)[1..] == us;
      HunkOff(u, HunksCmds(us), o);
      UndoOff(hs[1..], orig, off + h.del - |h.ins|, o + |h.ins| - h.del);
    } else {
      assert OffAfter([], o) == o;
    }
  }

  lemma {:induction false} UndoTexts(hs: seq<Hunk>, orig: seq<Line>, off: int)
    requires Fit(hs, |orig|) && AllLines(orig)
    ensures TextsAreLines(HunksCmds(Undo(hs, orig, off)))
    decreases |hs|
  {
    if hs != [] {
      var h := hs[0];
      assert hs == [h] + hs[1..];
      UndoStep(h, hs[1..], orig, off);
      var u := Hunk(h.at - off, |h.ins|, orig[h.at..h.at + h.del]);
      var us := Undo(hs[1..], orig, off + h.del - |h.ins|);
      assert ([u] + us)[1..] == us;
      LinesSlice(orig, h.at, h.at + h.del);
      UndoTexts(hs[1..], orig, off + h.del - |h.ins|);
      hide AllLines, Undo, Fit;
      TextsPlus(HunkCmds(u), HunksCmds(us));
    }
  }

  lemma {:induction false} TextsPlus(a: seq<Cmd>, b: seq<Cmd>)
    requires TextsAreLines(a) && TextsAreLines(b)
    ensures TextsAreLines(a + b)
  {
    hide AllLines;
  }

  // ------------------------------------------------------------------ what is written

  /** What the rest of the script does, as hunks behind the deleted lines. */
  lemma {:induction false} MoreHunks(d: Cmd, a: Cmd, more: seq<Cmd>, orig: seq<Line>)
    requires InsideFirst(d, a, more) && Run([d] + [a] + more, orig, 0).Some?
    ensures d.where - 1 + d.count <= |orig| && 0 < d.count && 0 < |a.text| && d.where <= a.where
    ensures var hs, pos := Hunks(more), d.where - 1 + d.count;
            && Ascending(hs, pos) && Fit(hs, |orig|) && Patch(hs, orig, pos).Some?
            && Run([d] + [a] + more, orig, 0) == Some(orig[..d.where - 1] + a.text + Patch(hs, orig, pos).value)
            && EditList(more, d.count - |a.text|, None) == HunkEdits(hs, d.count - |a.text|)
  {
    var pos := d.where - 1 + d.count;
    PairGuard(d, a, more);
    var g := Guard(a.where + 1, d.where + d.count);
    HunksChain(more, g);
    ChainAscends(Hunks(more), pos);
    EditListOfHunks(more, g, d.count - |a.text|);
    hide Accepts, Standard, Run, Hunks, Chain;
    RunPair(d, a, more, orig);
    RunHunks(more, g, orig, pos);
    PatchFits(Hunks(more), orig, pos);
  }

  lemma {:induction false} PairGuard(d: Cmd, a: Cmd, more: seq<Cmd>)
    requires d.Del? && a.Add? && Accepts([d] + [a] + more, START)
    ensures Accepts(more, Guard(a.where + 1, d.where + d.count)) && d.where <= a.where && d.where >= 0
    ensures 0 < d.count <= LONG_MAX && 0 < |a.text| <= LONG_MAX
    ensures more != [] && more[0].Del? ==> more[0].where >= d.where + d.count
  {
    assert ([d] + [a] + more)[1..] == [a] + more && ([a] + more)[1..] == more;
  }

  lemma {:induction false} RunPair(d: Cmd, a: Cmd, more: seq<Cmd>, orig: seq<Line>)
    requires d.Del? && a.Add? && d.where >= 1 && d.count > 0 && a.where < d.where + d.count - 1
    requires Run([d] + [a] + more, orig, 0).Some?
    ensures var pos := d.where - 1 + d.count;
            && pos <= |orig| && Run(more, orig, pos).Some?
            && Run([d] + [a] + more, orig, 0) == Some(orig[..d.where - 1] + a.text + Run(more, orig, pos).value)
  {
    assert [d] + [a] + more == [d] + ([a] + more);
    RunCons(d, [a] + more, orig, 0);
    var pos := To(d, 0);
    assert pos == d.where - 1 + d.count && From(a, pos) == pos;
    if pos <= |orig| {
      RunCons(a, more, orig, pos);
      hide Run;
      assert orig[pos..pos] == [] && [] + a.text == a.text;
      if Run(more, orig, pos).Some? {
        var out := Run(more, orig, pos).value;
        assert orig[0..d.where - 1] + [] + (a.text + out) == orig[..d.where - 1] + a.text + out;
      }
    }
  }

  /** The commands that are written. */
  function Writing(d: Cmd, a: Cmd, hs: seq<Hunk>, orig: seq<Line>): seq<Cmd>
    requires d.Del? && a.Add? && 1 <= d.where && |a.text| < d.count && Fit(hs, |orig|)
    requires d.where - 1 + d.count <= |orig|
  {
    var n, t := d.count, |a.text|;
    [Del(a.where - n + 1, t)] + ([Add(d.where - 1, orig[d.where - 1..d.where - 1 + (n - t)])] +
    HunksCmds(Undo(hs, orig, n - t)))
  }

  lemma {:induction false} Shifts(d: Cmd, a: Cmd, more: seq<Cmd>)
    requires Displaced(d, a, more)
    ensures 0 < |a.text| < d.count && 1 <= d.where <= a.where && d.count <= LONG_MAX
  {
    PairGuard(d, a, more);
  }

  lemma {:induction false} SortPair(e: Edit, x: Edit)
    requires x.key < e.key
    ensures InsertAll([], [e] + [x]) == [x] + [e]
  {
    assert ([e] + [x])[1..] == [x] && [x][1..] == [];
    assert InsertByKey([], e) == [e] && InsertByKey([e], x) == [x] + [e];
    assert InsertAll([e], [x]) == InsertAll([x] + [e], []);
  }

  lemma {:induction false} SortDisplaced(e: Edit, x: Edit, later: seq<Edit>)
    requires x.key < e.key && Above(later, e.key) && SortedEdits(later)
    ensures InsertAll([], [e] + [x] + later) == [x] + ([e] + later)
  {
    hide InsertAll, InsertByKey, SortedEdits, Above;
    InsertAllPlus([], [e] + [x], later);
    SortPair(e, x);
    var two := [x] + [e];
    assert two + [] == two && two + later == [x] + ([e] + later);
    assert Below(two, e.key);
    hide Below;
    InsertAllAbove(two, [], later, e.key);
    assert [] + later == later;
    SortIdles([], later);
  }

  /** The new text and what undoes the rest of the script in it. */
  lemma {:induction false} Restored(d: Cmd, a: Cmd, more: seq<Cmd>, orig: seq<Line>)
    requires InsideFirst(d, a, more) && Run([d] + [a] + more, orig, 0).Some?
    requires SmallText(orig) && SmallText(Run([d] + [a] + more, orig, 0).value)
    ensures Fit(Hunks(more), |orig|)
    ensures var off, hs := d.count - |a.text|, Hunks(more);
            && SortedEdits(HunkEdits(hs, off)) && Printable(HunksCmds(Undo(hs, orig, off)))
            && |Run([d] + [a] + more, orig, 0).value| == |orig| - off - Net(hs)
  {
    hide Run, Hunks, Accepts, Standard, SortedEdits, Printable, HunksCmds, Undo, Net, EditList, HunkEdits, Ascending,
         Fit, Patch;
    MoreHunks(d, a, more, orig);
    RestoredFrom(orig[..d.where - 1] + a.text, Hunks(more), orig, d.where - 1 + d.count, d.count - |a.text|);
  }

  lemma {:induction false} RestoredFrom(head: seq<Line>, hs: seq<Hunk>, orig: seq<Line>, pos: nat, off: int)
    requires pos <= |orig| && Ascending(hs, pos) && Fit(hs, |orig|) && Patch(hs, orig, pos).Some?
    requires |head| == pos - off && SmallText(orig) && SmallText(head + Patch(hs, orig, pos).value)
    ensures SortedEdits(HunkEdits(hs, off)) && Printable(HunksCmds(Undo(hs, orig, off)))
    ensures |head + Patch(hs, orig, pos).value| == |orig| - off - Net(hs)
  {
    hide Ascending, Fit, Patch, SortedEdits, HunkEdits, Printable, HunksCmds, Undo, Net;
    var new_ := head + Patch(hs, orig, pos).value;
    PatchLength(hs, orig, pos);
    assert new_[pos - off..] == Patch(hs, orig, pos).value;
    UndoRestores(hs, orig, pos, off, new_);
    HunkEditsSorted(hs, pos, orig, off, |new_|);
    UndoSmall(hs, orig, off, |new_|);
    AcceptsHunks(Undo(hs, orig, off), START, pos - off);
  }

  lemma {:induction false} Written(d: Cmd, a: Cmd, more: seq<Cmd>, orig: seq<Line>)
    requires Displaced(d, a, more) && Run([d] + [a] + more, orig, 0).Some?
    requires SmallText(orig) && SmallText(Run([d] + [a] + more, orig, 0).value)
    ensures Fit(Hunks(more), |orig|) && d.where - 1 + d.count <= |orig| && |a.text| < d.count
    ensures EmitAll(InsertAll([], EditList([d] + [a] + more, 0, None)), orig, 0) ==
            Print(Writing(d, a, Hunks(more), orig))
    ensures Printable(Writing(d, a, Hunks(more), orig))
  {
    hide EditList, InsertAll, HunkEdits, Run, Hunks, Accepts, Standard, EmitAll, Print, HunksCmds, Undo, HeaderLine,
         Printable, SortedEdits, Fit, Ascending, Patch, Net, Above;
    MoreHunks(d, a, more, orig);
    Restored(d, a, more, orig);
    Shifts(d, a, more);
    var e, x := Edit(d.where - 1, false, 0, 0), Edit(a.where + |a.text| - d.count, true, d.count, |a.text|);
    PairEdits(d, a, more, e, x);
    SortedAndPrinted(d, a, Hunks(more), orig, e, x);
  }

  lemma {:induction false} SortedAndPrinted(d: Cmd, a: Cmd, hs: seq<Hunk>, orig: seq<Line>, e: Edit, x: Edit)
    requires d.Del? && a.Add? && 0 < |a.text| < d.count <= LONG_MAX && 1 <= d.where <= a.where
    requires a.where + |a.text| < d.where + d.count - 1 && d.where - 1 + d.count <= |orig| && SmallText(orig)
    requires Ascending(hs, d.where - 1 + d.count) && Fit(hs, |orig|)
    requires SortedEdits(HunkEdits(hs, d.count - |a.text|)) && Printable(HunksCmds(Undo(hs, orig, d.count - |a.text|)))
    requires e == Edit(d.where - 1, false, 0, 0)
    requires x == Edit(a.where + |a.text| - d.count, true, d.count, |a.text|)
    ensures EmitAll(InsertAll([], [e] + [x] + HunkEdits(hs, d.count - |a.text|)), orig, 0) ==
            Print(Writing(d, a, hs, orig))
    ensures Printable(Writing(d, a, hs, orig))
  {
    hide InsertAll, HunkEdits, EmitAll, Print, HunksCmds, Undo, HeaderLine, Printable, SortedEdits, Fit, Ascending;
    var n, t, w := d.count, |a.text|, d.where;
    var off := n - t;
    var later, rest := HunkEdits(hs, off), HunksCmds(Undo(hs, orig, off));
    HunkKeysAbove(hs, off, w - 1 + n, e.key);
    SortDisplaced(e, x, later);
    EmitDisplaced(d, a, hs, orig, e, x);
    PrintWriting(a.where - n + 1, t, w - 1, orig[w - 1..w - 1 + off], rest);
    WritingPrintable(Del(a.where - n + 1, t), Add(w - 1, orig[w - 1..w - 1 + off]), rest);
  }

  lemma {:induction false} PairEdits(d: Cmd, a: Cmd, more: seq<Cmd>, e: Edit, x: Edit)
    requires d.Del? && a.Add? && e == Edit(d.where - 1, false, 0, 0) && e.key != a.where - d.count
    requires x == Edit(a.where + |a.text| - d.count, true, d.count, |a.text|)
    ensures EditList([d] + [a] + more, 0, None) == [e] + [x] + EditList(more, d.count - |a.text|, None)
  {
    hide EditList;
    assert [d] + [a] + more == [d] + ([a] + more);
    EditListFirst(d, [a] + more, 0, e);
    AddWaits(a, more, d.count, e);
  }

  lemma {:induction false} EmitDisplaced(d: Cmd, a: Cmd, hs: seq<Hunk>, orig: seq<Line>, e: Edit, x: Edit)
    requires d.Del? && a.Add? && 0 < |a.text| < d.count && 1 <= d.where && d.where - 1 + d.count <= |orig|
    requires Ascending(hs, d.where - 1 + d.count) && Fit(hs, |orig|)
    requires e == Edit(d.where - 1, false, 0, 0)
    requires x == Edit(a.where + |a.text| - d.count, true, d.count, |a.text|)
    ensures var off, w := d.count - |a.text|, d.where;
            EmitAll([x] + ([e] + HunkEdits(hs, off)), orig, 0) ==
            [HeaderLine('d', a.where - d.count + 1, |a.text|)] +
            ([HeaderLine('a', w - 1, off)] + orig[w - 1..w - 1 + off] + Print(HunksCmds(Undo(hs, orig, off))))
  {
    hide HeaderLine, EmitAll, Print, HunksCmds, Undo, HunkEdits, EmitOne, EditEnd, Ascending, Fit;
    var off, w := d.count - |a.text|, d.where;
    var later := HunkEdits(hs, off);
    FirstOffset(hs, off);
    assert ([e] + later)[0] == e;
    EmitFirst(x, [e] + later, 0, orig, 0);
    EmitFirst(e, later, off, orig, 0);
    DisplacedOnes(d, a, orig, e, x);
    AscendingFrom(hs, w - 1 + d.count, w - 1 + off);
    EmitHunks(hs, orig, off, w - 1 + off);
  }

  lemma {:induction false} FirstOffset(hs: seq<Hunk>, off: int)
    ensures HunkEdits(hs, off) != [] && HunkEdits(hs, off)[0].offset == off
  {
  }

  /** What is written for the add and for the delete. */
  lemma {:induction false} DisplacedOnes(d: Cmd, a: Cmd, orig: seq<Line>, e: Edit, x: Edit)
    requires d.Del? && a.Add? && 0 < |a.text| < d.count && 1 <= d.where && d.where - 1 + d.count <= |orig|
    requires e == Edit(d.where - 1, false, 0, 0)
    requires x == Edit(a.where + |a.text| - d.count, true, d.count, |a.text|)
    ensures var off, w := d.count - |a.text|, d.where;
            && EditEnd(x, 0, orig, 0) == 0 && EditEnd(e, off, orig, 0) == w - 1 + off
            && EmitOne(x, 0, orig, 0) == [HeaderLine('d', a.where - d.count + 1, |a.text|)]
            && EmitOne(e, off, orig, 0) == [HeaderLine('a', w - 1, off)] + orig[w - 1..w - 1 + off]
  {
    hide HeaderLine;
    var one, two := HeaderLine('d', a.where - d.count + 1, |a.text|), HeaderLine('a', d.where - 1, d.count - |a.text|);
    assert [one] + [] == [one];
    var tail := [two] + orig[d.where - 1..d.where - 1 + (d.count - |a.text|)];
    assert [] + tail == tail;
  }

  lemma {:induction false} PrintWriting(x: int, t: int, w: int, text: seq<Line>, rest: seq<Cmd>)
    ensures Print([Del(x, t)] + ([Add(w, text)] + rest)) ==
            [HeaderLine('d', x, t)] + ([HeaderLine('a', w, |text|)] + text + Print(rest))
  {
    hide HeaderLine;
    PrintCons(Del(x, t), [Add(w, text)] + rest);
    PrintCons(Add(w, text), rest);
  }

  lemma {:induction false} WritingPrintable(c: Cmd, b: Cmd, rest: seq<Cmd>)
    requires Printable(rest) && InLong(c.where) && InLong(b.where)
    requires 0 < HeaderOf(c).count <= LONG_MAX && 0 < HeaderOf(b).count <= LONG_MAX
    ensures Printable([c] + ([b] + rest))
  {
    hide InLong;
    var all := [c] + ([b] + rest);
    forall i | 0 <= i < |all| ensures InLong(all[i].where) && 0 < HeaderOf(all[i]).count <= LONG_MAX {
      if i > 1 { assert all[i] == rest[i - 2]; }
    }
  }

  // -------------------------------------------------------------------- the theorem

  lemma {:induction false} WritingOff(d: Cmd, a: Cmd, more: seq<Cmd>, orig: seq<Line>)
    requires Displaced(d, a, more) && Fit(Hunks(more), |orig|) && d.where - 1 + d.count <= |orig| && |a.text| < d.count
    ensures OffAfter(Writing(d, a, Hunks(more), orig), 0) == 2 * |a.text| - d.count - Net(Hunks(more))
  {
    Shifts(d, a, more);
    var n, t, hs := d.count, |a.text|, Hunks(more);
    var c, b := Del(a.where - n + 1, t), Add(d.where - 1, orig[d.where - 1..d.where - 1 + (n - t)]);
    var rest := HunksCmds(Undo(hs, orig, n - t));
    hide Hunks, HunksCmds, Undo, Net, InsideFirst;
    assert ([c] + ([b] + rest))[1..] == [b] + rest && ([b] + rest)[1..] == rest;
    UndoOff(hs, orig, n - t, 2 * t - n);
  }

  lemma {:induction false} WritingTexts(d: Cmd, a: Cmd, more: seq<Cmd>, orig: seq<Line>)
    requires Displaced(d, a, more) && Fit(Hunks(more), |orig|) && d.where - 1 + d.count <= |orig| && |a.text| < d.count
    requires AllLines(orig)
    ensures TextsAreLines(Writing(d, a, Hunks(more), orig))
  {
    Shifts(d, a, more);
    var n, t, hs := d.count, |a.text|, Hunks(more);
    var c, b := Del(a.where - n + 1, t), Add(d.where - 1, orig[d.where - 1..d.where - 1 + (n - t)]);
    LinesSlice(orig, d.where - 1, d.where - 1 + (n - t));
    UndoTexts(hs, orig, n - t);
    hide AllLines, Hunks, HunksCmds, Undo, InsideFirst;
    TextsPlus([b], HunksCmds(Undo(hs, orig, n - t)));
    TextsPlus([c], [b] + HunksCmds(Undo(hs, orig, n - t)));
  }

  /** The result has as many lines less than the old text as were added. */
  lemma {:induction false} TooShort(d: Cmd, a: Cmd, more: seq<Cmd>, orig: seq<Line>)
    requires Displaced(d, a, more) && Run([d] + [a] + more, orig, 0).Some?
    requires SmallText(orig) && SmallText(Run([d] + [a] + more, orig, 0).value)
    requires Fit(Hunks(more), |orig|) && d.where - 1 + d.count <= |orig| && |a.text| < d.count
    requires Accepts(Writing(d, a, Hunks(more), orig), START)
    ensures var out := Run(Writing(d, a, Hunks(more), orig), Run([d] + [a] + more, orig, 0).value, 0);
            out.Some? ==> |out.value| == |orig| - |a.text|
  {
    Restored(d, a, more, orig);
    WritingOff(d, a, more, orig);
    var new_, cmds := Run([d] + [a] + more, orig, 0).value, Writing(d, a, Hunks(more), orig);
    hide Run, Writing, OffAfter, Accepts, InsideFirst, RunHead, EndPos, Net, Hunks;
    RunEnds(cmds, new_, 0);
    if EndPos(cmds, 0) <= |new_| {
      HeadLength(cmds, START, new_, 0);
    }
  }

  lemma {:induction false} DisplacedNotUndone(d: Cmd, a: Cmd, more: seq<Cmd>, orig: seq<Line>)
    requires Displaced(d, a, more) && Run([d] + [a] + more, orig, 0).Some?
    requires SmallText(orig) && SmallText(Run([d] + [a] + more, orig, 0).value)
    requires IsText(orig) && TextsAreLines([d] + [a] + more)
    ensures Apply(EmitAll(InsertAll([], EditList([d] + [a] + more, 0, None)), orig, 0),
                  Run([d] + [a] + more, orig, 0).value, false) != Some(Concat(orig))
  {
    Written(d, a, more, orig);
    Shifts(d, a, more);
    var new_, cmds := Run([d] + [a] + more, orig, 0).value, Writing(d, a, Hunks(more), orig);
    assert AllLines(orig);
    hide Run, Writing, Accepts, InsideFirst, EmitAll, InsertAll, EditList, Print, ParseScript, AllLines, IsText,
         TextsAreLines, Printable, Fit;
    ParsePrinted(cmds, START);
    if Accepts(cmds, START) && Run(cmds, new_, 0).Some? {
      TooShort(d, a, more, orig);
      WritingTexts(d, a, more, orig);
      RunLines([d] + [a] + more, orig, 0);
      RunLines(cmds, new_, 0);
      OtherBytes(Run(cmds, new_, 0).value, orig);
    }
  }

  /** A script that begins with a delete and one add strictly inside the deleted lines is
      never undone by what is written for it, whatever the text. */
  lemma {:induction false} InsideFirstNotUndone(d: Cmd, a: Cmd, more: seq<Cmd>, orig: seq<Line>)
    requires InsideFirst(d, a, more) && Run([d] + [a] + more, orig, 0).Some?
    requires SmallText(orig) && SmallText(Run([d] + [a] + more, orig, 0).value)
    requires IsText(orig) && TextsAreLines([d] + [a] + more)
    ensures Apply(EmitAll(InsertAll([], EditList([d] + [a] + more, 0, None)), orig, 0),
                  Run([d] + [a] + more, orig, 0).value, false) != Some(Concat(orig))
  {
    if a.where + |a.text| < d.where + d.count - 1 {
      DisplacedNotUndone(d, a, more, orig);
    } else {
      assert [] + [d] == [d] && [d][1..] == [] && Standard([d]);
      hide Run, Standard, Accepts, EmitAll, InsertAll, EditList;
      InsideRejected([], d, a, more, orig, Run([d] + [a] + more, orig, 0).value);
    }
  }

  // ------------------------------------------------------------------------ line zero

  /** A script that deletes from line zero and otherwise is regular, unless it adds right
      after the last line that it counts as deleted and then goes on. */
  predicate FromLineZero(cmds: seq<Cmd>) {
    && cmds != [] && cmds[0].Del? && cmds[0].where == 0 && Accepts(cmds, START) && Standard(cmds[1..])
    && (|cmds| > 2 && cmds[1].Add? ==> cmds[1].where != cmds[0].count - 1)
  }

  /** What is written for it is rejected, whatever the text. */
  lemma {:induction false} LineZeroRejected(cmds: seq<Cmd>, orig: seq<Line>, text: seq<Line>)
    requires FromLineZero(cmds) && Run(cmds, orig, 0).Some?
    requires SmallText(orig) && SmallText(Run(cmds, orig, 0).value)
    ensures Apply(EmitAll(InsertAll([], EditList(cmds, 0, None)), orig, 0), text, false) == None
  {
    if |cmds| > 1 && cmds[1].Add? && cmds[1].where < cmds[0].count {
      var d, a, more := cmds[0], cmds[1], cmds[2..];
      assert cmds == [d] + [a] + more && cmds[1..][1..] == more;
      assert Standard(more);
      PairGuard(d, a, more);
      hide Run, Standard, Accepts, EmitAll, InsertAll, EditList;
      ZeroFits(d, a, more, orig);
      if a.where == d.count - 1 {
        assert more == [];
        ZeroJoined(d, a, orig, text);
      } else {
        ZeroInside(d, a, more, orig, text);
      }
    } else {
      hide Run, Standard, Accepts, EmitAll, InsertAll, EditList;
      ZeroBehindRejected(cmds, orig, text);
    }
  }

  lemma {:induction false} ZeroFits(d: Cmd, a: Cmd, more: seq<Cmd>, orig: seq<Line>)
    requires d.Del? && d.where == 0 && d.count > 0 && Run([d] + [a] + more, orig, 0).Some?
    ensures d.count <= |orig|
  {
    assert [d] + [a] + more == [d] + ([a] + more);
    RunCons(d, [a] + more, orig, 0);
  }

  /** An add further up: a line number below zero comes first, that of the delete or that
      of the add. */
  lemma {:induction false} ZeroInside(d: Cmd, a: Cmd, more: seq<Cmd>, orig: seq<Line>, text: seq<Line>)
    requires d.Del? && a.Add? && d.where == 0 && a.where < d.count - 1 && Standard(more)
    requires Accepts(more, Guard(a.where + 1, d.count)) && 0 <= a.where
    requires 0 < d.count <= LONG_MAX && 0 < |a.text| <= LONG_MAX
    ensures Apply(EmitAll(InsertAll([], EditList([d] + [a] + more, 0, None)), orig, 0), text, false) == None
  {
    hide Accepts, Standard, EditList, InsertAll, EmitAll, Apply, Above;
    var n, t := d.count, |a.text|;
    var e, x := Edit(-1, false, 0, 0), Edit(a.where + t - n, true, n, t);
    PairEdits(d, a, more, e, x);
    LaterAbove(more, Guard(a.where + 1, n), n - t, x.key);
    ZeroSorted(e, x, EditList(more, n - t, None), orig, text);
  }

  lemma {:induction false} ZeroSorted(e: Edit, x: Edit, later: seq<Edit>, orig: seq<Line>, text: seq<Line>)
    requires e == Edit(-1, false, 0, 0) && Above(later, x.key) && x.havetext
    requires 0 < x.offset <= LONG_MAX && 0 < x.count <= LONG_MAX && -LONG_MAX <= x.key - x.count + 1 < 0
    ensures Apply(EmitAll(InsertAll([], [e] + [x] + later), orig, 0), text, false) == None
  {
    hide InsertAll, EmitAll, Apply, Above, HeaderLine;
    var script := EmitAll(InsertAll([], [e] + [x] + later), orig, 0);
    if x.key < e.key {
      ZeroAddFirst(e, x, later, orig);
      RejectedFirst(script, 'd', x.key - x.count + 1, x.count, text);
    } else {
      ZeroDeleteFirst(e, x, later, orig);
      RejectedFirst(script, 'a', -1, x.offset, text);
    }
  }

  lemma {:induction false} RejectedFirst(script: seq<Line>, kind: char, where: int, count: int, text: seq<Line>)
    requires script != [] && script[0] == HeaderLine(kind, where, count)
    requires (kind == 'a' || kind == 'd') && InLong(where) && where < 0 < count <= LONG_MAX
    ensures Apply(script, text, false) == None
  {
    hide HeaderLine, ParseScript, Apply;
    assert script == [script[0]] + script[1..];
    RejectedHeader(kind, where, count, script[1..], START);
    NoScript(script, text);
  }

  lemma {:induction false} ZeroAddFirst(e: Edit, x: Edit, later: seq<Edit>, orig: seq<Line>)
    requires x.key < e.key && Above(later, x.key) && x.havetext && x.count > 0
    ensures var script := EmitAll(InsertAll([], [e] + [x] + later), orig, 0);
            script != [] && script[0] == HeaderLine('d', x.key - x.count + 1, x.count)
  {
    hide InsertAll, EmitAll, HeaderLine;
    InsertAllPlus([], [e] + [x], later);
    SortPair(e, x);
    InsertAllAbove([x], [e], later, x.key);
    InsertAllGrows([e], later);
    AddDeletes(x, InsertAll([e], later), orig, 0);
  }

  lemma {:induction false} ZeroDeleteFirst(e: Edit, x: Edit, later: seq<Edit>, orig: seq<Line>)
    requires e == Edit(-1, false, 0, 0) && e.key <= x.key && Above(later, x.key) && x.offset > 0
    ensures var script := EmitAll(InsertAll([], [e] + [x] + later), orig, 0);
            script != [] && script[0] == HeaderLine('a', -1, x.offset)
  {
    assert SortedEdits([e] + [x]) by { assert ([e] + [x])[1..] == [x]; }
    hide InsertAll, EmitAll, HeaderLine, SortedEdits, Seek;
    SortedStays([e], x, later);
    EmitFirst(e, [x] + InsertAll([], later), x.offset, orig, 0);
  }

  /** An add right after the last line counted as deleted: the text that is written for
      it is one line short. */
  lemma {:induction false} ZeroJoined(d: Cmd, a: Cmd, orig: seq<Line>, text: seq<Line>)
    requires d.Del? && a.Add? && d.where == 0 && a.where == d.count - 1 && d.count <= |orig|
    requires 0 < d.count <= LONG_MAX && 0 < |a.text| <= LONG_MAX
    ensures Apply(EmitAll(InsertAll([], EditList([d] + [a] + [], 0, None)), orig, 0), text, false) == None
  {
    hide EmitAll, HeaderLine, EditList, InsertAll, Apply, ParseScript;
    var n, t := d.count, |a.text|;
    var e, s := Edit(t - 1, true, 0, t), Sentinel(n - t);
    JoinedEdits(d, a);
    JoinedPrinted(e, s, n, orig);
    ShortScript(t, n, orig[..n - 1]);
    NoScript(EmitAll([e, s], orig, 0), text);
  }

  lemma {:induction false} NoScript(script: seq<Line>, text: seq<Line>)
    requires ParseScript(script, START, false, false) == None
    ensures Apply(script, text, false) == None
  {
    hide ParseScript;
  }

  lemma {:induction false} ShortScript(t: nat, n: nat, text: seq<Line>)
    requires 0 < t <= LONG_MAX && |text| < n <= LONG_MAX
    ensures ParseScript([HeaderLine('d', 0, t)] + ([HeaderLine('a', t - 1, n)] + text), START, false, false) == None
  {
    var rest := [HeaderLine('a', t - 1, n)] + text;
    assert PrintCmd(Del(0, t)) == [HeaderLine('d', 0, t)];
    hide ParseScript, HeaderLine, PrintCmd;
    ShortText(t - 1, n, text, NextGuard(Header(false, 0, t), START));
    ParseStep(Del(0, t), rest, START);
  }

  lemma {:induction false} JoinedPrinted(e: Edit, s: Edit, n: nat, orig: seq<Line>)
    requires 0 < n <= |orig| && e.havetext && 0 < e.count && e.key == e.count - 1
    requires e.offset == 0 && s.offset == n - e.count
    ensures EmitAll([e, s], orig, 0) ==
            [HeaderLine('d', 0, e.count)] + ([HeaderLine('a', e.key, n)] + orig[..n - 1])
  {
    hide HeaderLine, EmitAll;
    EmitFirst(e, [s], s.offset, orig, 0);
    assert [e] + [s] == [e, s];
    var one := EmitOne(e, s.offset, orig, 0);
    assert one == [HeaderLine('d', 0, e.count)] + ([HeaderLine('a', e.key, n)] + orig[..n - 1]);
    EmitLast(s, orig, EditEnd(e, s.offset, orig, 0));
    assert one + [] == one;
  }

  lemma {:induction false} EmitLast(s: Edit, orig: seq<Line>, pos: nat)
    requires pos <= |orig|
    ensures EmitAll([s], orig, pos) == []
  {
  }

  lemma {:induction false} JoinedEdits(d: Cmd, a: Cmd)
    requires d.Del? && a.Add? && d.where == 0 && a.where == d.count - 1 && 0 < |a.text| <= LONG_MAX
    ensures InsertAll([], EditList([d] + [a] + [], 0, None)) ==
            [Edit(|a.text| - 1, true, 0, |a.text|), Sentinel(d.count - |a.text|)]
  {
    var e, s := Edit(|a.text| - 1, true, 0, |a.text|), Sentinel(d.count - |a.text|);
    assert [d] + [a] + [] == [d, a] && [d, a][1..] == [a] && [a][1..] == [];
    assert EditList([a], d.count, Some(Edit(-1, false, 0, 0))) == [e] + [s];
    assert EditList([d, a], 0, None) == [] + ([e] + [s]) == [e, s];
    assert [e, s][1..] == [s] && [s][1..] == [];
    assert InsertByKey([], e) == [e] && InsertByKey([e], s) == [e] + [s];
    assert InsertAll([e], [s]) == InsertAll([e] + [s], []);
  }

  lemma {:induction false} ShortText(where: int, count: int, text: seq<Line>, g: Guard)
    requires 0 <= where <= LONG_MAX && 0 < count <= LONG_MAX && |text| < count
    ensures ParseScript([HeaderLine('a', where, count)] + text, g, false, false) == None
  {
    hide ParseHeader, CString, HeaderLine;
    ParsePrintedHeader('a', where, count);
    HeaderChars('a', where, count);
    var rd := [HeaderLine('a', where, count)] + text;
    assert rd[0] == HeaderLine('a', where, count);
    assert CString(rd[0])[0] == 'a';
  }
}
