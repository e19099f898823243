/** How the reverser turns a script into its inverse: an edit list with keys and
    offsets, an insertion sort, and one forward pass over the old text. */
module Reverse {
  import opened Lines
  import opened CNumbers
  import opened EditScript
  import opened EditScriptProofs

  /** A node of the edit list. */
  datatype Edit = Edit(key: int, havetext: bool, offset: int, count: int)

  function Sentinel(offset: int): Edit {
    Edit(LONG_MAX, false, offset, 0)
  }

  function Pending(del: Option<Edit>): seq<Edit> {
    if del.Some? then [del.value] else []
  }

  /** The edits that entering a command puts into the list, and the offset and
      the waiting delete afterwards. */
  datatype Step = Step(done: seq<Edit>, offset: int, del: Option<Edit>)

  function EditStep(c: Cmd, offset: int, del: Option<Edit>): Step {
    match c
    case Add(w, t) =>
      var key := w + |t| - offset;
      if del.Some? && del.value.key == key - |t| then
        Step([Edit(key, true, del.value.offset, |t|)], offset - |t|, None)
      else
        Step(Pending(del) + [Edit(key, true, offset, |t|)], offset - |t|, None)
    case Del(w, n) =>
      Step(Pending(del), offset + n, Some(Edit(w - 1 - offset, false, offset, 0)))
  }

  /** The edits in the order in which they are put into the list; `del` is a
      delete that still waits for the command after it. */
  function EditList(cmds: seq<Cmd>, offset: int, del: Option<Edit>): seq<Edit>
    decreases |cmds|
  {
    if cmds == [] then Pending(del) + [Sentinel(offset)]
    else
      var s := EditStep(cmds[0], offset, del);
      s.done + EditList(cmds[1..], s.offset, s.del)
  }

  /** Insertion by key, after the edits with the same key. */
  function InsertByKey(es: seq<Edit>, e: Edit): seq<Edit> {
    if es == [] then [e]
    else if e.key < es[0].key then [e] + es
    else [es[0]] + InsertByKey(es[1..], e)
  }

  function InsertAll(es: seq<Edit>, more: seq<Edit>): seq<Edit>
    decreases |more|
  {
    if more == [] then es else InsertAll(InsertByKey(es, more[0]), more[1..])
  }

  /** Where a reader that has consumed `pos` of `size` lines is after being told
      to go to line `to`. */
  function Seek(pos: nat, to: int, size: nat): (p: nat)
    requires pos <= size
    ensures pos <= p <= size
  {
    if to <= pos then pos else if to <= size then to else size
  }

  /** The lines written for the edits, reading the old text once. */
  function EmitAll(es: seq<Edit>, orig: seq<Line>, editline: nat): seq<Line>
    requires editline <= |orig|
    decreases |es|
  {
    if |es| <= 1 then []
    else
      var e := es[0];
      var deleted := if e.havetext then e.count else 0;
      var added := deleted + es[1].offset - e.offset;
      var head := if deleted > 0 then [HeaderLine('d', e.key - deleted + 1, deleted)] else [];
      if added <= 0 then head + EmitAll(es[1..], orig, editline)
      else
        var start := e.key - deleted + 1 + e.offset;
        var p := Seek(editline, start - 1, |orig|);
        var q := Seek(p, start + added - 1, |orig|);
        head + ([HeaderLine('a', e.key, added)] + orig[p..q]) + EmitAll(es[1..], orig, q)
  }

  /** The script written for the input script `rd` and the old text `orig`;
      None when the text of an `a` command is cut short. */
  function Reversed(rd: seq<Line>, orig: seq<Line>): Option<seq<Line>> {
    match ReadEdits(rd, START)
    case None => None
    case Some(cmds) => Some(EmitAll(InsertAll([], EditList(cmds, 0, None)), orig, 0))
  }

  // ------------------------------------------------------------ the sort idles

  predicate SortedEdits(es: seq<Edit>) {
    |es| <= 1 || (es[0].key <= es[1].key && SortedEdits(es[1..]))
  }

  lemma {:induction false} SortedCons(e: Edit, es: seq<Edit>)
    requires SortedEdits(es) && (es != [] ==> e.key <= es[0].key)
    ensures SortedEdits([e] + es)
  {
    assert ([e] + es)[1..] == es;
  }

  lemma {:induction false} InsertKeeps(es: seq<Edit>, e: Edit)
    requires SortedEdits(es)
    ensures SortedEdits(InsertByKey(es, e))
    ensures multiset(InsertByKey(es, e)) == multiset(es) + multiset{e}
    ensures es != [] ==> InsertByKey(es, e)[0] == if e.key < es[0].key then e else es[0]
  {
    if es != [] {
      assert es == [es[0]] + es[1..];
      if e.key < es[0].key {
        SortedCons(e, es);
      } else {
        InsertKeeps(es[1..], e);
        SortedCons(es[0], InsertByKey(es[1..], e));
      }
    }
  }

  lemma {:induction false} InsertLast(es: seq<Edit>, e: Edit)
    requires SortedEdits(es + [e])
    ensures InsertByKey(es, e) == es + [e]
  {
    if es != [] {
      assert (es + [e])[1..] == es[1..] + [e];
      InsertLast(es[1..], e);
      LastIsLargest(es, e);
    }
  }

  lemma {:induction false} LastIsLargest(es: seq<Edit>, e: Edit)
    requires SortedEdits(es + [e]) && es != []
    ensures es[0].key <= e.key
  {
    assert (es + [e])[1..] == es[1..] + [e];
    if |es| > 1 {
      LastIsLargest(es[1..], e);
    }
  }

  lemma {:induction false} SortedPrefix(a: seq<Edit>, b: seq<Edit>)
    requires SortedEdits(a + b)
    ensures SortedEdits(a)
  {
    if |a| > 1 {
      assert (a + b)[1..] == a[1..] + b;
      SortedPrefix(a[1..], b);
    }
  }

  /** When the keys never decrease, the insertion sort changes nothing. */
  lemma {:induction false} SortIdles(es: seq<Edit>, more: seq<Edit>)
    requires SortedEdits(es + more)
    ensures InsertAll(es, more) == es + more
    decreases |more|
  {
    if more != [] {
      var e := more[0];
      assert es + more == (es + [e]) + more[1..];
      SortedPrefix(es + [e], more[1..]);
      InsertLast(es, e);
      SortIdles(es + [e], more[1..]);
    } else {
      assert es + more == es;
    }
  }

  // --------------------------------------------------------- edits and hunks

  function HunkEdit(h: Hunk, off: int): Edit {
    Edit(h.at - off + |h.ins|, h.ins != [], off, |h.ins|)
  }

  /** The edit list of a list of hunks, closed by the sentinel. */
  function HunkEdits(hs: seq<Hunk>, off: int): seq<Edit> {
    if hs == [] then [Sentinel(off)]
    else [HunkEdit(hs[0], off)] + HunkEdits(hs[1..], off + hs[0].del - |hs[0].ins|)
  }

  /** A waiting delete that no command merges with goes into the list first. */
  lemma {:induction false} PendingWaits(rest: seq<Cmd>, offset: int, d: Edit)
    requires rest != [] && rest[0].Add? ==> d.key != rest[0].where - offset
    ensures EditList(rest, offset, Some(d)) == [d] + EditList(rest, offset, None)
  {
    if rest != [] {
      var s, t := EditStep(rest[0], offset, Some(d)), EditStep(rest[0], offset, None);
      assert s.done == [d] + t.done && s.offset == t.offset && s.del == t.del;
      assert [d] + (t.done + EditList(rest[1..], t.offset, t.del)) ==
             ([d] + t.done) + EditList(rest[1..], t.offset, t.del);
    }
  }

  lemma {:induction false} DelAlone(c: Cmd, rest: seq<Cmd>, off: int)
    requires c.Del? && !(rest != [] && Replaces(c, rest[0]))
    requires EditList(rest, off + c.count, None) == HunkEdits(Hunks(rest), off + c.count)
    ensures EditList([c] + rest, off, None) == HunkEdits(Hunks([c] + rest), off)
  {
    assert ([c] + rest)[1..] == rest;
    var d, h := Edit(c.where - 1 - off, false, off, 0), Hunk(c.where - 1, c.count, []);
    PendingWaits(rest, off + c.count, d);
    EditListFirst(c, rest, off, d);
    assert Hunks([c] + rest) == [h] + Hunks(rest);
    assert ([h] + Hunks(rest))[1..] == Hunks(rest);
  }

  lemma {:induction false} EditListFirst(c: Cmd, rest: seq<Cmd>, off: int, d: Edit)
    requires c.Del? && d == Edit(c.where - 1 - off, false, off, 0)
    ensures EditList([c] + rest, off, None) == EditList(rest, off + c.count, Some(d))
  {
    assert ([c] + rest)[1..] == rest;
    assert [] + EditList(rest, off + c.count, Some(d)) == EditList(rest, off + c.count, Some(d));
  }

  lemma {:induction false} DelThenAdd(c: Cmd, a: Cmd, rest: seq<Cmd>, off: int)
    requires Replaces(c, a) && a.text != []
    requires EditList(rest, off + c.count - |a.text|, None) == HunkEdits(Hunks(rest), off + c.count - |a.text|)
    ensures EditList([c, a] + rest, off, None) == HunkEdits(Hunks([c, a] + rest), off)
  {
    assert ([c, a] + rest)[1..] == [a] + rest && ([a] + rest)[1..] == rest;
    var d, h := Edit(c.where - 1 - off, false, off, 0), Hunk(c.where - 1, c.count, a.text);
    assert [c, a] + rest == [c] + ([a] + rest);
    EditListFirst(c, [a] + rest, off, d);
    assert Hunks([c, a] + rest) == [h] + Hunks(rest) by { assert ([c, a] + rest)[2..] == rest; }
    assert ([h] + Hunks(rest))[1..] == Hunks(rest);
  }

  lemma {:induction false} AddAlone(c: Cmd, rest: seq<Cmd>, off: int)
    requires c.Add? && c.text != []
    requires EditList(rest, off - |c.text|, None) == HunkEdits(Hunks(rest), off - |c.text|)
    ensures EditList([c] + rest, off, None) == HunkEdits(Hunks([c] + rest), off)
  {
    assert ([c] + rest)[1..] == rest;
    var h := Hunk(c.where, 0, c.text);
    assert ([h] + Hunks(rest))[1..] == Hunks(rest);
  }

  /** The key and offset arithmetic: every hunk becomes one edit. */
  lemma {:induction false} EditListOfHunks(cmds: seq<Cmd>, g: Guard, off: int)
    requires Standard(cmds) && Accepts(cmds, g)
    ensures EditList(cmds, off, None) == HunkEdits(Hunks(cmds), off)
    decreases |cmds|
  {
    if cmds != [] {
      hide EditList, EditStep, HunkEdits, Hunks;
      var c, rest := cmds[0], cmds[1..];
      var g1 := NextGuard(HeaderOf(c), g);
      if c.Del? && rest != [] && Replaces(c, rest[0]) {
        var a, rest2 := rest[0], rest[1..];
        EditListOfHunks(rest2, NextGuard(HeaderOf(a), g1), off + c.count - |a.text|);
        DelThenAdd(c, a, rest2, off);
        assert cmds == [c, a] + rest2;
      } else {
        EditListOfHunks(rest, g1, if c.Del? then off + c.count else off - |c.text|);
        if c.Del? { DelAlone(c, rest, off); } else { AddAlone(c, rest, off); }
        assert cmds == [c] + rest;
      }
    }
  }

  lemma {:induction false} HunkEditsSorted(hs: seq<Hunk>, pos: int, orig: seq<Line>, off: int, size: int)
    requires Ascending(hs, pos) && Fit(hs, |orig|) && Fit(Undo(hs, orig, off), size) && size <= LONG_MAX
    ensures SortedEdits(HunkEdits(hs, off))
  {
    if hs != [] {
      var h, rest := hs[0], hs[1..];
      var off1 := off + h.del - |h.ins|;
      assert hs == [h] + rest;
      UndoStep(h, rest, orig, off);
      assert Undo(hs, orig, off)[1..] == Undo(rest, orig, off1);
      HunkEditsSorted(rest, h.at + h.del, orig, off1, size);
      assert HunkEdits(hs, off)[1..] == HunkEdits(rest, off1);
    }
  }

  /** The lines printed for one undoing hunk. */
  function HunkLines(at: int, del: int, ins: seq<Line>): seq<Line> {
    (if del > 0 then [HeaderLine('d', at + 1, del)] else []) +
    (if ins != [] then [HeaderLine('a', at + del, |ins|)] + ins else [])
  }

  lemma {:induction false} PrintHunkCmds(h: Hunk, rest: seq<Cmd>)
    ensures Print(HunkCmds(h) + rest) == HunkLines(h.at, h.del, h.ins) + Print(rest)
  {
    hide HeaderLine;
    var d, a := Del(h.at + 1, h.del), Add(h.at + h.del, h.ins);
    if h.del > 0 && h.ins != [] {
      PrintCons(d, [a] + rest);
      PrintCons(a, rest);
      assert HunkCmds(h) + rest == [d] + ([a] + rest);
    } else if h.del > 0 {
      PrintCons(d, rest);
    } else if h.ins != [] {
      PrintCons(a, rest);
    } else {
      assert HunkCmds(h) + rest == rest;
    }
  }

  lemma {:induction false} PrintCons(c: Cmd, rest: seq<Cmd>)
    ensures Print([c] + rest) == PrintCmd(c) + Print(rest)
  {
    assert ([c] + rest)[1..] == rest;
  }

  lemma {:induction false} EmitStep(h: Hunk, es: seq<Edit>, orig: seq<Line>, off: int, editline: nat)
    requires GoodHunk(h) && editline <= h.at && h.at + h.del <= |orig|
    requires es != [] && es[0].offset == off + h.del - |h.ins|
    ensures EmitAll([HunkEdit(h, off)] + es, orig, editline)
         == HunkLines(h.at - off, |h.ins|, orig[h.at..h.at + h.del])
            + EmitAll(es, orig, if h.del > 0 then h.at + h.del else editline)
  {
    hide HeaderLine;
    assert ([HunkEdit(h, off)] + es)[1..] == es;
    var text := orig[h.at..h.at + h.del];
    assert |text| == h.del;
    if h.del == 0 { assert text == []; }
  }

  lemma {:induction false} EmitJoin(h: Hunk, rest: seq<Hunk>, orig: seq<Line>, off: int, off1: int, editline: nat,
      tail: nat)
    requires GoodHunk(h) && editline <= h.at && Fit([h] + rest, |orig|) && Fit(rest, |orig|)
    requires off1 == off + h.del - |h.ins| && tail == if h.del > 0 then h.at + h.del else editline
    requires EmitAll(HunkEdits(rest, off1), orig, tail) == Print(HunksCmds(Undo(rest, orig, off1)))
    ensures EmitAll(HunkEdits([h] + rest, off), orig, editline) == Print(HunksCmds(Undo([h] + rest, orig, off)))
  {
    hide EmitAll, Print, HeaderLine, HunkLines, HunkCmds;
    var us := Undo(rest, orig, off1);
    var es := HunkEdits(rest, off1);
    UndoStep(h, rest, orig, off);
    EmitStep(h, es, orig, off, editline);
    var u := Hunk(h.at - off, |h.ins|, orig[h.at..h.at + h.del]);
    PrintHunkCmds(u, HunksCmds(us));
    assert HunkEdits([h] + rest, off) == [HunkEdit(h, off)] + es by { assert ([h] + rest)[1..] == rest; }
    assert HunksCmds([u] + us) == HunkCmds(u) + HunksCmds(us) by { assert ([u] + us)[1..] == us; }
  }

  /** The forward pass writes exactly the undoing script. */
  lemma {:induction false} EmitHunks(hs: seq<Hunk>, orig: seq<Line>, off: int, editline: nat)
    requires editline <= |orig| && Ascending(hs, editline) && Fit(hs, |orig|)
    ensures EmitAll(HunkEdits(hs, off), orig, editline) == Print(HunksCmds(Undo(hs, orig, off)))
  {
    if hs != [] {
      hide EmitAll, Print, HunksCmds, HunkEdits, Undo;
      var h, rest := hs[0], hs[1..];
      assert hs == [h] + rest;
      var off1, next := off + h.del - |h.ins|, h.at + h.del;
      var tail := if h.del > 0 then next else editline;
      AscendingFrom(rest, next, tail);
      EmitHunks(rest, orig, off1, tail);
      EmitJoin(h, rest, orig, off, off1, editline, tail);
    }
  }

  lemma {:induction false} AscendingFrom(hs: seq<Hunk>, pos: int, before: int)
    requires Ascending(hs, pos) && before <= pos
    ensures Ascending(hs, before)
  {
  }

  // -------------------------------------------------------------- the theorem

  /** What the script to be reversed must look like: it is accepted as a whole,
      has no blank command line, numbers lines from one and never adds strictly
      inside the block it has just deleted. */
  predicate Reversible(rd: seq<Line>) {
    var sc := ParseScript(rd, START, false, false);
    sc.Some? && !sc.value.blank && Standard(sc.value.cmds)
  }

  function ScriptHunks(rd: seq<Line>): seq<Hunk>
    requires Reversible(rd)
  {
    Hunks(ParseScript(rd, START, false, false).value.cmds)
  }

  /** The new text in lines, when the script runs. */
  function NewText(rd: seq<Line>, orig: seq<Line>): Option<seq<Line>>
    requires Reversible(rd)
  {
    Run(ParseScript(rd, START, false, false).value.cmds, orig, 0)
  }

  lemma {:induction false} ScriptFacts(rd: seq<Line>, orig: seq<Line>)
    requires Reversible(rd) && NewText(rd, orig).Some?
    ensures Chain(ScriptHunks(rd)) && Ascending(ScriptHunks(rd), 0) && Fit(ScriptHunks(rd), |orig|)
    ensures Patch(ScriptHunks(rd), orig, 0) == NewText(rd, orig)
    ensures ReadEdits(rd, START) == Some(ParseScript(rd, START, false, false).value.cmds)
  {
    hide ParseScript;
    var cmds := ParseScript(rd, START, false, false).value.cmds;
    ReadersAgree(rd, START);
    HunksChain(cmds, START);
    var hs := Hunks(cmds);
    assert hs != [] ==> hs[0].at >= 0 by {
      if cmds != [] && cmds[0].Del? { assert cmds[0].where >= 1; }
    }
    ChainAscends(hs, 0);
    RunHunks(cmds, START, orig, 0);
    PatchFits(hs, orig, 0);
  }

  /** The reverser writes the printed undoing hunks. */
  lemma {:induction false} ReversedIsUndo(rd: seq<Line>, orig: seq<Line>)
    requires Reversible(rd) && NewText(rd, orig).Some?
    requires |NewText(rd, orig).value| <= LONG_MAX
    ensures Fit(ScriptHunks(rd), |orig|)
    ensures Reversed(rd, orig) == Some(Print(HunksCmds(Undo(ScriptHunks(rd), orig, 0))))
  {
    ScriptFacts(rd, orig);
    var cmds := ReadEdits(rd, START).value;
    var hs, new_ := ScriptHunks(rd), NewText(rd, orig).value;
    ReadersAgree(rd, START);
    assert new_[0..] == new_;
    UndoRestores(hs, orig, 0, 0, new_);
    EditListOfHunks(cmds, START, 0);
    var es := HunkEdits(hs, 0);
    HunkEditsSorted(hs, 0, orig, 0, |new_|);
    assert [] + es == es;
    SortIdles([], es);
    EmitHunks(hs, orig, 0, 0);
  }

  predicate SmallText(ls: seq<Line>) {
    |ls| < 0x7fff_ffff
  }

  /** The undoing script, printed, read back and run on the new text. */
  lemma {:induction false} UndoingScript(hs: seq<Hunk>, orig: seq<Line>, new_: seq<Line>)
    requires Chain(hs) && Ascending(hs, 0) && Fit(hs, |orig|) && Patch(hs, orig, 0) == Some(new_)
    requires SmallText(orig) && SmallText(new_)
    ensures var cmds := HunksCmds(Undo(hs, orig, 0));
            && ParseScript(Print(cmds), START, false, false)
               == (if Separated(hs) then Some(Script(cmds, Eof, false)) else None)
            && Run(cmds, new_, 0) == Some(orig)
  {
    hide ParseScript, Print;
    assert new_[0..] == new_ && orig[0..] == orig;
    UndoRestores(hs, orig, 0, 0, new_);
    var us := Undo(hs, orig, 0);
    UndoSmall(hs, orig, 0, |new_|);
    AcceptsHunks(us, START, 0);
    ParsePrinted(HunksCmds(us), START);
    RunHunksCmds(us, new_, 0);
    StartFits(hs, orig);
  }

  lemma {:induction false} StartFits(hs: seq<Hunk>, orig: seq<Line>)
    requires Chain(hs) && Fit(hs, |orig|)
    ensures Fits(Undo(hs, orig, 0), 0, false) <==> Separated(hs)
  {
    if hs != [] {
      assert hs == [hs[0]] + hs[1..];
      FirstFits(hs[0], hs[1..], orig);
    }
  }

  lemma {:induction false} FirstFits(h: Hunk, rest: seq<Hunk>, orig: seq<Line>)
    requires Chain([h] + rest) && Fit([h] + rest, |orig|)
    ensures Fits(Undo([h] + rest, orig, 0), 0, false) <==> Separated([h] + rest)
  {
    hide Chain, Separated, Fits;
    UndoStep(h, rest, orig, 0);
    UndoFits(h, rest, orig, 0);
    var u := Hunk(h.at, |h.ins|, orig[h.at..h.at + h.del]);
    assert |u.ins| == h.del;
    FitsFirst(u, Undo(rest, orig, h.del - |h.ins|));
  }

  lemma {:induction false} FitsFirst(u: Hunk, us: seq<Hunk>)
    ensures Fits([u] + us, 0, false) <==> Fits(us, u.at + u.del, u.ins != [])
  {
    assert ([u] + us)[1..] == us;
  }

  /** Reversing inverts applying: the written script turns the new text back
      into the old one exactly when no delete-only hunk of the input starts
      where a deleting hunk ended; otherwise the applier rejects it. */
  lemma {:induction false} ReverseInverts(rd: seq<Line>, orig: seq<Line>)
    requires Reversible(rd) && NewText(rd, orig).Some?
    requires SmallText(orig) && SmallText(NewText(rd, orig).value)
    ensures Reversed(rd, orig).Some?
    ensures Apply(Reversed(rd, orig).value, NewText(rd, orig).value, false)
         == if Separated(ScriptHunks(rd)) then Some(Concat(orig)) else None
  {
    hide ParseScript, Print, Reversed, Run, NewText, ScriptHunks;
    ScriptFacts(rd, orig);
    ReversedIsUndo(rd, orig);
    UndoingScript(ScriptHunks(rd), orig, NewText(rd, orig).value);
  }

  lemma {:induction false} UndoSmall(hs: seq<Hunk>, orig: seq<Line>, off: int, size: nat)
    requires Fit(hs, |orig|) && Fit(Undo(hs, orig, off), size)
    requires size < LONG_MAX && |orig| <= LONG_MAX
    ensures forall u :: u in Undo(hs, orig, off) ==> Small(u)
  {
    if hs != [] {
      assert hs == [hs[0]] + hs[1..];
      UndoStep(hs[0], hs[1..], orig, off);
      assert Undo(hs, orig, off)[1..] == Undo(hs[1..], orig, off + hs[0].del - |hs[0].ins|);
      UndoSmall(hs[1..], orig, off + hs[0].del - |hs[0].ins|, size);
    }
  }
}
