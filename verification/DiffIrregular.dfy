/** Scripts that are accepted but not regular: line zero, and adds strictly inside
    the lines just deleted. */
module DiffIrregular {
  import opened Lines
  import opened CNumbers
  import opened EditScript
  import opened EditScriptProofs
  import opened Reverse
  import opened DiffBlank

  // ---------------------------------------------------------- the sorted edit list

  predicate Above(es: seq<Edit>, k: int) {
    forall i :: 0 <= i < |es| ==> k <= es[i].key
  }

  predicate Below(es: seq<Edit>, k: int) {
    forall i :: 0 <= i < |es| ==> es[i].key <= k
  }

  lemma {:induction false} InsertAbove(pre: seq<Edit>, es: seq<Edit>, e: Edit)
    requires Below(pre, e.key)
    ensures InsertByKey(pre + es, e) == pre + InsertByKey(es, e)
    decreases |pre|
  {
    if pre == [] {
      assert pre + es == es && pre + InsertByKey(es, e) == InsertByKey(es, e);
    } else {
      assert (pre + es)[1..] == pre[1..] + es;
      InsertAbove(pre[1..], es, e);
      assert [pre[0]] + (pre[1..] + InsertByKey(es, e)) == pre + InsertByKey(es, e);
    }
  }

  /** Edits with higher keys stay behind those that are there already. */
  lemma {:induction false} InsertAllAbove(pre: seq<Edit>, es: seq<Edit>, more: seq<Edit>, k: int)
    requires Below(pre, k) && Above(more, k)
    ensures InsertAll(pre + es, more) == pre + InsertAll(es, more)
    decreases |more|
  {
    if more != [] {
      assert k <= more[0].key;
      InsertAbove(pre, es, more[0]);
      InsertAllAbove(pre, InsertByKey(es, more[0]), more[1..], k);
    }
  }

  lemma {:induction false} InsertAllPlus(es: seq<Edit>, a: seq<Edit>, b: seq<Edit>)
    ensures InsertAll(es, a + b) == InsertAll(InsertAll(es, a), b)
    decreases |a|
  {
    if a == [] {
      assert a + b == b;
    } else {
      assert (a + b)[1..] == a[1..] + b;
      InsertAllPlus(InsertByKey(es, a[0]), a[1..], b);
    }
  }

  lemma {:induction false} InsertGrows(es: seq<Edit>, e: Edit)
    ensures |InsertByKey(es, e)| == |es| + 1
  {
    if es != [] {
      InsertGrows(es[1..], e);
    }
  }

  lemma {:induction false} InsertAllGrows(es: seq<Edit>, more: seq<Edit>)
    ensures |InsertAll(es, more)| == |es| + |more|
    decreases |more|
  {
    if more != [] {
      InsertGrows(es, more[0]);
      InsertAllGrows(InsertByKey(es, more[0]), more[1..]);
    }
  }

  lemma {:induction false} SortedBelow(es: seq<Edit>, e: Edit)
    requires SortedEdits(es + [e])
    ensures Below(es, e.key)
    decreases |es|
  {
    if es != [] {
      assert (es + [e])[1..] == es[1..] + [e];
      SortedBelow(es[1..], e);
      LastIsLargest(es, e);
      forall i | 0 <= i < |es| ensures es[i].key <= e.key {
        if i > 0 { assert es[i] == es[1..][i - 1]; }
      }
    }
  }

  /** The keys of the edits of hunks. */
  lemma {:induction false} HunkKeysAbove(hs: seq<Hunk>, off: int, pos: int, k: int)
    requires Ascending(hs, pos) && k <= pos - off && k <= LONG_MAX
    ensures Above(HunkEdits(hs, off), k)
    decreases |hs|
  {
    if hs != [] {
      var h := hs[0];
      var rest := HunkEdits(hs[1..], off + h.del - |h.ins|);
      HunkKeysAbove(hs[1..], off + h.del - |h.ins|, h.at + h.del, k);
      var es := [HunkEdit(h, off)] + rest;
      forall i | 0 <= i < |es| ensures k <= es[i].key {
        if i > 0 { assert es[i] == rest[i - 1]; }
      }
    }
  }

  // --------------------------------------------------------------- the edit list

  function OffAfter(cmds: seq<Cmd>, off: int): int {
    if cmds == [] then off
    else OffAfter(cmds[1..], if cmds[0].Add? then off - |cmds[0].text| else off + cmds[0].count)
  }

  function PendAfter(cmds: seq<Cmd>, off: int, del: Option<Edit>): Option<Edit>
    decreases |cmds|
  {
    if cmds == [] then del
    else
      var s := EditStep(cmds[0], off, del);
      PendAfter(cmds[1..], s.offset, s.del)
  }

  function DoneBy(cmds: seq<Cmd>, off: int, del: Option<Edit>): seq<Edit>
    decreases |cmds|
  {
    if cmds == [] then []
    else
      var s := EditStep(cmds[0], off, del);
      s.done + DoneBy(cmds[1..], s.offset, s.del)
  }

  lemma {:induction false} EditListPlus(cmds: seq<Cmd>, rest: seq<Cmd>, off: int, del: Option<Edit>)
    ensures EditList(cmds + rest, off, del) ==
            DoneBy(cmds, off, del) + EditList(rest, OffAfter(cmds, off), PendAfter(cmds, off, del))
    decreases |cmds|
  {
    hide EditList, EditStep, OffAfter, PendAfter, DoneBy;
    if cmds == [] {
      NoEdit(rest, off, del);
    } else {
      var s := EditStep(cmds[0], off, del);
      OneEdit(cmds, rest, off, del);
      EditListPlus(cmds[1..], rest, s.offset, s.del);
      Joined(s.done, DoneBy(cmds[1..], s.offset, s.del),
          EditList(rest, OffAfter(cmds, off), PendAfter(cmds, off, del)));
    }
  }

  lemma {:induction false} NoEdit(rest: seq<Cmd>, off: int, del: Option<Edit>)
    ensures EditList([] + rest, off, del) ==
            DoneBy([], off, del) + EditList(rest, OffAfter([], off), PendAfter([], off, del))
  {
    assert [] + rest == rest && [] + EditList(rest, off, del) == EditList(rest, off, del);
  }

  lemma {:induction false} OneEdit(cmds: seq<Cmd>, rest: seq<Cmd>, off: int, del: Option<Edit>)
    requires cmds != []
    ensures var s := EditStep(cmds[0], off, del);
            && EditList(cmds + rest, off, del) == s.done + EditList(cmds[1..] + rest, s.offset, s.del)
            && OffAfter(cmds, off) == OffAfter(cmds[1..], s.offset)
            && PendAfter(cmds, off, del) == PendAfter(cmds[1..], s.offset, s.del)
            && DoneBy(cmds, off, del) == s.done + DoneBy(cmds[1..], s.offset, s.del)
  {
    assert (cmds + rest)[1..] == cmds[1..] + rest;
  }

  lemma {:induction false} PendingDelete(cmds: seq<Cmd>, d: Cmd, off: int, del: Option<Edit>)
    requires d.Del?
    ensures var o := OffAfter(cmds, off);
            && PendAfter(cmds + [d], off, del) == Some(Edit(d.where - 1 - o, false, o, 0))
            && OffAfter(cmds + [d], off) == o + d.count
    decreases |cmds|
  {
    if cmds == [] {
      assert cmds + [d] == [d] && [d][1..] == [];
    } else {
      assert (cmds + [d])[1..] == cmds[1..] + [d];
      var s := EditStep(cmds[0], off, del);
      PendingDelete(cmds[1..], d, s.offset, s.del);
    }
  }

  // -------------------------------------------------------------------- lengths

  lemma {:induction false} OffMoves(cmds: seq<Cmd>, off: int)
    ensures OffAfter(cmds, off) == off + OffAfter(cmds, 0)
    decreases |cmds|
  {
    if cmds != [] {
      var d := if cmds[0].Add? then -|cmds[0].text| else cmds[0].count;
      OffMoves(cmds[1..], off + d);
      OffMoves(cmds[1..], d);
    }
  }

  /** How long what has been written is. */
  lemma {:induction false} HeadLength(cmds: seq<Cmd>, g: Guard, orig: seq<Line>, pos: nat)
    requires Accepts(cmds, g) && pos <= |orig| && EndPos(cmds, pos) <= |orig|
    ensures |RunHead(cmds, orig, pos)| == EndPos(cmds, pos) - pos - OffAfter(cmds, 0)
    decreases |cmds|
  {
    if cmds != [] {
      var c := cmds[0];
      EndGrows(cmds[1..], To(c, pos));
      HeadLength(cmds[1..], NextGuard(HeaderOf(c), g), orig, To(c, pos));
      OffMoves(cmds[1..], if c.Add? then -|c.text| else c.count);
    }
  }

  lemma {:induction false} AddsFit(cmds: seq<Cmd>, orig: seq<Line>, pos: nat, i: nat)
    requires pos <= |orig| && Run(cmds, orig, pos).Some? && i < |cmds| && cmds[i].Add?
    ensures |cmds[i].text| <= |Run(cmds, orig, pos).value|
    decreases |cmds|
  {
    assert cmds == [cmds[0]] + cmds[1..];
    RunCons(cmds[0], cmds[1..], orig, pos);
    if i > 0 {
      AddsFit(cmds[1..], orig, To(cmds[0], pos), i - 1);
    }
  }

  lemma {:induction false} EndPlus(a: seq<Cmd>, b: seq<Cmd>, pos: nat)
    ensures EndPos(a + b, pos) == EndPos(b, EndPos(a, pos))
    decreases |a|
  {
    if a == [] {
      assert a + b == b;
    } else {
      assert (a + b)[1..] == a[1..] + b;
      EndPlus(a[1..], b, To(a[0], pos));
    }
  }

  // ------------------------------------------------------------------- emission

  /** Where the reading of the old text stands after some edits. */
  function EmitPos(es: seq<Edit>, offset: int, orig: seq<Line>, editline: nat): (p: nat)
    requires editline <= |orig|
    ensures p <= |orig|
    decreases |es|
  {
    if es == [] then editline
    else
      EmitPos(es[1..], offset, orig, EditEnd(es[0], if |es| > 1 then es[1].offset else offset, orig, editline))
  }

  lemma {:induction false} EmitPlus(es: seq<Edit>, x: Edit, more: seq<Edit>, orig: seq<Line>, pos: nat)
    requires pos <= |orig|
    ensures EmitAll(es + ([x] + more), orig, pos) ==
            EmitAll(es + [x], orig, pos) + EmitAll([x] + more, orig, EmitPos(es, x.offset, orig, pos))
    decreases |es|
  {
    hide HeaderLine;
    if es == [] {
      assert es + ([x] + more) == [x] + more && es + [x] == [x];
      assert [] + EmitAll([x] + more, orig, pos) == EmitAll([x] + more, orig, pos);
    } else {
      var next := if |es| > 1 then es[1].offset else x.offset;
      var q := EditEnd(es[0], next, orig, pos);
      EmitPosStep(es, x.offset, orig, pos);
      EmitPlus(es[1..], x, more, orig, q);
      EmitHead(es, [x] + more, x.offset, orig, pos);
      EmitHead(es, [x], x.offset, orig, pos);
      hide EmitAll, EmitPos, EmitOne, EditEnd, Seek;
      Joined(EmitOne(es[0], next, orig, pos), EmitAll(es[1..] + [x], orig, q),
             EmitAll([x] + more, orig, EmitPos(es, x.offset, orig, pos)));
    }
  }

  lemma {:induction false} Joined<T>(a: seq<T>, b: seq<T>, c: seq<T>)
    ensures a + (b + c) == a + b + c
  {
  }

  lemma {:induction false} EmitHead(es: seq<Edit>, tail: seq<Edit>, offset: int, orig: seq<Line>, pos: nat)
    requires pos <= |orig| && es != [] && tail != [] && tail[0].offset == offset
    ensures var next := if |es| > 1 then es[1].offset else offset;
            EmitAll(es + tail, orig, pos) ==
            EmitOne(es[0], next, orig, pos) + EmitAll(es[1..] + tail, orig, EditEnd(es[0], next, orig, pos))
  {
    hide EmitAll, EmitOne, EditEnd;
    var rest := es[1..] + tail;
    assert es + tail == [es[0]] + rest;
    EmitFirst(es[0], rest, rest[0].offset, orig, pos);
  }

  lemma {:induction false} EmitPosStep(es: seq<Edit>, offset: int, orig: seq<Line>, pos: nat)
    requires pos <= |orig| && es != []
    ensures var next := if |es| > 1 then es[1].offset else offset;
            EmitPos(es, offset, orig, pos) == EmitPos(es[1..], offset, orig, EditEnd(es[0], next, orig, pos))
  {
  }

  /** Where the reading of the old text stands after an edit. */
  function EditEnd(e: Edit, next: int, orig: seq<Line>, pos: nat): (q: nat)
    requires pos <= |orig|
    ensures q <= |orig|
  {
    var deleted := if e.havetext then e.count else 0;
    var added := deleted + next - e.offset;
    var start := e.key - deleted + 1 + e.offset;
    if added <= 0 then pos else Seek(Seek(pos, start - 1, |orig|), start + added - 1, |orig|)
  }

  /** The lines written for one edit. */
  function EmitOne(e: Edit, next: int, orig: seq<Line>, pos: nat): seq<Line>
    requires pos <= |orig|
  {
    var deleted := if e.havetext then e.count else 0;
    var added := deleted + next - e.offset;
    var start := e.key - deleted + 1 + e.offset;
    var p := Seek(pos, start - 1, |orig|);
    (if deleted > 0 then [HeaderLine('d', e.key - deleted + 1, deleted)] else []) +
    (if added <= 0 then [] else [HeaderLine('a', e.key, added)] + orig[p..Seek(p, start + added - 1, |orig|)])
  }

  lemma {:induction false} EmitFirst(e: Edit, rest: seq<Edit>, next: int, orig: seq<Line>, pos: nat)
    requires pos <= |orig| && rest != [] && rest[0].offset == next
    ensures EmitAll([e] + rest, orig, pos) ==
            EmitOne(e, next, orig, pos) + EmitAll(rest, orig, EditEnd(e, next, orig, pos))
  {
    hide HeaderLine, Seek;
    assert ([e] + rest)[1..] == rest;
  }

  /** Of the last edit only the offset matters. */
  lemma {:induction false} EmitSame(es: seq<Edit>, x: Edit, y: Edit, orig: seq<Line>, pos: nat)
    requires pos <= |orig| && x.offset == y.offset
    ensures EmitAll(es + [x], orig, pos) == EmitAll(es + [y], orig, pos)
    decreases |es|
  {
    hide HeaderLine, Seek;
    if es == [] {
      assert es + [x] == [x] && es + [y] == [y];
    } else {
      var e := es[0];
      var next := if |es| > 1 then es[1].offset else x.offset;
      var q := EditEnd(e, next, orig, pos);
      EmitFirst(e, es[1..] + [x], next, orig, pos);
      EmitFirst(e, es[1..] + [y], next, orig, pos);
      assert es + [x] == [e] + (es[1..] + [x]) && es + [y] == [e] + (es[1..] + [y]);
      EmitSame(es[1..], x, y, orig, q);
    }
  }

  // -------------------------------------------------------------------- parsing

  function GuardAfter(cmds: seq<Cmd>, g: Guard): Guard {
    if cmds == [] then g else GuardAfter(cmds[1..], NextGuard(HeaderOf(cmds[0]), g))
  }

  lemma {:induction false} GuardPlus(a: seq<Cmd>, b: seq<Cmd>, g: Guard)
    ensures GuardAfter(a + b, g) == GuardAfter(b, GuardAfter(a, g))
    decreases |a|
  {
    if a == [] {
      assert a + b == b;
    } else {
      assert (a + b)[1..] == a[1..] + b;
      GuardPlus(a[1..], b, NextGuard(HeaderOf(a[0]), g));
    }
  }

  /** A printed script with something behind it that is rejected there. */
  lemma {:induction false} RejectedBehind(cmds: seq<Cmd>, tail: seq<Line>, g: Guard)
    requires Printable(cmds) && ParseScript(tail, GuardAfter(cmds, g), false, false) == None
    ensures ParseScript(Print(cmds) + tail, g, false, false) == None
    decreases |cmds|
  {
    if cmds == [] {
      assert Print(cmds) + tail == tail;
    } else {
      var c, rest := cmds[0], cmds[1..];
      assert InLong(c.where) && 0 < HeaderOf(c).count <= LONG_MAX && Printable(rest);
      assert GuardAfter(cmds, g) == GuardAfter(rest, NextGuard(HeaderOf(c), g));
      assert Print(cmds) == PrintCmd(c) + Print(rest);
      hide ParseScript, Print, PrintCmd, Printable, GuardAfter, NextGuard, InLong;
      RejectedBehind(rest, tail, NextGuard(HeaderOf(c), g));
      BehindStep(c, Print(rest), tail, g);
    }
  }

  lemma {:induction false} BehindStep(c: Cmd, rest: seq<Line>, tail: seq<Line>, g: Guard)
    requires InLong(c.where) && 0 < HeaderOf(c).count <= LONG_MAX
    requires ParseScript(rest + tail, NextGuard(HeaderOf(c), g), false, false) == None
    ensures ParseScript(PrintCmd(c) + rest + tail, g, false, false) == None
  {
    hide ParseScript, PrintCmd, InOrder;
    ParseStep(c, rest + tail, g);
    assert PrintCmd(c) + (rest + tail) == PrintCmd(c) + rest + tail;
  }

  lemma {:induction false} RejectedHeader(kind: char, where: int, count: int, more: seq<Line>, g: Guard)
    requires (kind == 'a' || kind == 'd') && InLong(where) && 0 < count <= LONG_MAX
    requires where < 0 || !InOrder(Header(kind == 'a', where, count), g)
    ensures ParseScript([HeaderLine(kind, where, count)] + more, g, false, false) == None
  {
    hide ParseHeader, CString, HeaderLine;
    ParsePrintedHeader(kind, where, count);
    HeaderChars(kind, where, count);
    var line := HeaderLine(kind, where, count);
    assert CString(line)[0] == kind;
    assert ([line] + more)[0] == line;
  }

  // ------------------------------------------------------------------- line zero

  /** A script that deletes from line zero, goes on behind the deleted lines, and
      otherwise is as it should be. */
  predicate ZeroBehind(cmds: seq<Cmd>) {
    && cmds != [] && cmds[0].Del? && cmds[0].where == 0 && Accepts(cmds, START) && Standard(cmds[1..])
    && (|cmds| > 1 && cmds[1].Add? ==> cmds[1].where >= cmds[0].count)
  }

  lemma {:induction false} ZeroHunks(cmds: seq<Cmd>, orig: seq<Line>)
    requires ZeroBehind(cmds) && Run(cmds, orig, 0).Some?
    requires SmallText(orig) && SmallText(Run(cmds, orig, 0).value)
    ensures var n, hs := cmds[0].count, Hunks(cmds[1..]);
            && Ascending(hs, n - 1) && EditList(cmds[1..], n, None) == HunkEdits(hs, n)
            && (hs != [] ==> HunkEdits(hs, n)[0].key <= LONG_MAX)
  {
    var rest, n := cmds[1..], cmds[0].count;
    var g := NextGuard(HeaderOf(cmds[0]), START);
    HunksChain(rest, g);
    EditListOfHunks(rest, g, n);
    ChainAscends(Hunks(rest), n - 1);
    if rest != [] {
      var h := Hunks(rest)[0];
      if rest[0].Add? { AddsFit(cmds, orig, 0, 1); }
      if |rest| > 1 && rest[1].Add? { AddsFit(cmds, orig, 0, 2); }
      assert h.ins == [] || (rest[0].Add? && h.ins == rest[0].text) ||
             (|rest| > 1 && rest[1].Add? && h.ins == rest[1].text);
      ZeroSmall(cmds, orig);
    }
  }

  lemma {:induction false} ZeroSmall(cmds: seq<Cmd>, orig: seq<Line>)
    requires |cmds| > 1 && Run(cmds, orig, 0).Some?
    ensures (if cmds[1].Add? then cmds[1].where else cmds[1].where - 1) <= |orig|
  {
    RunEnds(cmds, orig, 0);
    EndGrows(cmds[2..], To(cmds[1], To(cmds[0], 0)));
    assert cmds[1..][1..] == cmds[2..];
  }

  /** What is written for such a script begins with a line number below zero, and is
      rejected, whatever the text. */
  lemma {:induction false} ZeroBehindRejected(cmds: seq<Cmd>, orig: seq<Line>, text: seq<Line>)
    requires ZeroBehind(cmds) && Run(cmds, orig, 0).Some?
    requires SmallText(orig) && SmallText(Run(cmds, orig, 0).value)
    ensures Apply(EmitAll(InsertAll([], EditList(cmds, 0, None)), orig, 0), text, false) == None
  {
    var n, hs := cmds[0].count, Hunks(cmds[1..]);
    ZeroEdits(cmds, orig);
    var d, sorted := Edit(-1, false, 0, 0), InsertAll([], HunkEdits(hs, n));
    hide EditList, InsertAll, HunkEdits, Hunks, ParseScript, HeaderLine, Run, Accepts, Standard, Seek;
    EmitFirst(d, sorted, n, orig, 0);
    var script := EmitAll([d] + sorted, orig, 0);
    assert script == [HeaderLine('a', -1, n)] + script[1..];
    RejectedHeader('a', -1, n, script[1..], START);
  }

  lemma {:induction false} ZeroEdits(cmds: seq<Cmd>, orig: seq<Line>)
    requires ZeroBehind(cmds) && Run(cmds, orig, 0).Some?
    requires SmallText(orig) && SmallText(Run(cmds, orig, 0).value)
    ensures var d, n, hs := Edit(-1, false, 0, 0), cmds[0].count, Hunks(cmds[1..]);
            var sorted := InsertAll([], HunkEdits(hs, n));
            && InsertAll([], EditList(cmds, 0, None)) == [d] + sorted
            && sorted != [] && sorted[0].offset == n && 0 < n <= LONG_MAX
  {
    var rest, n := cmds[1..], cmds[0].count;
    var hs, d := Hunks(rest), Edit(-1, false, 0, 0);
    ZeroHunks(cmds, orig);
    assert cmds == [cmds[0]] + rest;
    EditListFirst(cmds[0], rest, 0, d);
    PendingWaits(rest, n, d);
    hide EditList, InsertAll, HunkEdits, Hunks, Run, Standard;
    FirstStays(d, hs, n, n - 1);
  }

  lemma {:induction false} FirstStays(d: Edit, hs: seq<Hunk>, off: int, pos: int)
    requires Ascending(hs, pos) && d.key <= pos - off && d.key <= LONG_MAX
    requires hs != [] ==> HunkEdits(hs, off)[0].key <= LONG_MAX
    ensures var more := HunkEdits(hs, off);
            && InsertAll([], [d] + more) == [d] + InsertAll([], more)
            && InsertAll([], more) != [] && InsertAll([], more)[0].offset == off
  {
    var more := HunkEdits(hs, off);
    HunkKeysAbove(hs, off, pos, d.key);
    InsertAllPlus([], [d], more);
    assert [d][1..] == [] && [d] + [] == [d];
    InsertAllAbove([d], [], more, d.key);
    if hs == [] {
      assert more[1..] == [];
    } else {
      var h := hs[0];
      HunkKeysAbove(hs[1..], off + h.del - |h.ins|, h.at + h.del, more[0].key);
      assert more == [more[0]] + more[1..] && [more[0]] + [] == [more[0]];
      InsertAllPlus([], [more[0]], more[1..]);
      assert [more[0]][1..] == [];
      InsertAllAbove([more[0]], [], more[1..], more[0].key);
    }
  }

  // --------------------------------------------- an add inside the deleted lines

  /** A regular script, then a delete and an add strictly inside the deleted lines,
      with at least as much text as there are deleted lines behind its place, then
      again a regular script. */
  predicate Inside(first: seq<Cmd>, d: Cmd, a: Cmd, more: seq<Cmd>) {
    && d.Del? && a.Add? && Accepts(first + [d] + [a] + more, START) && Standard(first + [d]) && Standard(more)
    && a.where < d.where + d.count - 1 && |a.text| >= d.where + d.count - 1 - a.where
  }

  /** The edits of the regular part and of the pair. */
  lemma {:induction false} InsideEdits(first: seq<Cmd>, d: Cmd, a: Cmd, more: seq<Cmd>)
    requires Inside(first, d, a, more)
    ensures var off := OffAfter(first, 0);
            var e, x := Edit(d.where - 1 - off, false, off, 0),
                Edit(a.where + |a.text| - off - d.count, true, off + d.count, |a.text|);
            var pre := DoneBy(first + [d], 0, None) + [e];
            && EditList(first + [d], 0, None) == pre + [Sentinel(off + d.count)]
            && EditList(first + [d] + [a] + more, 0, None) == pre + [x] + EditList(more, off + d.count - |a.text|, None)
  {
    hide DoneBy, OffAfter, PendAfter, EditList, Accepts, Standard;
    var off, two := OffAfter(first, 0), first + [d];
    var e, x := Edit(d.where - 1 - off, false, off, 0),
        Edit(a.where + |a.text| - off - d.count, true, off + d.count, |a.text|);
    PendingDelete(first, d, 0, None);
    EditListPlus(two, [], 0, None);
    EditListPlus(two, [a] + more, 0, None);
    assert two + [] == two && two + ([a] + more) == two + [a] + more;
    AddWaits(a, more, off + d.count, e);
    JoinEdits(DoneBy(two, 0, None), e, x, EditList(more, off + d.count - |a.text|, None), Sentinel(off + d.count));
  }

  lemma {:induction false} AddWaits(a: Cmd, more: seq<Cmd>, off: int, e: Edit)
    requires a.Add? && e.key != a.where - off
    ensures EditList([], off, Some(e)) == [e] + [Sentinel(off)]
    ensures EditList([a] + more, off, Some(e)) ==
            [e] + [Edit(a.where + |a.text| - off, true, off, |a.text|)] + EditList(more, off - |a.text|, None)
  {
    assert ([a] + more)[1..] == more;
  }

  lemma {:induction false} JoinEdits(done: seq<Edit>, e: Edit, x: Edit, more: seq<Edit>, s: Edit)
    ensures done + ([e] + [x] + more) == done + [e] + [x] + more
    ensures done + ([e] + [s]) == done + [e] + [s]
  {
  }

  /** Prefix facts of such a script. */
  lemma {:induction false} InsideParts(first: seq<Cmd>, d: Cmd, a: Cmd, more: seq<Cmd>, orig: seq<Line>)
    requires Inside(first, d, a, more) && Run(first + [d] + [a] + more, orig, 0).Some?
    requires SmallText(orig) && SmallText(Run(first + [d] + [a] + more, orig, 0).value)
    ensures Accepts(first + [d], START) && Run(first + [d], orig, 0).Some? && EndPos(first, 0) < d.where
    ensures |Run(first + [d], orig, 0).value| < LONG_MAX && d.where - 1 + d.count <= |orig|
    ensures var off := OffAfter(first, 0);
            && 0 <= d.where - 1 - off && d.where - 1 - off + |a.text| <= LONG_MAX
            && off + d.count <= |orig| && 0 < |a.text| && d.where <= a.where
  {
    var two, three := first + [d], first + [d] + [a];
    assert three + more == two + ([a] + more);
    AcceptsPrefix(two, [a] + more, START);
    AcceptsPrefix(three, more, START);
    RunPlus(three, more, orig, 0);
    RunPlus(two, [a] + more, orig, 0);
    RunEnds(two, orig, 0);
    FirstNamed(first, [d]);
    NextReaches(first, d, START, 0);
    EndPlus(first, [d], 0);
    EndPlus(two, [a], 0);
    EndGrows(first, 0);
    assert [d][1..] == [] && [a][1..] == [];
    InsideOrder(first, d, a, more);
    HeadLength(three, START, orig, 0);
    HeadLength(two, START, orig, 0);
    PendingDelete(first, d, 0, None);
    OffPlus(two, a);
    AcceptsPrefix(first, [d], START);
    HeadLength(first, START, orig, 0);
    hide Standard, Accepts, Run, RunHead, EndPos, OffAfter;
    assert |RunHead(three, orig, 0)| <= |Run(three + more, orig, 0).value|;
  }

  lemma {:induction false} OffPlus(cmds: seq<Cmd>, a: Cmd)
    requires a.Add?
    ensures OffAfter(cmds + [a], 0) == OffAfter(cmds, 0) - |a.text|
  {
    OffSnoc(cmds, a, 0);
  }

  lemma {:induction false} OffSnoc(cmds: seq<Cmd>, a: Cmd, off: int)
    requires a.Add?
    ensures OffAfter(cmds + [a], off) == OffAfter(cmds, off) - |a.text|
    decreases |cmds|
  {
    if cmds == [] {
      assert cmds + [a] == [a] && [a][1..] == [];
    } else {
      assert (cmds + [a])[1..] == cmds[1..] + [a];
      OffSnoc(cmds[1..], a, if cmds[0].Add? then off - |cmds[0].text| else off + cmds[0].count);
    }
  }

  lemma {:induction false} AcceptsSuffix(a: seq<Cmd>, b: seq<Cmd>, g: Guard)
    requires Accepts(a + b, g)
    ensures Accepts(b, GuardAfter(a, g))
    decreases |a|
  {
    if a == [] {
      assert a + b == b;
    } else {
      assert (a + b)[1..] == a[1..] + b;
      AcceptsSuffix(a[1..], b, NextGuard(HeaderOf(a[0]), g));
    }
  }

  lemma {:induction false} TwoGuards(d: Cmd, a: Cmd, g: Guard)
    requires a.Add?
    ensures GuardAfter([d] + [a], g).lasta == a.where + 1
  {
    assert ([d] + [a])[1..] == [a] && [a][1..] == [];
    var g1 := NextGuard(HeaderOf(d), g);
    assert GuardAfter([d] + [a], g) == GuardAfter([a], g1) == GuardAfter([], NextGuard(HeaderOf(a), g1));
  }

  lemma {:induction false} InsideOrder(first: seq<Cmd>, d: Cmd, a: Cmd, more: seq<Cmd>)
    requires Inside(first, d, a, more)
    ensures d.where <= a.where && 0 < |a.text|
    ensures GuardAfter(first + [d] + [a], START).lasta == a.where + 1
    ensures Accepts(more, GuardAfter(first + [d] + [a], START))
  {
    var cmds := first + [d] + [a] + more;
    assert cmds == first + ([d] + ([a] + more)) && cmds == (first + [d] + [a]) + more;
    AcceptsSuffix(first, [d] + ([a] + more), START);
    AcceptsSuffix(first + [d] + [a], more, START);
    assert ([d] + ([a] + more))[1..] == [a] + more && ([a] + more)[1..] == more;
    GuardPlus(first, [d] + [a], START);
    assert first + ([d] + [a]) == first + [d] + [a];
    TwoGuards(d, a, GuardAfter(first, START));
  }

  /** The insertion sort leaves the edits up to the add as they are. */
  lemma {:induction false} InsideSorted(first: seq<Cmd>, d: Cmd, a: Cmd, more: seq<Cmd>, orig: seq<Line>)
      returns (pre: seq<Edit>, x: Edit, rest: seq<Edit>)
    requires Inside(first, d, a, more) && Run(first + [d] + [a] + more, orig, 0).Some?
    requires SmallText(orig) && SmallText(Run(first + [d] + [a] + more, orig, 0).value)
    ensures var off := OffAfter(first, 0);
            && x == Edit(a.where + |a.text| - off - d.count, true, off + d.count, |a.text|) && rest != []
            && EditList(first + [d], 0, None) == pre + [Sentinel(off + d.count)]
            && InsertAll([], EditList(first + [d] + [a] + more, 0, None)) == pre + ([x] + rest)
  {
    var off := OffAfter(first, 0);
    var e := Edit(d.where - 1 - off, false, off, 0);
    InsideEdits(first, d, a, more);
    InsideParts(first, d, a, more, orig);
    InsideOrder(first, d, a, more);
    x := Edit(a.where + |a.text| - off - d.count, true, off + d.count, |a.text|);
    pre := DoneBy(first + [d], 0, None) + [e];
    var off2 := off + d.count - |a.text|;
    var later := EditList(more, off2, None);
    LaterAbove(more, GuardAfter(first + [d] + [a], START), off2, x.key);
    RegularSorted(first + [d], orig);
    rest := InsertAll([], later);
    InsertAllGrows([], later);
    hide EditList, InsertAll, Run, Accepts, Standard, DoneBy, OffAfter, SortedEdits;
    PrefixSorted(DoneBy(first + [d], 0, None), e, Sentinel(off + d.count), x);
    SortedStays(pre, x, later);
  }

  lemma {:induction false} SortedStays(pre: seq<Edit>, x: Edit, later: seq<Edit>)
    requires SortedEdits(pre + [x]) && Above(later, x.key)
    ensures InsertAll([], pre + [x] + later) == pre + ([x] + InsertAll([], later))
  {
    assert [] + (pre + [x]) == pre + [x] && pre + [x] + [] == pre + [x];
    SortIdles([], pre + [x]);
    InsertAllPlus([], pre + [x], later);
    SortedBelow(pre, x);
    InsertAllAbove(pre + [x], [], later, x.key);
    assert pre + [x] + InsertAll([], later) == pre + ([x] + InsertAll([], later));
  }

  lemma {:induction false} PrefixSorted(done: seq<Edit>, e: Edit, s: Edit, x: Edit)
    requires SortedEdits(done + [e] + [s]) && e.key <= x.key
    ensures SortedEdits(done + [e] + [x])
    decreases |done|
  {
    if done == [] {
      assert done + [e] + [x] == [e, x] && [e, x][1..] == [x];
    } else {
      assert (done + [e] + [s])[1..] == done[1..] + [e] + [s];
      assert (done + [e] + [x])[1..] == done[1..] + [e] + [x];
      PrefixSorted(done[1..], e, s, x);
    }
  }

  lemma {:induction false} LaterAbove(more: seq<Cmd>, g: Guard, off: int, k: int)
    requires Standard(more) && Accepts(more, g) && k <= g.lasta - 1 - off && k <= LONG_MAX
    ensures EditList(more, off, None) != [] && Above(EditList(more, off, None), k)
  {
    EditListOfHunks(more, g, off);
    HunksChain(more, g);
    var hs := Hunks(more);
    ChainAscends(hs, if hs == [] then g.lasta - 1 else hs[0].at);
    HunkKeysAbove(hs, off, if hs == [] then g.lasta - 1 else hs[0].at, k);
  }

  lemma {:induction false} RegularSorted(cmds: seq<Cmd>, orig: seq<Line>)
    requires Standard(cmds) && Accepts(cmds, START) && Run(cmds, orig, 0).Some? &&
             |Run(cmds, orig, 0).value| <= LONG_MAX
    ensures SortedEdits(EditList(cmds, 0, None))
  {
    var new_ := Run(cmds, orig, 0).value;
    EmittedIsUndo(cmds, orig, new_);
    assert new_[0..] == new_;
    UndoRestores(Hunks(cmds), orig, 0, 0, new_);
    EditListOfHunks(cmds, START, 0);
    HunkEditsSorted(Hunks(cmds), 0, orig, 0, |new_|);
  }

  // ------------------------------------------ the guard behind the undone delete

  lemma {:induction false} HunksPair(cmds: seq<Cmd>)
    requires |cmds| > 1 && Replaces(cmds[0], cmds[1])
    ensures Hunks(cmds) == [Hunk(cmds[0].where - 1, cmds[0].count, cmds[1].text)] + Hunks(cmds[2..])
  {
  }

  lemma {:induction false} HunksOne(cmds: seq<Cmd>)
    requires cmds != [] && !(|cmds| > 1 && Replaces(cmds[0], cmds[1]))
    ensures var c := cmds[0];
            Hunks(cmds) ==
            [if c.Add? then Hunk(c.where, 0, c.text) else Hunk(c.where - 1, c.count, [])] + Hunks(cmds[1..])
  {
  }

  lemma {:induction false} HunksSnoc(cmds: seq<Cmd>, d: Cmd)
    requires d.Del?
    ensures Hunks(cmds + [d]) == Hunks(cmds) + [Hunk(d.where - 1, d.count, [])]
    decreases |cmds|
  {
    var all := cmds + [d];
    if cmds == [] {
      assert all == [d] && [d][1..] == [];
    } else {
      hide Hunks;
      assert all[0] == cmds[0] && all[1..] == cmds[1..] + [d];
      if |cmds| > 1 && Replaces(cmds[0], cmds[1]) {
        assert all[1] == cmds[1] && all[2..] == cmds[2..] + [d];
        HunksSnoc(cmds[2..], d);
        HunksPair(all);
        HunksPair(cmds);
      } else {
        HunksSnoc(cmds[1..], d);
        assert |cmds| > 1 ==> all[1] == cmds[1];
        HunksOne(all);
        HunksOne(cmds);
      }
    }
  }

  function Net(hs: seq<Hunk>): int {
    if hs == [] then 0 else hs[0].del - |hs[0].ins| + Net(hs[1..])
  }

  lemma {:induction false} NetCons(h: Hunk, hs: seq<Hunk>)
    ensures Net([h] + hs) == h.del - |h.ins| + Net(hs)
  {
    assert ([h] + hs)[1..] == hs;
  }

  /** How far a command shifts what follows. */
  function Shift(c: Cmd): int {
    if c.Add? then -|c.text| else c.count
  }

  lemma {:induction false} NetOff(cmds: seq<Cmd>, off: int)
    ensures OffAfter(cmds, off) == off + Net(Hunks(cmds))
    decreases |cmds|
  {
    if cmds != [] {
      var c := cmds[0];
      hide Net;
      if c.Del? && |cmds| > 1 && Replaces(c, cmds[1]) {
        assert cmds[1..][1..] == cmds[2..];
        NetOff(cmds[2..], off + c.count - |cmds[1].text|);
        NetCons(Hunk(c.where - 1, c.count, cmds[1].text), Hunks(cmds[2..]));
      } else {
        NetOff(cmds[1..], off + Shift(c));
        NetCons(if c.Add? then Hunk(c.where, 0, c.text) else Hunk(c.where - 1, c.count, []), Hunks(cmds[1..]));
      }
    } else {
      assert Net([]) == 0;
    }
  }

  lemma {:induction false} UndoSnoc(hs: seq<Hunk>, h: Hunk, orig: seq<Line>, off: int)
    requires Fit(hs + [h], |orig|)
    ensures Fit(hs, |orig|) && 0 <= h.at <= h.at + h.del <= |orig|
    ensures Undo(hs + [h], orig, off) ==
            Undo(hs, orig, off) + [Hunk(h.at - off - Net(hs), |h.ins|, orig[h.at..h.at + h.del])]
    decreases |hs|
  {
    if hs == [] {
      assert hs + [h] == [h] && [h][1..] == [];
    } else {
      assert (hs + [h])[1..] == hs[1..] + [h];
      UndoSnoc(hs[1..], h, orig, off + hs[0].del - |hs[0].ins|);
    }
  }

  lemma {:induction false} CmdsSnoc(hs: seq<Hunk>, h: Hunk)
    ensures HunksCmds(hs + [h]) == HunksCmds(hs) + HunkCmds(h)
    decreases |hs|
  {
    if hs == [] {
      assert hs + [h] == [h] && [h][1..] == [];
      assert HunkCmds(h) + [] == HunkCmds(h) && [] + HunkCmds(h) == HunkCmds(h);
    } else {
      assert (hs + [h])[1..] == hs[1..] + [h];
      CmdsSnoc(hs[1..], h);
      assert HunkCmds(hs[0]) + (HunksCmds(hs[1..]) + HunkCmds(h)) == HunkCmds(hs[0]) + HunksCmds(hs[1..]) + HunkCmds(h);
    }
  }

  /** What is written for a regular script that ends with a delete ends by adding the
      deleted lines again. */
  lemma {:induction false} UndoneDelete(first: seq<Cmd>, d: Cmd, orig: seq<Line>)
    requires d.Del? && d.count > 0 && Fit(Hunks(first + [d]), |orig|)
    ensures GuardAfter(HunksCmds(Undo(Hunks(first + [d]), orig, 0)), START).lasta == d.where - OffAfter(first, 0)
  {
    var h := Hunk(d.where - 1, d.count, []);
    var hs := Hunks(first);
    HunksSnoc(first, d);
    NetOff(first, 0);
    UndoSnoc(hs, h, orig, 0);
    var u := Hunk(h.at - Net(hs), 0, orig[h.at..h.at + h.del]);
    CmdsSnoc(Undo(hs, orig, 0), u);
    var add := Add(u.at, u.ins);
    assert HunkCmds(u) == [] + [add] == [add] && [add][1..] == [];
    GuardPlus(HunksCmds(Undo(hs, orig, 0)), [add], START);
  }

  /** What is written for an add strictly inside the lines just deleted is rejected,
      whatever the text, when the add has at least as many lines as were deleted
      behind its place: the reverser puts the deleted lines back first and then
      deletes lines before them. */
  lemma {:induction false} InsideRejected(
      first: seq<Cmd>, d: Cmd, a: Cmd, more: seq<Cmd>, orig: seq<Line>, text: seq<Line>)
    requires Inside(first, d, a, more) && Run(first + [d] + [a] + more, orig, 0).Some?
    requires SmallText(orig) && SmallText(Run(first + [d] + [a] + more, orig, 0).value)
    ensures Apply(EmitAll(InsertAll([], EditList(first + [d] + [a] + more, 0, None)), orig, 0), text, false) == None
  {
    hide EditList, InsertAll, Run, Standard, EmitAll, ParseScript, HeaderLine, Accepts, OffAfter;
    var off := OffAfter(first, 0);
    var pre, x, rest := InsideSorted(first, d, a, more, orig);
    InsideParts(first, d, a, more, orig);
    UndonePrinted(first, d, pre, x, orig);
    EmitPlus(pre, x, rest, orig, 0);
    var q := EmitPos(pre, x.offset, orig, 0);
    var cmds := HunksCmds(Undo(Hunks(first + [d]), orig, 0));
    var where := x.key - |a.text| + 1;
    AddDeletes(x, rest, orig, q);
    var tail := EmitAll([x] + rest, orig, q);
    var g := GuardAfter(cmds, START);
    assert where <= d.where - 1 - off;
    RejectedHeader('d', where, |a.text|, tail[1..], g);
    RejectedBehind(cmds, tail, START);
  }

  lemma {:induction false} AddDeletes(x: Edit, rest: seq<Edit>, orig: seq<Line>, q: nat)
    requires rest != [] && x.havetext && x.count > 0 && q <= |orig|
    ensures var tail := EmitAll([x] + rest, orig, q);
            tail != [] && tail == [HeaderLine('d', x.key - x.count + 1, x.count)] + tail[1..]
  {
    hide HeaderLine, Seek;
    EmitFirst(x, rest, rest[0].offset, orig, q);
  }

  lemma {:induction false} UndonePrinted(first: seq<Cmd>, d: Cmd, pre: seq<Edit>, x: Edit, orig: seq<Line>)
    requires d.Del? && Standard(first + [d]) && Accepts(first + [d], START) && Run(first + [d], orig, 0).Some?
    requires |Run(first + [d], orig, 0).value| < LONG_MAX && SmallText(orig) && d.count > 0
    requires EditList(first + [d], 0, None) == pre + [Sentinel(x.offset)]
    ensures Fit(Hunks(first + [d]), |orig|)
    ensures var cmds := HunksCmds(Undo(Hunks(first + [d]), orig, 0));
            && EmitAll(pre + [x], orig, 0) == Print(cmds) && Printable(cmds)
            && GuardAfter(cmds, START).lasta == d.where - OffAfter(first, 0)
  {
    var two, new_ := first + [d], Run(first + [d], orig, 0).value;
    EmittedIsUndo(two, orig, new_);
    RegularSorted(two, orig);
    var es := EditList(two, 0, None);
    hide EditList, Run, Standard, Accepts, EmitAll, Hunks, Undo, Print, HunksCmds, OffAfter;
    assert [] + es == es;
    SortIdles([], es);
    EmitSame(pre, x, Sentinel(x.offset), orig, 0);
    UndoneDelete(first, d, orig);
    UndonePrintable(two, orig, new_);
  }

  lemma {:induction false} UndonePrintable(cmds: seq<Cmd>, orig: seq<Line>, new_: seq<Line>)
    requires Standard(cmds) && Accepts(cmds, START) && Run(cmds, orig, 0) == Some(new_) && |new_| < LONG_MAX &&
             SmallText(orig)
    ensures Fit(Hunks(cmds), |orig|) && Printable(HunksCmds(Undo(Hunks(cmds), orig, 0)))
  {
    EmittedIsUndo(cmds, orig, new_);
    assert new_[0..] == new_ && orig[0..] == orig;
    UndoRestores(Hunks(cmds), orig, 0, 0, new_);
    UndoSmall(Hunks(cmds), orig, 0, |new_|);
    AcceptsHunks(Undo(Hunks(cmds), orig, 0), START, 0);
  }

  // ------------------------------------- irregular: it depends on the text as well

  const X: Line := "x\n"

  /** Two adds strictly inside deleted lines. */
  const TWICE := [Del(4, 4), Add(4, [X, X]), Del(9, 3), Add(9, [X])]

  /** What is written for it when the old text is `t`. */
  function TwiceBack(t: seq<Line>): seq<Cmd>
    requires |t| == 12
  {
    [Del(1, 2), Add(3, t[3..8]), Del(5, 1), Add(6, t[8..10])]
  }

  /** What the script makes of `t`, and what is made of that again. */
  function TwiceText(t: seq<Line>): seq<Line>
    requires |t| == 12
  {
    [t[0], t[1], t[2], X, X, t[7], X, t[11]]
  }

  function TwiceUndone(t: seq<Line>): seq<Line>
    requires |t| == 12
  {
    [t[2], t[3], t[4], t[5], t[6], t[7], X, t[7], t[8], t[9], X, t[11]]
  }

  lemma {:induction false} FourCmds(a: Cmd, b: Cmd, c: Cmd, d: Cmd)
    ensures var all := [a, b, c, d];
            && all[1..] == [b, c, d] && all[1..][1..] == [c, d] && all[1..][1..][1..] == [d] &&
                all[1..][1..][1..][1..] == []
            && all == [a, b, c] + [d] && all == [a] + ([b] + ([c] + ([d] + [])))
  {
  }

  lemma {:induction false} AcceptsFour(a: Cmd, b: Cmd, c: Cmd, d: Cmd, g: Guard)
    ensures Accepts([a, b, c, d], g) <==>
            && WellFormedCmd(a) && InOrder(HeaderOf(a), g)
            && var g1 := NextGuard(HeaderOf(a), g);
            && WellFormedCmd(b) && InOrder(HeaderOf(b), g1)
            && var g2 := NextGuard(HeaderOf(b), g1);
            && WellFormedCmd(c) && InOrder(HeaderOf(c), g2)
            && var g3 := NextGuard(HeaderOf(c), g2);
            && WellFormedCmd(d) && InOrder(HeaderOf(d), g3)
  {
    var g1 := NextGuard(HeaderOf(a), g);
    var g2 := NextGuard(HeaderOf(b), g1);
    AcceptsStep(a, [b, c, d], g);
    AcceptsStep(b, [c, d], g1);
    AcceptsStep(c, [d], g2);
    AcceptsStep(d, [], NextGuard(HeaderOf(c), g2));
    assert [a, b, c, d] == [a] + [b, c, d] && [b, c, d] == [b] + [c, d] && [c, d] == [c] + [d] && [d] == [d] + [];
  }

  lemma {:induction false} AcceptsStep(c: Cmd, rest: seq<Cmd>, g: Guard)
    ensures Accepts([c] + rest, g) <==>
            WellFormedCmd(c) && InOrder(HeaderOf(c), g) && Accepts(rest, NextGuard(HeaderOf(c), g))
    ensures Accepts([], g)
  {
    assert ([c] + rest)[1..] == rest;
  }

  lemma {:induction false} TwiceAccepted(t: seq<Line>)
    requires |t| == 12
    ensures Accepts(TWICE, START) && !Standard(TWICE) && Accepts(TwiceBack(t), START)
  {
    var b := TwiceBack(t);
    hide Accepts;
    AcceptsFour(TWICE[0], TWICE[1], TWICE[2], TWICE[3], START);
    AcceptsFour(b[0], b[1], b[2], b[3], START);
  }

  /** A delete, an add, a delete and an add, with lines left between them. */
  lemma {:induction false} RunFour(a: Cmd, b: Cmd, c: Cmd, d: Cmd, t: seq<Line>, p: nat, q: nat, r: nat, u: nat, v: nat)
    requires a.Del? && b.Add? && c.Del? && d.Add? && a.where >= 1 && a.count >= 0 && c.count >= 0
    requires p == a.where - 1 && q == Max(p + a.count, b.where) && r == Max(q, c.where - 1) && u == r + c.count
    requires v == Max(u, d.where) <= |t|
    ensures Run([a, b, c, d], t, 0) ==
            Some(t[..p] + t[p + a.count..q] + b.text + t[q..r] + t[u..v] + d.text + t[v..])
  {
    FourCmds(a, b, c, d);
    assert Run([], t, v) == Some(t[v..]);
    assert Run([d], t, u) == Some(t[u..v] + d.text + t[v..]);
    assert Run([c, d], t, q) == Some(t[q..r] + [] + (t[u..v] + d.text + t[v..]));
    assert Run([b, c, d], t, p + a.count) ==
           Some(t[p + a.count..q] + b.text + (t[q..r] + [] + (t[u..v] + d.text + t[v..])));
    assert t[..p] + [] + (t[p + a.count..q] + b.text + (t[q..r] + [] + (t[u..v] + d.text + t[v..]))) ==
           t[..p] + t[p + a.count..q] + b.text + t[q..r] + t[u..v] + d.text + t[v..];
  }

  lemma {:induction false} TwiceRuns(t: seq<Line>)
    requires |t| == 12
    ensures Run(TWICE, t, 0) == Some(TwiceText(t))
    ensures Run(TwiceBack(t), TwiceText(t), 0) == Some(TwiceUndone(t))
  {
    var b, n := TwiceBack(t), TwiceText(t);
    hide Run;
    RunFour(TWICE[0], TWICE[1], TWICE[2], TWICE[3], t, 3, 7, 8, 11, 11);
    RunFour(b[0], b[1], b[2], b[3], n, 0, 3, 4, 5, 6);
    assert t[..3] + t[7..7] + [X, X] + t[7..8] + t[11..11] + [X] + t[11..] == n;
    assert n[..0] + n[2..3] + t[3..8] + n[3..4] + n[5..6] + t[8..10] + n[6..] == TwiceUndone(t);
  }

  /** The edits of that script, as they are entered and as they are sorted. */
  lemma {:induction false} TwiceEdits()
    ensures InsertAll([], EditList(TWICE, 0, None)) ==
            [Edit(2, true, 4, 2), Edit(3, false, 0, 0), Edit(5, true, 5, 1), Edit(6, false, 2, 0), Sentinel(4)]
  {
    var d1, a1, d2, a2, s := Edit(3, false, 0, 0), Edit(2, true, 4, 2), Edit(6, false, 2, 0), Edit(5, true, 5, 1),
        Sentinel(4);
    FourCmds(TWICE[0], TWICE[1], TWICE[2], TWICE[3]);
    hide InsertAll;
    assert EditList([], 4, None) == [s];
    assert EditList([TWICE[3]], 5, Some(d2)) == [d2, a2] + [s];
    assert EditList([TWICE[2], TWICE[3]], 2, None) == [d2, a2] + [s];
    assert EditList([TWICE[1], TWICE[2], TWICE[3]], 4, Some(d1)) == [d1, a1] + ([d2, a2] + [s]);
    assert EditList(TWICE, 0, None) == [d1, a1, d2, a2, s];
    SortFive(d1, a1, d2, a2, s);
  }

  lemma {:induction false} SortFive(d1: Edit, a1: Edit, d2: Edit, a2: Edit, s: Edit)
    requires a1.key < d1.key < a2.key < d2.key < s.key
    ensures InsertAll([], [d1, a1, d2, a2, s]) == [a1, d1, a2, d2, s]
  {
    hide InsertByKey, InsertAll;
    var one, two, three, four := [a1, d1], [a1, d1, d2], [a1, d1, a2, d2], [a1, d1, a2, d2, s];
    assert [] + [d1] == [d1] && [] + [a1] + [d1] == one && one + [] == one && one + [d2] + [] == two;
    assert one + [d2] == two && one + [a2] + [d2] == three && three + [] == three && three + [s] + [] == four;
    InsertAt([], [d1], a1);
    InsertAt(one, [], d2);
    InsertAt(one, [d2], a2);
    InsertAt(three, [], s);
    InsertSteps([], d1, [a1, d2, a2, s]);
    InsertSteps([d1], a1, [d2, a2, s]);
    InsertSteps(one, d2, [a2, s]);
    InsertSteps(two, a2, [s]);
    InsertSteps(three, s, []);
    InsertSteps(four, s, []);
    assert [d1, a1, d2, a2, s] == [d1] + [a1, d2, a2, s] && [a1, d2, a2, s] == [a1] + [d2, a2, s];
    assert [d2, a2, s] == [d2] + [a2, s] && [a2, s] == [a2] + [s] && [s] == [s] + [];
  }

  /** An insertion goes between the smaller and the greater keys. */
  lemma {:induction false} InsertAt(pre: seq<Edit>, post: seq<Edit>, e: Edit)
    requires Below(pre, e.key) && (post != [] ==> e.key < post[0].key)
    ensures InsertByKey(pre + post, e) == pre + [e] + post
  {
    InsertAbove(pre, post, e);
    assert [e] + [] == [e];
    assert pre + ([e] + post) == pre + [e] + post;
  }

  lemma {:induction false} InsertSteps(es: seq<Edit>, e: Edit, more: seq<Edit>)
    ensures InsertAll(es, [e] + more) == InsertAll(InsertByKey(es, e), more) && InsertAll(es, []) == es
    ensures InsertByKey([], e) == [e]
  {
    assert ([e] + more)[1..] == more;
  }

  lemma {:induction false} TwiceWritten(t: seq<Line>)
    requires |t| == 12
    ensures EmitAll([Edit(2, true, 4, 2), Edit(3, false, 0, 0), Edit(5, true, 5, 1), Edit(6, false, 2, 0), Sentinel(4)],
                    t, 0) == Print(TwiceBack(t))
  {
    hide HeaderLine, Print, EmitAll, EmitOne, EditEnd;
    var a1, d1, a2, d2, s := Edit(2, true, 4, 2), Edit(3, false, 0, 0), Edit(5, true, 5, 1), Edit(6, false, 2, 0),
        Sentinel(4);
    var b := TwiceBack(t);
    FourCmds(b[0], b[1], b[2], b[3]);
    TwiceSteps(t);
    EmitFirst(a1, [d1, a2, d2, s], 0, t, 0);
    EmitFirst(d1, [a2, d2, s], 5, t, 0);
    EmitFirst(a2, [d2, s], 2, t, 8);
    EmitFirst(d2, [s], 4, t, 8);
    LastEmits(s, t, 10);
    assert [a1, d1, a2, d2, s] == [a1] + [d1, a2, d2, s] && [d1, a2, d2, s] == [d1] + [a2, d2, s];
    assert [a2, d2, s] == [a2] + [d2, s] && [d2, s] == [d2] + [s];
    PrintCons(b[0], [b[1], b[2], b[3]]);
    PrintCons(b[1], [b[2], b[3]]);
    PrintCons(b[2], [b[3]]);
    PrintCons(b[3], []);
    assert b == [b[0]] + [b[1], b[2], b[3]] && [b[1], b[2], b[3]] == [b[1]] + [b[2], b[3]];
    assert [b[2], b[3]] == [b[2]] + [b[3]] && [b[3]] == [b[3]] + [];
    NothingPrinted();
  }

  lemma NothingPrinted()
    ensures Print([]) == []
  {
  }

  lemma {:induction false} LastEmits(s: Edit, orig: seq<Line>, pos: nat)
    requires pos <= |orig|
    ensures EmitAll([s], orig, pos) == []
  {
  }

  lemma {:induction false} TwiceSteps(t: seq<Line>)
    requires |t| == 12
    ensures var b := TwiceBack(t);
            var a1, d1, a2, d2 := Edit(2, true, 4, 2), Edit(3, false, 0, 0), Edit(5, true, 5, 1), Edit(6, false, 2, 0);
            && EditEnd(a1, 0, t, 0) == 0 && EmitOne(a1, 0, t, 0) == PrintCmd(b[0])
            && EditEnd(d1, 5, t, 0) == 8 && EmitOne(d1, 5, t, 0) == PrintCmd(b[1])
            && EditEnd(a2, 2, t, 8) == 8 && EmitOne(a2, 2, t, 8) == PrintCmd(b[2])
            && EditEnd(d2, 4, t, 8) == 10 && EmitOne(d2, 4, t, 8) == PrintCmd(b[3])
  {
    hide HeaderLine;
  }

  lemma {:induction false} TwicePrints(t: seq<Line>)
    requires |t| == 12
    ensures Printable(TwiceBack(t))
  {
    var b := TwiceBack(t);
    forall i | 0 <= i < |b| ensures InLong(b[i].where) && 0 < HeaderOf(b[i]).count <= LONG_MAX {
      if i == 0 { assert b[i] == Del(1, 2); }
      else if i == 1 { assert b[i] == Add(3, t[3..8]); }
      else if i == 2 { assert b[i] == Del(5, 1); }
      else { assert b[i] == Add(6, t[8..10]); }
    }
  }

  lemma {:induction false} TwiceIsText(t: seq<Line>)
    requires |t| == 12 && IsText(t)
    ensures IsText(TwiceUndone(t))
  {
    var u := TwiceUndone(t);
    hide IsLine, Ended;
    assert IsLine(X) && Ended(X) by { XIsLine(); }
    forall i | 0 <= i < |u| ensures IsLine(u[i]) && (i < |u| - 1 ==> Ended(u[i])) {
      if i < 6 { assert u[i] == t[i + 2]; } else if i != 6 && i != 10 {
        assert u[i] == if i == 11 then t[11] else t[i];
      }
    }
  }

  lemma XIsLine()
    ensures IsLine(X) && Ended(X)
  {
  }

  /** Texts are equal when their bytes are. */
  lemma {:induction false} SameBytes(a: seq<Line>, b: seq<Line>)
    requires IsText(a) && IsText(b)
    ensures Concat(a) == Concat(b) <==> a == b
  {
    SplitConcat(a);
    SplitConcat(b);
  }

  /** Whether such a script is undone by what is written for it depends on the text:
      of the texts of twelve lines this one is on exactly those in which certain lines
      are equal, and never on one whose lines are distinct. */
  lemma {:induction false} InsideByText(t: seq<Line>)
    requires |t| == 12 && IsText(t)
    ensures Accepts(TWICE, START) && !Standard(TWICE) && Run(TWICE, t, 0) == Some(TwiceText(t))
    ensures Apply(EmitAll(InsertAll([], EditList(TWICE, 0, None)), t, 0), TwiceText(t), false) == Some(Concat(t))
            <==> t[0] == t[2] == t[4] == t[6] == t[10] == X && t[1] == t[3] == t[5] == t[7]
  {
    assert TwiceUndone(t) == t <==> t[0] == t[2] == t[4] == t[6] == t[10] == X && t[1] == t[3] == t[5] == t[7];
    hide Print, ParseScript, EmitAll, InsertAll, EditList, Run, Accepts, Standard, Printable, Apply, TwiceText,
         TwiceUndone, TwiceBack, IsText;
    TwiceAccepted(t);
    TwiceEdits();
    TwiceWritten(t);
    TwiceRuns(t);
    TwicePrints(t);
    TwiceIsText(t);
    SameBytes(TwiceUndone(t), t);
    ParsePrinted(TwiceBack(t), START);
    ApplyPrinted(Print(TwiceBack(t)), TwiceBack(t), TwiceText(t), TwiceUndone(t), true);
  }
}
