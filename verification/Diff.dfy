/** The diff engine itself: it consumes and produces streams line by line. */
module Diff {
  import opened Lines
  import opened EditScript
  import opened EditScriptProofs
  import opened Reverse

  /** A stream being read: successive reads deliver its lines. */
  class Source {
    const lines: seq<Line>
    var pos: nat

    ghost predicate Valid() reads this { pos <= |lines| }

    ghost function Rest(): seq<Line>
      reads this
      requires Valid()
    {
      lines[pos..]
    }

    constructor (lines: seq<Line>)
      ensures Valid() && Rest() == lines && this.lines == lines && pos == 0
    {
      this.lines, pos := lines, 0;
    }

    method GetLn() returns (line: Option<Line>)
      requires Valid()
      modifies this
      ensures Valid()
      ensures line == if old(Rest()) == [] then None else Some(old(Rest())[0])
      ensures Rest() == if old(Rest()) == [] then [] else old(Rest())[1..]
      ensures pos == if old(Rest()) == [] then old(pos) else old(pos) + 1
    {
      if pos == |lines| { return None; }
      line := Some(lines[pos]);
      pos := pos + 1;
    }
  }

  /** A stream being written, one line at a time. */
  class Sink {
    var out: seq<Line>

    constructor ()
      ensures out == []
    {
      out := [];
    }

    method Write(l: Line)
      modifies this
      ensures out == old(out) + [l]
    {
      out := out + [l];
    }
  }

  /** What is left of a text when `line` has been read and `rest` is ahead. */
  function Left(line: Option<Line>, rest: seq<Line>): seq<Line> {
    if line.Some? then [line.value] + rest else []
  }

  lemma LeftAfter(before: seq<Line>, line: Option<Line>, rest: seq<Line>)
    requires line == if before == [] then None else Some(before[0])
    requires rest == if before == [] then [] else before[1..]
    ensures Left(line, rest) == before
  {
  }

  lemma LeftNow(out: seq<Line>, line: Line, rest: seq<Line>)
    ensures out + Left(Some(line), rest) == out + [line] + rest
  {
  }

  lemma NoneLeft(rest: seq<Line>)
    ensures Left(None, rest) == []
  {
  }

  /** An editing command and the state of a run. */
  class EditCmd {
    var add: bool
    var where: int
    var count: int
    var lasta: int
    var lastd: int
    var editline: int
    const orig: Source
    const dest: Sink

    ghost predicate Valid()
      reads this, orig
    {
      orig.Valid() && editline == orig.pos
    }

    constructor (orig: Source, dest: Sink)
      requires orig.Valid() && orig.pos == 0
      ensures Valid() && this.orig == orig && this.dest == dest
      ensures editline == lasta == lastd == 0
    {
      add, where, count, lasta, lastd, editline := false, 0, 0, 0, 0, 0;
      this.orig, this.dest := orig, dest;
    }

    /** Reads a command and checks it against the bounds kept so far. */
    method GetEditCmd(line: string) returns (ok: bool)
      modifies this`add, this`where, this`count, this`lasta, this`lastd
      ensures ok <==> ParseHeader(line).Some? && InOrder(ParseHeader(line).value, Guard(old(lasta), old(lastd)))
      ensures ok ==> Header(add, where, count) == ParseHeader(line).value
      ensures ok ==> Guard(lasta, lastd) == NextGuard(Header(add, where, count), Guard(old(lasta), old(lastd)))
    {
      hide ParseHeader;
      var h := ParseHeader(line);
      if h.None? { return false; }
      add, where, count := h.value.add, h.value.where, h.value.count;
      if add {
        if where < lasta { return false; }
        lasta := where + 1;
      } else {
        if where < lasta || where < lastd { return false; }
        lasta := where;
        lastd := where + count;
      }
      return true;
    }

    /** Copies lines of the old text up to line `to`. */
    method CopyLn(to: int) returns (ok: bool)
      requires Valid()
      modifies this`editline, orig, dest
      ensures Valid() && orig.pos == Seek(old(orig.pos), to, |orig.lines|)
      ensures ok <==> to <= |orig.lines|
      ensures dest.out == old(dest.out) + orig.lines[old(orig.pos)..orig.pos]
    {
      while editline < to
        invariant Valid() && old(orig.pos) <= orig.pos
        invariant orig.pos <= old(orig.pos) || orig.pos <= to
        invariant dest.out == old(dest.out) + orig.lines[old(orig.pos)..orig.pos]
      {
        var line := orig.GetLn();
        if line.None? { return false; }
        editline := editline + 1;
        dest.Write(line.value);
      }
      return true;
    }

    /** Skips lines of the old text up to line `to`. */
    method IgnoreLn(to: int) returns (ok: bool)
      requires Valid()
      modifies this`editline, orig
      ensures Valid() && orig.pos == Seek(old(orig.pos), to, |orig.lines|)
      ensures ok <==> to <= |orig.lines|
    {
      while editline < to
        invariant Valid() && old(orig.pos) <= orig.pos
        invariant orig.pos <= old(orig.pos) || orig.pos <= to
      {
        var line := orig.GetLn();
        if line.None? { return false; }
        editline := editline + 1;
      }
      return true;
    }

    static lemma UnquoteOne(ls: seq<Line>, l: Line, comode: bool)
      ensures UnquoteAll(ls + [l], comode) == UnquoteAll(ls, comode) + [Unquote(l, comode)]
    {
      hide Unquote;
    }

    /** Writes the text lines of an add command. */
    method AddText(rd: Source, comode: bool) returns (ok: bool)
      requires rd.Valid() && count >= 0
      modifies rd, dest
      ensures rd.Valid()
      ensures ok <==> count <= |old(rd.Rest())|
      ensures ok ==> rd.Rest() == old(rd.Rest())[count..]
      ensures ok ==> dest.out == old(dest.out) + UnquoteAll(old(rd.Rest())[..count], comode)
    {
      assert UnquoteAll([], comode) == [];
      hide UnquoteAll, Unquote;
      ghost var text := rd.Rest();
      assert text[..0] == [];
      for i := 0 to count
        invariant rd.Valid() && i <= |text| && rd.Rest() == text[i..]
        invariant dest.out == old(dest.out) + UnquoteAll(text[..i], comode)
      {
        var line := rd.GetLn();
        if line.None? { return false; }
        assert text[..i + 1] == text[..i] + [line.value];
        UnquoteOne(text[..i], line.value, comode);
        dest.Write(Unquote(line.value, comode));
      }
      return true;
    }

    /** Skips the lines of a delete command. */
    method SkipDeleted() returns (ok: bool)
      requires Valid() && count >= 0
      modifies this`editline, orig
      ensures Valid()
      ensures ok <==> old(orig.pos) + count <= |orig.lines|
      ensures ok ==> orig.pos == old(orig.pos) + count
    {
      for i := 0 to count
        invariant Valid() && orig.pos == old(orig.pos) + i
      {
        var line := orig.GetLn();
        if line.None? { return false; }
        editline := editline + 1;
      }
      return true;
    }

    /** Copies what is left of the old text. */
    method CopyRest()
      requires orig.Valid()
      modifies orig, dest
      ensures dest.out == old(dest.out) + old(orig.Rest())
    {
      ghost var out, rest := dest.out, orig.Rest();
      var line := orig.GetLn();
      LeftAfter(rest, line, orig.Rest());
      hide Left;
      while line.Some?
        invariant orig.Valid()
        invariant dest.out + Left(line, orig.Rest()) == out + rest
        decreases |orig.lines| - orig.pos, if line.Some? then 1 else 0
      {
        ghost var ahead := orig.Rest();
        LeftNow(dest.out, line.value, ahead);
        dest.Write(line.value);
        line := orig.GetLn();
        LeftAfter(ahead, line, orig.Rest());
      }
      NoneLeft(orig.Rest());
    }

    /** One command of a run, whose header line is `s`. */
    method RunCommand(s: string, rd: Source, comode: bool, ghost blank: bool) returns (ok: bool)
      requires Valid() && rd.Valid() && rd != orig && rd.pos > 0
      requires s == CString(rd.lines[rd.pos - 1]) && s !in {"", ".", ".+"}
      modifies this, rd, orig, dest
      ensures Valid() && rd.Valid()
      ensures ok ==> |rd.Rest()| <= old(|rd.Rest()|)
      ensures var before := old(Continue(rd.lines[rd.pos - 1..], Guard(lasta, lastd), blank, comode, orig.lines,
              editline));
              if ok then
                old(dest.out) <= dest.out &&
                before == Prepend(dest.out[|old(dest.out)|..],
                                  Continue(rd.Rest(), Guard(lasta, lastd), blank, comode, orig.lines, editline))
              else before == None
    {
      hide CString, ParseHeader, Continue;
      ghost var ahead, g, pos := rd.lines[rd.pos - 1..], Guard(lasta, lastd), editline;
      assert ahead[1..] == rd.Rest();
      ok := GetEditCmd(s);
      if !ok {
        BadStep(ahead, g, blank, comode, orig.lines, pos);
        return;
      }
      ghost var h := Header(add, where, count);
      ghost var done := dest.out;
      if add {
        AddStep(ahead, g, blank, comode, orig.lines, pos);
        ok := CopyLn(where);
        if !ok { return; }
        ok := AddText(rd, comode);
        if !ok { return; }
        assert ahead[1..1 + h.count] == ahead[1..][..h.count];
        assert ahead[1 + h.count..] == ahead[1..][h.count..];
        assert dest.out[|done|..] == orig.lines[pos..editline] + UnquoteAll(ahead[1..1 + h.count], comode);
      } else {
        DelStep(ahead, g, blank, comode, orig.lines, pos);
        ok := CopyLn(where - 1);
        if !ok { return; }
        assert dest.out[|done|..] == orig.lines[pos..editline];
        ok := SkipDeleted();
      }
    }

    /** Runs the commands of `rd`; `last` is the line that ended them and
        `empty` whether a blank command line was seen. */
    method RunScript(rd: Source, comode: bool) returns (ok: bool, last: Option<Line>, empty: bool)
      requires Valid() && rd.Valid() && rd != orig
      requires editline == lasta == lastd == 0 && dest.out == []
      modifies this, rd, orig, dest
      ensures Valid()
      ensures last.Some? ==> CString(last.value) in {".", ".+"}
      ensures var goal := old(Continue(rd.Rest(), START, false, comode, orig.lines, 0));
              if !ok || (comode && last.None?) then goal == None
              else goal == Some((dest.out + orig.Rest(),
                                 comode && last.Some? && CString(last.value) == ".+" && !empty))
    {
      hide CString, ParseHeader, Continue, Prepend;
      empty := false;
      ghost var goal := Continue(rd.Rest(), START, false, comode, orig.lines, 0);
      ghost var ahead := rd.Rest();
      last := rd.GetLn();
      PrependNone([], goal);
      while last.Some? && CString(last.value) != "." && CString(last.value) != ".+"
        invariant rd.Valid() && Valid()
        invariant last.Some? ==> 0 < rd.pos && last.value == rd.lines[rd.pos - 1]
        invariant last.None? ==> rd.Rest() == []
        invariant ahead == if last.Some? then rd.lines[rd.pos - 1..] else []
        invariant goal == Prepend(dest.out, Continue(ahead, Guard(lasta, lastd), empty, comode, orig.lines, editline))
        decreases |ahead|
      {
        PrependNone(dest.out, None);
        var s := CString(last.value);
        assert ahead[1..] == rd.Rest();
        if s == "" {
          BlankStep(ahead, Guard(lasta, lastd), empty, comode, orig.lines, editline);
          if empty { return false, None, empty; }
          empty := true;
        } else {
          ghost var done := dest.out;
          ok := RunCommand(s, rd, comode, empty);
          if !ok { return false, None, empty; }
          assert done + dest.out[|done|..] == dest.out;
          PrependTwice(done, dest.out[|done|..],
              Continue(rd.Rest(), Guard(lasta, lastd), empty, comode, orig.lines, editline));
        }
        ahead := rd.Rest();
        last := rd.GetLn();
      }
      EndStep(ahead, Guard(lasta, lastd), empty, comode, orig.lines, editline);
      PrependNone(dest.out, Continue(ahead, Guard(lasta, lastd), empty, comode, orig.lines, editline));
      ok := true;
    }
  }

  /** Runs the script in `rd` on the text in `orig`.  In checkout mode the script
      ends with a dot line, text lines are dot-quoted, and an ending of ".+"
      says that the last newline is to be dropped. */
  method DiffApply(rd: Source, orig: Source, comode: bool) returns (ok: bool, bytes: string)
    requires rd != orig && rd.Valid() && orig.Valid() && orig.pos == 0
    modifies rd, orig
    ensures ok <==> Apply(old(rd.Rest()), orig.lines, comode).Some?
    ensures ok ==> Some(bytes) == Apply(old(rd.Rest()), orig.lines, comode)
  {
    hide CString, ParseHeader, Continue;
    bytes := "";
    var dest := new Sink();
    var ec := new EditCmd(orig, dest);
    var line, empty;
    ok, line, empty := ec.RunScript(rd, comode);
    if !ok || (comode && line.None?) { return false, ""; }
    var noeol := comode && CString(line.value) == ".+" && !empty;
    ec.CopyRest();
    bytes := Concat(dest.out);
    if noeol {
      if bytes == "" { return false, ""; }
      bytes := bytes[..|bytes| - 1];
    }
  }

  // ---------------------------------------------------------------- reversing

  lemma {:induction false} InsertFrom(es: seq<Edit>, e: Edit, i: nat)
    requires i <= |es| && forall j :: 0 <= j < i ==> es[j].key <= e.key
    ensures InsertByKey(es, e) == es[..i] + InsertByKey(es[i..], e)
  {
    if i > 0 {
      InsertFrom(es[1..], e, i - 1);
      assert es[1..][i - 1..] == es[i..] && es[..i] == [es[0]] + es[1..][..i - 1];
    }
  }

  lemma {:induction false} InsertAllSnoc(es: seq<Edit>, more: seq<Edit>, e: Edit)
    ensures InsertAll(es, more + [e]) == InsertByKey(InsertAll(es, more), e)
    decreases |more|
  {
    if more == [] {
      assert more + [e] == [e];
      assert InsertAll(es, [e]) == InsertAll(InsertByKey(es, e), []) by { assert [e][1..] == []; }
    } else {
      assert (more + [e])[1..] == more[1..] + [e];
      InsertAllSnoc(InsertByKey(es, more[0]), more[1..], e);
    }
  }

  /** The list of edits being built. */
  class DiffStart {
    var dhead: seq<Edit>
    ghost var inserted: seq<Edit>

    ghost predicate Valid()
      reads this
    {
      dhead == InsertAll([], inserted)
    }

    constructor ()
      ensures Valid() && inserted == []
    {
      dhead, inserted := [], [];
    }

    /** Insertion sort on the key, after the edits with the same key. */
    method InsertEdit(e: Edit)
      requires Valid()
      modifies this
      ensures Valid() && inserted == old(inserted) + [e]
      ensures dhead == InsertByKey(old(dhead), e)
    {
      InsertAllSnoc([], inserted, e);
      inserted := inserted + [e];
      var i := 0;
      while i < |dhead|
        invariant i <= |dhead| && forall j :: 0 <= j < i ==> dhead[j].key <= e.key
        invariant dhead == old(dhead) && inserted == old(inserted) + [e]
      {
        if e.key < dhead[i].key {
          InsertFrom(dhead, e, i);
          dhead := dhead[..i] + [e] + dhead[i..];
          return;
        }
        i := i + 1;
      }
      InsertFrom(dhead, e, i);
      dhead := dhead + [e];
    }
  }

  /** Writes what one edit, followed by `nextec`, contributes. */
  method WriteEdit(ec: EditCmd, e: Edit, nextec: Edit, ghost more: seq<Edit>)
    requires ec.Valid()
    modifies ec, ec.orig, ec.dest
    ensures ec.Valid()
    ensures old(ec.dest.out) + EmitAll([e, nextec] + more, ec.orig.lines, old(ec.editline))
         == ec.dest.out + EmitAll([nextec] + more, ec.orig.lines, ec.editline)
  {
    hide HeaderLine;
    ghost var es, lines, out0, line0 := [e, nextec] + more, ec.orig.lines, ec.dest.out, ec.editline;
    assert es[1..] == [nextec] + more;
    var deleted := 0;
    if e.havetext {
      deleted := e.count;
    }
    var added := deleted + nextec.offset - e.offset;
    ghost var head := if deleted > 0 then [HeaderLine('d', e.key - deleted + 1, deleted)] else [];
    if deleted > 0 {
      ec.dest.Write(HeaderLine('d', e.key - deleted + 1, deleted));
    }
    assert ec.dest.out == out0 + head;
    if added > 0 {
      var a := HeaderLine('a', e.key, added);
      ec.dest.Write(a);
      var startline := e.key - deleted + 1 + e.offset;
      var endline := startline + added - 1;
      var _ := ec.IgnoreLn(startline - 1);
      ghost var p := ec.editline;
      var _ := ec.CopyLn(endline);
      ghost var copied := lines[p..ec.editline];
      Regroup(out0, head, [a], copied, EmitAll(es[1..], lines, ec.editline));
    } else {
      Regroup(out0, head, [], [], EmitAll(es[1..], lines, line0));
    }
  }

  lemma Regroup(a: seq<Line>, b: seq<Line>, c: seq<Line>, d: seq<Line>, e: seq<Line>)
    ensures a + (b + (c + d) + e) == a + b + c + d + e
    ensures a + (b + e) == a + b + e
  {
  }

  /** Writes the reverse script from the sorted edits, reading the old text once. */
  method DiffWriteReverse(ec: EditCmd, es: seq<Edit>)
    requires ec.Valid() && ec.editline == 0
    modifies ec, ec.orig, ec.dest
    ensures ec.dest.out == old(ec.dest.out) + EmitAll(es, ec.orig.lines, 0)
  {
    hide HeaderLine;
    var next := 0;
    while next + 1 < |es|
      invariant next <= |es| && ec.Valid()
      invariant old(ec.dest.out) + EmitAll(es, ec.orig.lines, 0) ==
                ec.dest.out + EmitAll(es[next..], ec.orig.lines, ec.editline)
      decreases |es| - next
    {
      hide EmitAll;
      assert es[next..] == [es[next], es[next + 1]] + es[next + 2..];
      assert es[next + 1..] == [es[next + 1]] + es[next + 2..];
      WriteEdit(ec, es[next], es[next + 1], es[next + 2..]);
      next := next + 1;
    }
  }

  /** Enters a command into the list of edits. */
  method EnterCommand(ds: DiffStart, add: bool, where: int, count: nat, delec: Option<Edit>, offset: int, ghost c: Cmd)
    returns (delec': Option<Edit>, offset': int)
    requires ds.Valid() && HeaderOf(c) == Header(add, where, count)
    modifies ds
    ensures ds.Valid()
    ensures var s := EditStep(c, offset, delec);
            ds.inserted == old(ds.inserted) + s.done && offset' == s.offset && delec' == s.del
  {
    if add {
      var key := where + count - offset;
      if delec.Some? && delec.value.key == key - count {
        ds.InsertEdit(Edit(key, true, delec.value.offset, count));
      } else {
        if delec.Some? {
          ds.InsertEdit(delec.value);
        }
        ds.InsertEdit(Edit(key, true, offset, count));
      }
      delec' := None;
      offset' := offset - count;
    } else {
      if delec.Some? {
        ds.InsertEdit(delec.value);
      }
      delec' := Some(Edit(where - 1 - offset, false, offset, 0));
      offset' := offset + count;
    }
  }

  /** Reads the rest of one command, whose header line is `s`, and enters it. */
  method TakeCommand(s: string, rd: Source, ec: EditCmd, ds: DiffStart, delec: Option<Edit>, offset: int)
    returns (command: bool, ok: bool, delec': Option<Edit>, offset': int)
    requires rd != ec.orig && rd.Valid() && ds.Valid() && rd.pos > 0
    requires s == CString(rd.lines[rd.pos - 1])
    modifies rd, ds, ec`add, ec`where, ec`count, ec`lasta, ec`lastd
    ensures rd.Valid() && ds.Valid()
    ensures command && ok ==> |rd.Rest()| <= old(|rd.Rest()|)
    ensures var before := old(ReadEdits(rd.lines[rd.pos - 1..], Guard(ec.lasta, ec.lastd)));
            if !command then before == Some([]) && ds.inserted == old(ds.inserted) &&
                (delec', offset') == (delec, offset)
            else if !ok then before == None
            else
              var after := ReadEdits(rd.Rest(), Guard(ec.lasta, ec.lastd));
              && (before.Some? <==> after.Some?)
              && (after.Some? ==>
                    old(ds.inserted) + EditList(before.value, offset, delec)
                    == ds.inserted + EditList(after.value, offset', delec'))
  {
    hide CString, ParseHeader, ReadEdits, EditStep, EditList;
    delec', offset', ok := delec, offset, true;
    ghost var ahead, g := rd.lines[rd.pos - 1..], Guard(ec.lasta, ec.lastd);
    assert ahead[1..] == rd.Rest();
    command := ec.GetEditCmd(s);
    if !command {
      NothingRead(ahead, g);
      return;
    }
    ReadStep(ahead, g);
    ghost var h := Header(ec.add, ec.where, ec.count);
    ghost var n := if h.add then 1 + h.count else 1;
    if ec.add {
      ok := SkipText(rd, ec.count);
      if !ok { return; }
    }
    assert ahead[n..] == rd.Rest();
    ghost var c := if h.add then Add(h.where, ahead[1..n]) else Del(h.where, h.count);
    ghost var done := ds.inserted;
    delec', offset' := EnterCommand(ds, ec.add, ec.where, ec.count, delec, offset, c);
    ghost var rest := ReadEdits(ahead[n..], NextGuard(h, g));
    if rest.Some? {
      EnterStep(c, rest.value, offset, delec, done);
    }
  }

  /** Builds the list of edits from the script in `rd`. */
  method BuildEdits(rd: Source, ec: EditCmd, ds: DiffStart) returns (ok: bool)
    requires rd != ec.orig && rd.Valid() && ds.Valid()
    requires ec.lasta == ec.lastd == 0 && ds.inserted == []
    modifies rd, ds, ec`add, ec`where, ec`count, ec`lasta, ec`lastd
    ensures ds.Valid()
    ensures ok <==> ReadEdits(old(rd.Rest()), START).Some?
    ensures ok ==> ds.inserted == EditList(ReadEdits(old(rd.Rest()), START).value, 0, None)
  {
    hide CString, ParseHeader, ReadEdits, EditStep;
    var delec: Option<Edit> := None;
    var offset := 0;
    ghost var all := ReadEdits(rd.Rest(), START);
    ghost var ahead := rd.Rest();
    var line := rd.GetLn();
    hide EditList;
    while line.Some?
      invariant rd.Valid() && ds.Valid()
      invariant line.Some? ==> 0 < rd.pos && line.value == rd.lines[rd.pos - 1]
      invariant ahead == if line.Some? then rd.lines[rd.pos - 1..] else []
      invariant Entered(all, ahead, Guard(ec.lasta, ec.lastd), ds.inserted, offset, delec)
      decreases |ahead|
    {
      assert ahead[1..] == rd.Rest();
      var command;
      command, ok, delec, offset := TakeCommand(CString(line.value), rd, ec, ds, delec, offset);
      if !command {
        Drain(rd);
        ok := FinishEdits(ds, delec, offset);
        return;
      }
      if !ok { return; }
      ahead := rd.Rest();
      line := rd.GetLn();
    }
    NothingLeft(Guard(ec.lasta, ec.lastd));
    ok := FinishEdits(ds, delec, offset);
  }

  /** All edits are those entered so far and those of what is left of the script. */
  ghost predicate Entered(all: Option<seq<Cmd>>, ahead: seq<Line>, g: Guard, inserted: seq<Edit>, offset: int,
      delec: Option<Edit>) {
    && (all.Some? <==> ReadEdits(ahead, g).Some?)
    && (all.Some? ==>
          EditList(all.value, 0, None) == inserted + EditList(ReadEdits(ahead, g).value, offset, delec))
  }

  /** Reads the rest of the script without looking at it. */
  method Drain(rd: Source)
    requires rd.Valid()
    modifies rd
    ensures rd.Valid()
  {
    var line := rd.GetLn();
    while line.Some?
      invariant rd.Valid()
      decreases |rd.lines| - rd.pos, if line.Some? then 1 else 0
    {
      line := rd.GetLn();
    }
  }

  /** Enters a delete that is still pending, and the sentinel. */
  method FinishEdits(ds: DiffStart, delec: Option<Edit>, offset: int) returns (ok: bool)
    requires ds.Valid()
    modifies ds
    ensures ds.Valid() && ok && ds.inserted == old(ds.inserted) + EditList([], offset, delec)
  {
    if delec.Some? {
      ds.InsertEdit(delec.value);
    }
    ds.InsertEdit(Sentinel(offset));
    ok := true;
  }

  lemma {:induction false} NothingRead(rd: seq<Line>, g: Guard)
    requires rd != []
    requires ParseHeader(CString(rd[0])).None? || !InOrder(ParseHeader(CString(rd[0])).value, g)
    ensures ReadEdits(rd, g) == Some([])
  {
    hide CString, ParseHeader;
  }

  lemma {:induction false} NothingLeft(g: Guard)
    ensures ReadEdits([], g) == Some([])
  {
  }

  lemma {:induction false} EnterStep(c: Cmd, rest: seq<Cmd>, offset: int, del: Option<Edit>, done: seq<Edit>)
    ensures var s := EditStep(c, offset, del);
            done + EditList([c] + rest, offset, del) == (done + s.done) + EditList(rest, s.offset, s.del)
  {
    hide EditStep;
    assert ([c] + rest)[1..] == rest;
  }

  /** Writes to `dest` the reverse of the script in `rd`, which leads away from
      the text in `orig`. */
  method DiffReverse(rd: Source, orig: Source, dest: Sink) returns (ok: bool)
    requires rd != orig && rd.Valid() && orig.Valid() && orig.pos == 0 && dest.out == []
    modifies rd, orig, dest
    ensures ok <==> Reversed(old(rd.Rest()), orig.lines).Some?
    ensures ok ==> Some(dest.out) == Reversed(old(rd.Rest()), orig.lines)
  {
    hide ReadEdits, EmitAll, EditList;
    var ec := new EditCmd(orig, dest);
    var ds := new DiffStart();
    ok := BuildEdits(rd, ec, ds);
    if !ok { return; }
    DiffWriteReverse(ec, ds.dhead);
    assert [] + EmitAll(ds.dhead, orig.lines, 0) == EmitAll(ds.dhead, orig.lines, 0);
  }

  method SkipText(rd: Source, count: nat) returns (ok: bool)
    requires rd.Valid()
    modifies rd
    ensures rd.Valid()
    ensures ok <==> count <= |old(rd.Rest())|
    ensures ok ==> rd.Rest() == old(rd.Rest())[count..]
  {
    ghost var text := rd.Rest();
    for i := 0 to count
      invariant rd.Valid() && i <= |text| && rd.Rest() == text[i..]
    {
      var line := rd.GetLn();
      if line.None? { return false; }
    }
    return true;
  }
}
