/** Texts are kept with every quote doubled; applying and reversing scripts keeps
    them so. */
module DiffDoubled {
  import opened Lines
  import opened EditScript
  import opened EditScriptProofs
  import opened Reverse
  import opened DiffIrregular
  import opened RcsLex

  predicate AllDoubled(ls: seq<Line>) {
    forall i :: 0 <= i < |ls| ==> Doubled(ls[i])
  }

  /** A doubled string cut behind something that is not a quote. */
  lemma {:induction false} DoubledCut(a: string, b: string)
    requires Doubled(a + b) && (a != "" ==> a[|a| - 1] != '@')
    ensures Doubled(a) && Doubled(b)
    decreases |a|
  {
    if a == "" {
      assert a + b == b;
    } else if a[0] == '@' {
      assert (a + b)[2..] == a[2..] + b;
      DoubledCut(a[2..], b);
    } else {
      assert (a + b)[1..] == a[1..] + b;
      DoubledCut(a[1..], b);
    }
  }

  /** A doubled text consists of doubled lines ... */
  lemma {:induction false} SplitDoubled(s: string)
    requires Doubled(s)
    ensures AllDoubled(SplitLines(s))
    decreases |s|
  {
    if s != [] {
      var n := LineLen(s);
      assert s == s[..n] + s[n..];
      if n < |s| {
        DoubledCut(s[..n], s[n..]);
        SplitDoubled(s[n..]);
      } else {
        assert s[..n] == s && s[n..] == "";
      }
      var rest := SplitLines(s[n..]);
      assert SplitLines(s) == [s[..n]] + rest;
      AllCons(s[..n], rest);
    }
  }

  lemma {:induction false} AllCons(l: Line, rest: seq<Line>)
    requires Doubled(l) && AllDoubled(rest)
    ensures AllDoubled([l] + rest)
  {
  }

  lemma {:induction false} AllPlus(a: seq<Line>, b: seq<Line>)
    requires AllDoubled(a) && AllDoubled(b)
    ensures AllDoubled(a + b)
  {
  }

  /** ... and doubled lines make a doubled text. */
  lemma {:induction false} ConcatDoubled(ls: seq<Line>)
    requires AllDoubled(ls)
    ensures Doubled(Concat(ls))
    decreases |ls|
  {
    if ls != [] {
      ConcatDoubled(ls[1..]);
      DoubledPlus(ls[0], Concat(ls[1..]));
    }
  }

  // ------------------------------------------------------------------- applying

  predicate TextsDoubled(cmds: seq<Cmd>) {
    forall i :: 0 <= i < |cmds| && cmds[i].Add? ==> AllDoubled(cmds[i].text)
  }

  lemma {:induction false} ConsDoubled(c: Cmd, cmds: seq<Cmd>)
    requires TextsDoubled(cmds) && (c.Add? ==> AllDoubled(c.text))
    ensures TextsDoubled([c] + cmds)
  {
  }

  lemma {:induction false} ParsedDoubled(rd: seq<Line>, g: Guard, blank: bool)
    requires AllDoubled(rd) && ParseScript(rd, g, blank, false).Some?
    ensures TextsDoubled(ParseScript(rd, g, blank, false).value.cmds)
    decreases |rd|
  {
    hide ParseHeader, CString, Doubled;
    if rd != [] {
      var s := CString(rd[0]);
      if s == "" {
        ParsedDoubled(rd[1..], g, true);
      } else if s != "." && s != ".+" {
        var h := ParseHeader(s).value;
        var n := if h.add then 1 + h.count else 1;
        ParsedDoubled(rd[n..], NextGuard(h, g), blank);
        var cmds := ParseScript(rd[n..], NextGuard(h, g), blank, false).value.cmds;
        if h.add {
          assert UnquoteAll(rd[1..n], false) == rd[1..n];
          ConsDoubled(Add(h.where, rd[1..n]), cmds);
        } else {
          ConsDoubled(Del(h.where, h.count), cmds);
        }
      }
    }
  }

  lemma {:induction false} RunDoubled(cmds: seq<Cmd>, orig: seq<Line>, pos: nat)
    requires pos <= |orig| && TextsDoubled(cmds) && AllDoubled(orig) && Run(cmds, orig, pos).Some?
    ensures AllDoubled(Run(cmds, orig, pos).value)
    decreases |cmds|
  {
    if cmds != [] {
      var to := Max(pos, if cmds[0].Add? then cmds[0].where else cmds[0].where - 1);
      var next := if cmds[0].Add? then to else to + Max(0, cmds[0].count);
      RunDoubled(cmds[1..], orig, next);
      var out := Run(cmds[1..], orig, next).value;
      hide Run, Doubled;
      AllPlus(orig[pos..to], if cmds[0].Add? then cmds[0].text else []);
      AllPlus(orig[pos..to] + (if cmds[0].Add? then cmds[0].text else []), out);
    }
  }

  /** What applying a doubled script to a doubled text gives is doubled. */
  lemma {:induction false} ApplyDoubled(script: string, text: string)
    requires Doubled(script) && Doubled(text) && Apply(SplitLines(script), SplitLines(text), false).Some?
    ensures Doubled(Apply(SplitLines(script), SplitLines(text), false).value)
  {
    var rd, orig := SplitLines(script), SplitLines(text);
    SplitDoubled(script);
    SplitDoubled(text);
    ParsedDoubled(rd, START, false);
    hide ParseScript, SplitLines, Doubled;
    var sc := ParseScript(rd, START, false, false).value;
    RunDoubled(sc.cmds, orig, 0);
    ConcatDoubled(Run(sc.cmds, orig, 0).value);
  }

  // ------------------------------------------------------------------ reversing

  lemma {:induction false} NoQuotes(s: string)
    requires forall i :: 0 <= i < |s| ==> s[i] != '@'
    ensures Doubled(s)
    decreases |s|
  {
    if s != "" {
      NoQuotes(s[1..]);
    }
  }

  lemma {:induction false} HeaderDoubled(kind: char, where: int, count: int)
    requires kind == 'a' || kind == 'd'
    ensures Doubled(HeaderLine(kind, where, count))
  {
    DecimalChars(where);
    DecimalChars(count);
    NoQuotes(HeaderLine(kind, where, count));
  }

  lemma {:induction false} EmitDoubled(es: seq<Edit>, orig: seq<Line>, pos: nat)
    requires pos <= |orig| && AllDoubled(orig)
    ensures AllDoubled(EmitAll(es, orig, pos))
    decreases |es|
  {
    hide HeaderLine, Doubled, Seek, EmitAll, EmitOne, EditEnd;
    if |es| > 1 {
      var e, rest := es[0], es[1..];
      assert es == [e] + rest;
      EmitFirst(e, rest, rest[0].offset, orig, pos);
      OneDoubled(e, rest[0].offset, orig, pos);
      EmitDoubled(rest, orig, EditEnd(e, rest[0].offset, orig, pos));
      AllPlus(EmitOne(e, rest[0].offset, orig, pos), EmitAll(rest, orig, EditEnd(e, rest[0].offset, orig, pos)));
    } else {
      NothingEmitted(es, orig, pos);
    }
  }

  lemma {:induction false} NothingEmitted(es: seq<Edit>, orig: seq<Line>, pos: nat)
    requires |es| <= 1 && pos <= |orig|
    ensures EmitAll(es, orig, pos) == []
  {
  }

  lemma {:induction false} OneDoubled(e: Edit, next: int, orig: seq<Line>, pos: nat)
    requires pos <= |orig| && AllDoubled(orig)
    ensures AllDoubled(EmitOne(e, next, orig, pos))
  {
    hide HeaderLine, Doubled;
    var deleted := if e.havetext then e.count else 0;
    var added := deleted + next - e.offset;
    HeaderDoubled('d', e.key - deleted + 1, deleted);
    HeaderDoubled('a', e.key, added);
  }

  /** What is written for a doubled text is doubled. */
  lemma {:induction false} ReversedDoubled(rd: seq<Line>, text: string)
    requires Doubled(text) && Reversed(rd, SplitLines(text)).Some?
    ensures Doubled(Concat(Reversed(rd, SplitLines(text)).value))
  {
    var orig := SplitLines(text);
    SplitDoubled(text);
    var es := InsertAll([], EditList(ReadEdits(rd, START).value, 0, None));
    EmitDoubled(es, orig, 0);
    ConcatDoubled(EmitAll(es, orig, 0));
  }
}
