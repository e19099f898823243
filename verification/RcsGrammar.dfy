/** What the parser takes: exactly the files of a grammar, each read as it says. */
module RcsGrammar {
  import opened Lines
  import opened RcsLex
  import opened RcsText
  import opened RcsParse
  import opened RcsForeign

  /** A phrase of the administrative part. */
  datatype Clause = Strict | Comment(text: string) | Expansion(text: string) | Other(phrase: Phrase)

  /** A file: the administrative part, a token that ends it, if any, and is lost, the
      deltas and the texts, each with phrases behind it, and what is never looked at. */
  datatype Source = Source(
    head: string, branch: Option<string>, access: seq<string>, tags: seq<Tag>, locks: seq<(string, string)>,
    clauses: seq<Clause>, lost: seq<Tok>, deltas: seq<Header>, behind: seq<seq<Phrase>>, desc: string,
    texts: seq<DeltaText>, logs: seq<seq<Phrase>>, tail: seq<Tok>)

  predicate GoodClause(c: Clause) {
    match c
    case Expansion(text) => DecodeExpand(text).Some?
    case Other(p) => GoodPhrase(p, KNOWN)
    case _ => true
  }

  predicate GoodClauses(cs: seq<Clause>) {
    forall i :: 0 <= i < |cs| ==> GoodClause(cs[i])
  }

  predicate GoodFront(head: string, branch: Option<string>, tags: seq<Tag>) {
    && ValidNum(head) && (branch.Some? ==> ValidNum(branch.value))
    && forall i :: 0 <= i < |tags| ==> ValidNum(tags[i].rev)
  }

  predicate GoodDeltas(hs: seq<Header>, pss: seq<seq<Phrase>>) {
    |hs| == |pss| && forall i :: 0 <= i < |hs| ==> ValidHeader(hs[i]) && GoodPhrases(pss[i], {"desc"})
  }

  predicate GoodTexts(xs: seq<DeltaText>, pss: seq<seq<Phrase>>, hs: seq<Header>) {
    |xs| == |pss| &&
    forall i :: 0 <= i < |xs| ==> ValidNum(xs[i].rev) && Known(hs, xs[i].rev) && GoodPhrases(pss[i], {"text"})
  }

  /** A token that is no symbol is lost; without one there has to be a delta. */
  predicate GoodLost(lost: seq<Tok>, hs: seq<Header>) {
    if lost == [] then hs != [] else |lost| == 1 && !lost[0].Id?
  }

  /** The source is one of the grammar. */
  predicate Fits(s: Source, clean: bool) {
    && GoodFront(s.head, s.branch, s.tags) && GoodClauses(s.clauses) && GoodLost(s.lost, s.deltas)
    && GoodDeltas(s.deltas, s.behind) && GoodTexts(s.texts, s.logs, ReadAll(s.deltas))
    && Ends(s.tail, clean, ReadAll(s.deltas))
  }

  function ClauseToks(c: Clause, rest: Rest): Rest {
    match c
    case Strict => [Id("strict"), Semi] + rest
    case Comment(text) => [Id("comment"), Str(text), Semi] + rest
    case Expansion(text) => [Id("expand"), Str(text), Semi] + rest
    case Other(p) => [Id(p.name)] + (p.body + ([Semi] + rest))
  }

  function ClausesToks(cs: seq<Clause>, rest: Rest): Rest {
    if cs == [] then rest else ClauseToks(cs[0], ClausesToks(cs[1..], rest))
  }

  function SourceToks(s: Source): Rest
    requires |s.deltas| == |s.behind| && |s.texts| == |s.logs|
  {
    FrontToks(s.head, s.branch, s.access, s.tags, s.locks, ClausesToks(s.clauses, s.lost +
      DeltasToks(s.deltas, s.behind, [Id("desc"), Str(s.desc)] + TextsToks(s.texts, s.logs, s.tail))))
  }

  function Settle(a: Admin, c: Clause): Admin
    requires GoodClause(c)
  {
    match c
    case Strict => a.(strict := true)
    case Comment(text) => a.(comment := Some(text))
    case Expansion(text) => a.(expand := DecodeExpand(text).value)
    case Other(_) => a
  }

  /** The last clause of a kind is the one that counts. */
  function SettleAll(a: Admin, cs: seq<Clause>): Admin
    requires GoodClauses(cs)
    decreases |cs|
  {
    if cs == [] then a
    else
      assert GoodClause(cs[0]);
      SettleAll(Settle(a, cs[0]), cs[1..])
  }

  /** What the file says. */
  function Said(s: Source): Doc
    requires GoodClauses(s.clauses)
  {
    Doc(SettleAll(Admin(s.head, s.branch, s.tags, false, None, Default), s.clauses), ReadAll(s.deltas), s.desc, s.texts)
  }

  // ----------------------------------------------------- a file of the grammar is read

  lemma {:induction false} ClauseRead(c: Clause, a: Admin, rest: Rest)
    requires GoodClause(c)
    ensures ParsePhrases(ClauseToks(c, rest), a) == ParsePhrases(rest, Settle(a, c))
  {
    hide DecodeExpand, ValidId;
    var ts := ClauseToks(c, rest);
    match c
    case Strict => assert ts[1..] == [Semi] + rest && ts[1..][1..] == rest;
    case Comment(text) =>
      assert ts[1..] == [Str(text), Semi] + rest && ts[1..][1..] == [Semi] + rest && ts[1..][1..][1..] == rest;
    case Expansion(text) =>
      assert ts[1..] == [Str(text), Semi] + rest && ts[1..][1..] == [Semi] + rest && ts[1..][1..][1..] == rest;
    case Other(p) => AdminPhraseGone(p, a, rest);
  }

  lemma {:induction false} ClausesRead(cs: seq<Clause>, a: Admin, rest: Rest)
    requires GoodClauses(cs)
    ensures ParsePhrases(ClausesToks(cs, rest), a) == ParsePhrases(rest, SettleAll(a, cs))
    decreases |cs|
  {
    if cs == [] {
    } else {
      assert GoodClause(cs[0]);
      hide ClauseToks, ParsePhrases, GoodClause, Settle;
      ClauseRead(cs[0], a, ClausesToks(cs[1..], rest));
      ClausesRead(cs[1..], Settle(a, cs[0]), rest);
    }
  }

  lemma {:induction false} LostRead(lost: seq<Tok>, hs: seq<Header>, a: Admin, rest: Rest)
    requires GoodLost(lost, hs) && rest != []
    requires hs != [] ==> ValidNum(hs[0].rev) && rest[0] == Id(hs[0].rev)
    ensures ParsePhrases(lost + rest, a) == Some((a, rest))
  {
    if lost == [] {
      assert lost + rest == rest;
      var s := hs[0].rev;
      assert !ValidId(s) && s !in KNOWN by { KnownIsNoNum(s); }
    } else {
      assert (lost + rest)[1..] == rest;
    }
  }

  lemma {:induction false} KnownIsNoNum(s: string)
    requires ValidNum(s)
    ensures s !in KNOWN && s != "desc" && s != "branch" && !ValidId(s)
  {
    assert s != "" ==> IsDigit(s[0]) || s[0] == '.';
  }

  lemma {:induction false} SourceRead(s: Source, clean: bool)
    requires Fits(s, clean)
    ensures ParseFile(SourceToks(s), clean) == Some(Said(s))
  {
    hide ClausesToks, FrontToks, DeltasToks, TextsToks, ParseAdmin, ParseDeltas, ParseTexts, ParsePhrases, ParseFile,
         GoodClauses, ReadAll, Ends, NoName, SettleAll, ValidHeader, GoodPhrases, Known, ValidNum, GoodLost;
    var t2 := TextsToks(s.texts, s.logs, s.tail);
    var t1 := [Id("desc"), Str(s.desc)] + t2;
    var t0 := DeltasToks(s.deltas, s.behind, t1);
    var a := Admin(s.head, s.branch, s.tags, false, None, Default);
    TextsRead(s.texts, s.logs, s.tail, clean, ReadAll(s.deltas));
    DeltasRead(s.deltas, s.behind, t1);
    FrontRead(s.head, s.branch, s.access, s.tags, s.locks, ClausesToks(s.clauses, s.lost + t0));
    ClausesRead(s.clauses, a, s.lost + t0);
    assert t0 != [] by { SomeLeft(t0); }
    FirstIsNum(s.deltas, s.behind);
    LostRead(s.lost, s.deltas, SettleAll(a, s.clauses), t0);
    PartsRead(SourceToks(s), SettleAll(a, s.clauses), t0, ReadAll(s.deltas), s.desc, t2, clean, s.texts);
  }

  lemma {:induction false} SomeLeft(rest: Rest)
    requires NoName(rest, "desc")
    ensures rest != []
  {
  }

  lemma {:induction false} FirstIsNum(hs: seq<Header>, pss: seq<seq<Phrase>>)
    requires GoodDeltas(hs, pss)
    ensures hs != [] ==> ValidNum(hs[0].rev)
  {
    if hs != [] { assert ValidHeader(hs[0]); }
  }

  // -------------------------------------------------- what is read is of the grammar

  lemma {:induction false} WordFound(ts: Rest, t: Tok)
    requires Want(ts, t).Some?
    ensures ts == [t] + Want(ts, t).value
  {
  }

  lemma {:induction false} NumFound(ts: Rest)
    requires WantNum(ts).Some?
    ensures var (num, r) := WantNum(ts).value; ValidNum(num) && ts == [Id(num)] + r
  {
  }

  lemma {:induction false} FieldFound(ts: Rest, word: string)
    requires NumField(ts, word).Some?
    ensures var (num, r) := NumField(ts, word).value; ValidNum(num) && ts == [Id(word), Id(num), Semi] + r
  {
    hide Want, WantNum, ValidNum;
    var r1 := Want(ts, Id(word)).value;
    var (num, r2) := WantNum(r1).value;
    WordFound(ts, Id(word));
    NumFound(r1);
    WordFound(r2, Semi);
  }

  lemma {:induction false} IdsFound(ts: Rest) returns (ns: seq<string>)
    ensures ts == Names(ns, SkipIds(ts))
  {
    if ts != [] && ts[0].Id? {
      var more := IdsFound(ts[1..]);
      ns := [ts[0].text] + more;
      assert ns[1..] == more && ts == [ts[0]] + ts[1..];
    } else {
      ns := [];
    }
  }

  lemma {:induction false} AccessFound(ts: Rest) returns (ns: seq<string>)
    requires ParseAccess(ts).Some?
    ensures ts == [Id("access")] + Names(ns, [Semi] + ParseAccess(ts).value)
  {
    hide Want, SkipIds, Names;
    var r := Want(ts, Id("access")).value;
    WordFound(ts, Id("access"));
    ns := IdsFound(r);
    WordFound(SkipIds(r), Semi);
  }

  lemma {:induction false} TagFound(ts: Rest)
    requires ts != [] && ts[0].Id? && ParseTags(ts).Some?
    ensures var (tags, r) := ParseTags(ts).value;
            tags != [] && ValidNum(tags[0].rev) && |ts| >= 3 &&
            ts == [Id(tags[0].name), Colon, Id(tags[0].rev)] + ts[3..] && ParseTags(ts[3..]) == Some((tags[1..], r))
  {
    hide Want, WantNum, ValidNum;
    var r1 := Want(ts[1..], Colon).value;
    var (num, r2) := WantNum(r1).value;
    WordFound(ts[1..], Colon);
    NumFound(r1);
    assert ts == [ts[0]] + ts[1..];
    assert ts == [ts[0], Colon, Id(num)] + r2;
    assert r2 == ts[3..];
    var (tags, r3) := ParseTags(r2).value;
    assert ([Tag(ts[0].text, num)] + tags)[1..] == tags;
  }

  lemma {:induction false} TagsFound(ts: Rest)
    requires ParseTags(ts).Some?
    ensures var (tags, r) := ParseTags(ts).value;
            ts == TagToks(tags, r) && forall i :: 0 <= i < |tags| ==> ValidNum(tags[i].rev)
    decreases |ts|
  {
    hide ValidNum;
    if ts[0].Id? {
      TagFound(ts);
      var (tags, r) := ParseTags(ts).value;
      TagsFound(ts[3..]);
      assert tags == [tags[0]] + tags[1..];
    } else {
      assert ts == [Semi] + ts[1..];
    }
  }

  lemma {:induction false} SymbolsFound(ts: Rest)
    requires ParseSymbols(ts).Some?
    ensures var (tags, r) := ParseSymbols(ts).value;
            ts == [Id("symbols")] + TagToks(tags, r) && forall i :: 0 <= i < |tags| ==> ValidNum(tags[i].rev)
  {
    hide Want, ParseTags, TagToks, ValidNum;
    WordFound(ts, Id("symbols"));
    TagsFound(Want(ts, Id("symbols")).value);
  }

  lemma {:induction false} LocksFound(ts: Rest) returns (ls: seq<(string, string)>)
    requires SkipLocks(ts).Some?
    ensures ts == LockToks(ls, SkipLocks(ts).value)
    decreases |ts|
  {
    if ts[0].Id? {
      var more := LocksFound(ts[3..]);
      ls := [(ts[0].text, ts[2].text)] + more;
      assert ls[1..] == more && ts == [ts[0], ts[1], ts[2]] + ts[3..];
    } else {
      ls := [];
      assert ts == [Semi] + ts[1..];
    }
  }

  lemma {:induction false} LockFound(ts: Rest) returns (ls: seq<(string, string)>)
    requires ParseLocks(ts).Some?
    ensures ts == [Id("locks")] + LockToks(ls, ParseLocks(ts).value)
  {
    hide Want, SkipLocks, LockToks;
    WordFound(ts, Id("locks"));
    ls := LocksFound(Want(ts, Id("locks")).value);
  }

  lemma {:induction false} BranchFound(ts: Rest)
    requires ParseBranch(ts).Some?
    ensures var (branch, r) := ParseBranch(ts).value;
            (branch.Some? ==> ValidNum(branch.value)) && ts == BranchToks(branch, r)
  {
    hide NumField, ValidNum;
    if ts != [] && ts[0] == Id("branch") { FieldFound(ts, "branch"); }
  }

  /** What the administrative part is up to the locks. */
  datatype Front = Front(
    head: string, branch: Option<string>, access: seq<string>, tags: seq<Tag>, locks: seq<(string, string)>, rest: Rest)

  lemma {:induction false} FrontFound(ts: Rest) returns (f: Front)
    requires ParseAdmin(ts).Some?
    ensures GoodFront(f.head, f.branch, f.tags)
    ensures ts == FrontToks(f.head, f.branch, f.access, f.tags, f.locks, f.rest)
    ensures ParseAdmin(ts) == ParsePhrases(f.rest, Admin(f.head, f.branch, f.tags, false, None, Default))
  {
    hide NumField, ParseBranch, ParseAccess, ParseSymbols, ParseLocks, ParsePhrases, ValidNum, BranchToks, Names,
         TagToks, LockToks;
    var (head, r) := NumField(ts, "head").value;
    var (branch, r2) := ParseBranch(r).value;
    var r3 := ParseAccess(r2).value;
    var (tags, r4) := ParseSymbols(r3).value;
    var r5 := ParseLocks(r4).value;
    FieldFound(ts, "head");
    BranchFound(r);
    var access := AccessFound(r2);
    SymbolsFound(r3);
    var locks := LockFound(r4);
    assert [Semi, Id("symbols")] + TagToks(tags, r4) == [Semi] + r3;
    f := Front(head, branch, access, tags, locks, r5);
  }

  lemma {:induction false} BodyFound(ts: Rest) returns (body: seq<Tok>)
    requires SkipPhrase(ts).Some?
    ensures Semi !in body && ts == body + ([Semi] + SkipPhrase(ts).value)
    decreases |ts|
  {
    if ts[0] == Semi {
      body := [];
      assert ts == [Semi] + ts[1..];
    } else {
      var more := BodyFound(ts[1..]);
      body := [ts[0]] + more;
      assert ts == [ts[0]] + ts[1..];
      hide SkipPhrase;
      Regroup([ts[0]], more, [Semi] + SkipPhrase(ts[1..]).value);
    }
  }

  lemma {:induction false} PhrasesFound(ts: Rest, stop: string) returns (ps: seq<Phrase>)
    requires SkipPhrases(ts, stop).Some?
    ensures GoodPhrases(ps, {stop}) && ts == Phrases(ps, SkipPhrases(ts, stop).value)
    ensures NoName(SkipPhrases(ts, stop).value, stop)
    decreases |ts|
  {
    hide ValidId, SkipPhrase;
    if ts[0] != Id(stop) && ts[0].Id? && ValidId(ts[0].text) {
      var r := SkipPhrase(ts[1..]).value;
      var body := BodyFound(ts[1..]);
      var more := PhrasesFound(r, stop);
      ps := [Phrase(ts[0].text, body)] + more;
      assert ps[1..] == more && ts == [ts[0]] + ts[1..];
    } else {
      ps := [];
    }
  }

  lemma {:induction false} TextClauseFound(ts: Rest, word: string, text: string)
    requires ts != [] && ts[0] == Id(word) && WantString(ts[1..]).Some?
    requires Want(WantString(ts[1..]).value.1, Semi).Some? && WantString(ts[1..]).value.0 == text
    ensures ts == [Id(word), Str(text), Semi] + Want(WantString(ts[1..]).value.1, Semi).value
  {
    assert ts == [ts[0]] + ts[1..] && ts[1..] == [ts[1]] + ts[1..][1..];
    WordFound(WantString(ts[1..]).value.1, Semi);
  }

  /** One clause, unless the part ends here. */
  lemma {:induction false} ClauseFound(ts: Rest, b: Admin) returns (c: Clause, r: Rest)
    requires ParsePhrases(ts, b).Some?
    requires ts != [] && ts[0].Id? && (ts[0].text in KNOWN || ValidId(ts[0].text))
    ensures GoodClause(c) && ts == ClauseToks(c, r) && |r| < |ts|
    ensures ParsePhrases(ts, b) == ParsePhrases(r, Settle(b, c))
  {
    hide ValidId, DecodeExpand, SkipPhrase;
    if ts[0].text == "strict" {
      c, r := Strict, Want(ts[1..], Semi).value;
      WordFound(ts[1..], Semi);
      assert ts == [ts[0]] + ts[1..];
    } else if ts[0].text == "comment" {
      var text := WantString(ts[1..]).value.0;
      TextClauseFound(ts, "comment", text);
      c, r := Comment(text), Want(WantString(ts[1..]).value.1, Semi).value;
    } else if ts[0].text == "expand" {
      var text := WantString(ts[1..]).value.0;
      TextClauseFound(ts, "expand", text);
      c, r := Expansion(text), Want(WantString(ts[1..]).value.1, Semi).value;
    } else {
      r := SkipPhrase(ts[1..]).value;
      var body := BodyFound(ts[1..]);
      c := Other(Phrase(ts[0].text, body));
      assert ts == [ts[0]] + ts[1..];
    }
  }

  lemma {:induction false} ClausesFound(ts: Rest, b: Admin) returns (cs: seq<Clause>, lost: seq<Tok>)
    requires ParsePhrases(ts, b).Some?
    ensures GoodClauses(cs)
    ensures var (a, r) := ParsePhrases(ts, b).value; ts == ClausesToks(cs, lost + r) && a == SettleAll(b, cs)
    ensures var r := ParsePhrases(ts, b).value.1;
            if lost == [] then r == [] || (r[0].Id? && !ValidId(r[0].text)) else |lost| == 1 && !lost[0].Id?
    decreases |ts|
  {
    hide GoodClause, ClauseToks, Settle, ValidId;
    var (a, r) := ParsePhrases(ts, b).value;
    if ts != [] && ts[0].Id? && (ts[0].text in KNOWN || ValidId(ts[0].text)) {
      var c, next := ClauseFound(ts, b);
      hide ParsePhrases;
      var more, left := ClausesFound(next, Settle(b, c));
      cs, lost := [c] + more, left;
      assert cs[1..] == more;
    } else if ts == [] || ts[0].Id? {
      cs, lost := [], [];
      assert lost + r == r;
    } else {
      cs, lost := [], [ts[0]];
      assert ts == [ts[0]] + ts[1..];
    }
  }

  // --------------------------------------------------------------- deltas and texts

  lemma {:induction false} AuthorFound(ts: Rest)
    requires ParseAuthor(ts).Some?
    ensures var (author, r) := ParseAuthor(ts).value; ValidId(author) && ts == [Id("author"), Id(author), Semi] + r
  {
    hide ValidId;
    var r1 := Want(ts, Id("author")).value;
    WordFound(ts, Id("author"));
    assert r1 == [r1[0]] + r1[1..];
    WordFound(r1[1..], Semi);
  }

  lemma {:induction false} OptionFound(ts: Rest, ok: string -> bool)
    requires Optional(ts, ok).Some?
    ensures var (o, r) := Optional(ts, ok).value; (o.Some? ==> ok(o.value)) && ts == Perhaps(o, [Semi] + r)
  {
    if ts[0].Id? && ok(ts[0].text) {
      WordFound(ts[1..], Semi);
      assert ts == [ts[0]] + ts[1..];
    } else {
      WordFound(ts, Semi);
    }
  }

  lemma {:induction false} StateFound(ts: Rest)
    requires ParseState(ts).Some?
    ensures var (state, r) := ParseState(ts).value;
            (state.Some? ==> ValidId(state.value)) && ts == [Id("state")] + Perhaps(state, [Semi] + r)
  {
    hide ValidId, Want, Perhaps;
    WordFound(ts, Id("state"));
    OptionFound(Want(ts, Id("state")).value, s => ValidId(s));
  }

  lemma {:induction false} NumsFound(ts: Rest) returns (ns: seq<string>)
    ensures ts == Names(ns, SkipNums(ts)) && forall i :: 0 <= i < |ns| ==> ValidNum(ns[i])
  {
    hide ValidNum;
    if ts != [] && ts[0].Id? && ValidNum(ts[0].text) {
      var more := NumsFound(ts[1..]);
      ns := [ts[0].text] + more;
      assert ns[1..] == more && ts == [ts[0]] + ts[1..];
    } else {
      ns := [];
    }
  }

  lemma {:induction false} NextFound(ts: Rest) returns (ns: seq<string>)
    requires ParseNext(ts).Some?
    ensures forall i :: 0 <= i < |ns| ==> ValidNum(ns[i])
    ensures var (next, r) := ParseNext(ts).value;
            (next.Some? ==> ValidNum(next.value)) &&
            ts == [Id("branches")] + Names(ns, [Semi] + ([Id("next")] + Perhaps(next, [Semi] + r)))
  {
    hide ValidNum, Want, Perhaps, Names, SkipNums, Optional;
    var r := Want(ts, Id("branches")).value;
    var r2 := Want(SkipNums(r), Semi).value;
    var r3 := Want(r2, Id("next")).value;
    WordFound(ts, Id("branches"));
    ns := NumsFound(r);
    WordFound(SkipNums(r), Semi);
    WordFound(r2, Id("next"));
    OptionFound(r3, s => ValidNum(s));
  }

  lemma {:induction false} DeltaFound(rev: string, ts: Rest) returns (ns: seq<string>, ps: seq<Phrase>)
    requires ValidNum(rev) && ParseDelta(rev, ts).Some?
    ensures var (h, r) := ParseDelta(rev, ts).value;
            ValidHeader(h.(branches := ns)) && GoodPhrases(ps, {"desc"}) && h.rev == rev && h.branches == [] &&
            [Id(rev)] + ts == DeltaToks(h.(branches := ns), ps, r)
  {
    hide NumField, ParseAuthor, ParseState, ParseNext, SkipPhrases, ValidNum, ValidId, Perhaps, Names, Phrases,
         GoodPhrases, DeltaToks;
    var (date, r) := NumField(ts, "date").value;
    var (author, r2) := ParseAuthor(r).value;
    var (state, r3) := ParseState(r2).value;
    var (next, r4) := ParseNext(r3).value;
    var r5 := SkipPhrases(r4, "desc").value;
    FieldFound(ts, "date");
    AuthorFound(r);
    StateFound(r2);
    ns := NextFound(r3);
    ps := PhrasesFound(r4, "desc");
    DeltaShape(Header(rev, date, author, state, ns, next), ps, r5, r, r2, r3,
      [Id("next")] + Perhaps(next, [Semi] + r4));
  }

  lemma {:induction false} DeltasFound(ts: Rest) returns (hs: seq<Header>, pss: seq<seq<Phrase>>)
    requires ParseDeltas(ts).Some?
    ensures GoodDeltas(hs, pss)
    ensures var (read, r) := ParseDeltas(ts).value;
            ReadAll(hs) == read && ts == DeltasToks(hs, pss, r) && (hs == [] ==> r == ts)
    decreases |ts|
  {
    hide ValidNum, ParseDelta, DeltaToks, ValidHeader, GoodPhrases;
    if ts == [] || !ts[0].Id? || !ValidNum(ts[0].text) {
      hs, pss := [], [];
    } else {
      var (h, r) := ParseDelta(ts[0].text, ts[1..]).value;
      var ns, ps := DeltaFound(ts[0].text, ts[1..]);
      var more, mores := DeltasFound(r);
      hs, pss := [h.(branches := ns)] + more, [ps] + mores;
      assert hs[1..] == more && pss[1..] == mores && ts == [ts[0]] + ts[1..];
    }
  }

  lemma {:induction false} TextFound(rev: string, ts: Rest) returns (ps: seq<Phrase>)
    requires ParseText(rev, ts).Some?
    ensures var (x, r) := ParseText(rev, ts).value;
            GoodPhrases(ps, {"text"}) && x.rev == rev && [Id(rev)] + ts == LogToks(x, ps, r)
  {
    hide SkipPhrases, GoodPhrases, Phrases, NoName;
    var r := Want(ts, Id("log")).value;
    var (log, r2) := WantString(r).value;
    var r3 := SkipPhrases(r2, "text").value;
    var r4 := Want(r3, Id("text")).value;
    WordFound(ts, Id("log"));
    assert r == [Str(log)] + r2;
    ps := PhrasesFound(r2, "text");
    WordFound(r3, Id("text"));
    assert r4 == [r4[0]] + r4[1..];
    assert r3 == [Id("text"), r4[0]] + r4[1..];
  }

  lemma {:induction false} TextsFound(ts: Rest, clean: bool, hs: seq<Header>)
    returns (pss: seq<seq<Phrase>>, tail: Rest)
    requires ParseTexts(ts, clean, hs).Some?
    ensures var xs := ParseTexts(ts, clean, hs).value;
            GoodTexts(xs, pss, hs) && ts == TextsToks(xs, pss, tail) && Ends(tail, clean, hs)
    decreases |ts|
  {
    hide ValidNum, Known, ParseText, LogToks, GoodPhrases;
    var xs := ParseTexts(ts, clean, hs).value;
    if ts == [] || !Known(hs, ts[0].text) {
      pss, tail := [], ts;
    } else {
      var (x, r) := ParseText(ts[0].text, ts[1..]).value;
      var ps := TextFound(ts[0].text, ts[1..]);
      var more, left := TextsFound(r, clean, hs);
      pss, tail := [ps] + more, left;
      assert pss[1..] == more && xs[1..] == ParseTexts(r, clean, hs).value && ts == [ts[0]] + ts[1..];
    }
  }

  // ------------------------------------------------------------------- whole files

  lemma {:induction false} SourceFound(ts: Rest, clean: bool) returns (s: Source)
    requires ParseFile(ts, clean).Some?
    ensures Fits(s, clean) && ts == SourceToks(s) && ParseFile(ts, clean) == Some(Said(s))
  {
    hide ParseAdmin, ParseDeltas, ParseTexts, ParsePhrases, FrontToks, ClausesToks, DeltasToks, TextsToks, GoodFront,
         GoodClauses, GoodDeltas, GoodTexts, Ends, ReadAll, SettleAll, ValidId;
    var (a, r) := ParseAdmin(ts).value;
    var (read, r2) := ParseDeltas(r).value;
    var r3 := Want(r2, Id("desc")).value;
    var (desc, r4) := WantString(r3).value;
    var f := FrontFound(ts);
    var cs, lost := ClausesFound(f.rest, Admin(f.head, f.branch, f.tags, false, None, Default));
    var hs, pss := DeltasFound(r);
    var lss, tail := TextsFound(r4, clean, read);
    WordFound(r2, Id("desc"));
    assert r3 == [Str(desc)] + r4;
    assert r2 == [Id("desc"), Str(desc)] + r4;
    DescIsName();
    var xs := ParseTexts(r4, clean, read).value;
    assert GoodLost(lost, hs);
    LengthsFit(hs, pss, xs, lss, read);
    s := Source(f.head, f.branch, f.access, f.tags, f.locks, cs, lost, hs, pss, desc, xs, lss, tail);
  }

  lemma {:induction false} DescIsName()
    ensures ValidId("desc")
  {
    assert "desc"[0] == 'd';
  }

  lemma {:induction false} LengthsFit(hs: seq<Header>, pss: seq<seq<Phrase>>, xs: seq<DeltaText>,
      lss: seq<seq<Phrase>>, read: seq<Header>)
    requires GoodDeltas(hs, pss) && GoodTexts(xs, lss, read)
    ensures |hs| == |pss| && |xs| == |lss|
  {
  }

  ghost predicate Writes(s: Source, ts: Rest, clean: bool, d: Doc) {
    Fits(s, clean) && ts == SourceToks(s) && d == Said(s)
  }

  /** The parser takes the files of the grammar and no others, and what it makes of one
      is what the file says. */
  lemma {:induction false} ParsedExactly(ts: Rest, clean: bool, d: Doc)
    ensures ParseFile(ts, clean) == Some(d) <==> exists s: Source :: Writes(s, ts, clean, d)
  {
    hide ParseFile, Fits, SourceToks, Said;
    if ParseFile(ts, clean) == Some(d) {
      var s := SourceFound(ts, clean);
      assert Writes(s, ts, clean, d);
    }
    forall s: Source | Writes(s, ts, clean, d) ensures ParseFile(ts, clean) == Some(d) {
      WritesRead(s, ts, clean, d);
    }
  }

  lemma {:induction false} WritesRead(s: Source, ts: Rest, clean: bool, d: Doc)
    requires Writes(s, ts, clean, d)
    ensures ParseFile(ts, clean) == Some(d)
  {
    hide ParseFile, Fits, SourceToks, Said;
    SourceRead(s, clean);
  }
}
