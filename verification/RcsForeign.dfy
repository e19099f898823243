/** RCS files that other programs have written: names in the access list, locks, and
    phrases that the parser does not know. */
module RcsForeign {
  import opened Lines
  import opened RcsLex
  import opened RcsText
  import opened RcsParse

  /** A word and what is behind it, up to a semicolon. */
  datatype Phrase = Phrase(name: string, body: seq<Tok>)

  /** What this program does not print: the access list, the locks, phrases in four
      places of the administrative part, behind each delta and behind each log. */
  datatype Extra = Extra(
    access: seq<string>, locks: seq<(string, string)>,
    first: seq<Phrase>, second: seq<Phrase>, third: seq<Phrase>, last: seq<Phrase>,
    deltas: seq<seq<Phrase>>, logs: seq<seq<Phrase>>)

  predicate GoodPhrase(p: Phrase, words: set<string>) {
    ValidId(p.name) && p.name !in words && Semi !in p.body
  }

  predicate GoodPhrases(ps: seq<Phrase>, words: set<string>) {
    forall i :: 0 <= i < |ps| ==> GoodPhrase(ps[i], words)
  }

  const KNOWN := {"strict", "comment", "expand"}

  predicate GoodExtra(e: Extra, d: Doc) {
    && GoodPhrases(e.first, KNOWN) && GoodPhrases(e.second, KNOWN)
    && GoodPhrases(e.third, KNOWN) && GoodPhrases(e.last, KNOWN)
    && |e.deltas| == |d.headers| && (forall i :: 0 <= i < |e.deltas| ==> GoodPhrases(e.deltas[i], {"desc"}))
    && |e.logs| == |d.texts| && (forall i :: 0 <= i < |e.logs| ==> GoodPhrases(e.logs[i], {"text"}))
  }

  /** Other programs write such a phrase behind every delta. */
  lemma {:induction false} CommitId(id: string)
    ensures GoodPhrase(Phrase("commitid", [Id(id)]), {"desc"})
  {
    assert "commitid"[0] == 'c';
  }

  // ------------------------------------------------------- the tokens of such a file

  function Names(ns: seq<string>, rest: Rest): Rest {
    if ns == [] then rest else [Id(ns[0])] + Names(ns[1..], rest)
  }

  function Phrases(ps: seq<Phrase>, rest: Rest): Rest {
    if ps == [] then rest else [Id(ps[0].name)] + (ps[0].body + ([Semi] + Phrases(ps[1..], rest)))
  }

  function Perhaps(o: Option<string>, rest: Rest): Rest {
    if o.Some? then [Id(o.value)] + rest else rest
  }

  function TagToks(tags: seq<Tag>, rest: Rest): Rest {
    if tags == [] then [Semi] + rest
    else [Id(tags[0].name), Colon, Id(tags[0].rev)] + TagToks(tags[1..], rest)
  }

  function LockToks(ls: seq<(string, string)>, rest: Rest): Rest {
    if ls == [] then [Semi] + rest else [Id(ls[0].0), Colon, Id(ls[0].1)] + LockToks(ls[1..], rest)
  }

  function StrictToks(a: Admin, rest: Rest): Rest {
    if a.strict then [Id("strict"), Semi] + rest else rest
  }

  function CommentToks(a: Admin, rest: Rest): Rest {
    if a.comment.Some? then [Id("comment"), Str(a.comment.value), Semi] + rest else rest
  }

  function ExpandToks(a: Admin, rest: Rest): Rest {
    if a.expand != Default then [Id("expand"), Str(EncodeExpand(a.expand)), Semi] + rest else rest
  }

  function EndToks(a: Admin, e: Extra, rest: Rest): Rest {
    Phrases(e.first, StrictToks(a, Phrases(e.second, CommentToks(a, Phrases(e.third, ExpandToks(a,
      Phrases(e.last, rest)))))))
  }

  function BranchToks(branch: Option<string>, rest: Rest): Rest {
    if branch.Some? then [Id("branch"), Id(branch.value), Semi] + rest else rest
  }

  /** The administrative part up to the locks. */
  function FrontToks(head: string, branch: Option<string>, access: seq<string>, tags: seq<Tag>,
      locks: seq<(string, string)>, rest: Rest): Rest
  {
    [Id("head"), Id(head), Semi] + BranchToks(branch, [Id("access")] + Names(access, [Semi, Id("symbols")] +
      TagToks(tags, [Id("locks")] + LockToks(locks, rest))))
  }

  function AdminToks(a: Admin, e: Extra, rest: Rest): Rest {
    FrontToks(a.head, a.branch, e.access, a.tags, e.locks, EndToks(a, e, rest))
  }

  function DeltaToks(h: Header, ps: seq<Phrase>, rest: Rest): Rest {
    [Id(h.rev), Id("date"), Id(h.date), Semi, Id("author"), Id(h.author), Semi, Id("state")] +
    Perhaps(h.state, [Semi, Id("branches")] + Names(h.branches, [Semi, Id("next")] +
      Perhaps(h.next, [Semi] + Phrases(ps, rest))))
  }

  function DeltasToks(hs: seq<Header>, pss: seq<seq<Phrase>>, rest: Rest): Rest
    requires |hs| == |pss|
  {
    if hs == [] then rest else DeltaToks(hs[0], pss[0], DeltasToks(hs[1..], pss[1..], rest))
  }

  function LogToks(x: DeltaText, ps: seq<Phrase>, rest: Rest): Rest {
    [Id(x.rev), Id("log"), Str(x.log)] + Phrases(ps, [Id("text"), Str(x.text)] + rest)
  }

  function TextsToks(xs: seq<DeltaText>, pss: seq<seq<Phrase>>, rest: Rest): Rest
    requires |xs| == |pss|
  {
    if xs == [] then rest else LogToks(xs[0], pss[0], TextsToks(xs[1..], pss[1..], rest))
  }

  function FileToks(d: Doc, e: Extra): Rest
    requires |e.deltas| == |d.headers| && |e.logs| == |d.texts|
  {
    AdminToks(d.admin, e, DeltasToks(d.headers, e.deltas, [Id("desc"), Str(d.desc)] +
      TextsToks(d.texts, e.logs, [])))
  }

  // ------------------------------------------------------------------- phrases

  lemma {:induction false} BodySkipped(body: seq<Tok>, rest: Rest)
    requires Semi !in body
    ensures SkipPhrase(body + ([Semi] + rest)) == Some(rest)
  {
    var ts := body + ([Semi] + rest);
    if body == [] {
      assert ts == [Semi] + rest && ts[1..] == rest;
    } else {
      assert body[0] in body;
      assert ts[1..] == body[1..] + ([Semi] + rest);
      BodySkipped(body[1..], rest);
    }
  }

  lemma {:induction false} PhraseGone(p: Phrase, stop: string, rest: Rest)
    requires GoodPhrase(p, {stop})
    ensures SkipPhrases([Id(p.name)] + (p.body + ([Semi] + rest)), stop) == SkipPhrases(rest, stop)
  {
    BodySkipped(p.body, rest);
    hide ValidId, SkipPhrase;
    var ts := [Id(p.name)] + (p.body + ([Semi] + rest));
    assert ts[1..] == p.body + ([Semi] + rest);
  }

  /** Behind a delta or a log unknown phrases are passed over. */
  lemma {:induction false} PhrasesGone(ps: seq<Phrase>, stop: string, rest: Rest)
    requires GoodPhrases(ps, {stop})
    ensures SkipPhrases(Phrases(ps, rest), stop) == SkipPhrases(rest, stop)
  {
    if ps != [] {
      hide SkipPhrases, ValidId;
      assert GoodPhrase(ps[0], {stop});
      PhraseGone(ps[0], stop, Phrases(ps[1..], rest));
      PhrasesGone(ps[1..], stop, rest);
    }
  }

  lemma {:induction false} AdminPhraseGone(p: Phrase, a: Admin, rest: Rest)
    requires GoodPhrase(p, KNOWN)
    ensures ParsePhrases([Id(p.name)] + (p.body + ([Semi] + rest)), a) == ParsePhrases(rest, a)
  {
    BodySkipped(p.body, rest);
    hide ValidId, SkipPhrase;
    var ts := [Id(p.name)] + (p.body + ([Semi] + rest));
    assert ts[1..] == p.body + ([Semi] + rest);
  }

  /** So are they in the administrative part. */
  lemma {:induction false} AdminPhrasesGone(ps: seq<Phrase>, a: Admin, rest: Rest)
    requires GoodPhrases(ps, KNOWN)
    ensures ParsePhrases(Phrases(ps, rest), a) == ParsePhrases(rest, a)
  {
    if ps != [] {
      hide ParsePhrases, ValidId;
      assert GoodPhrase(ps[0], KNOWN);
      AdminPhraseGone(ps[0], a, Phrases(ps[1..], rest));
      AdminPhrasesGone(ps[1..], a, rest);
    }
  }

  // -------------------------------------------------------- administrative part

  lemma {:induction false} StrictRead(a: Admin, b: Admin, rest: Rest)
    requires !b.strict
    ensures ParsePhrases(StrictToks(a, rest), b) == ParsePhrases(rest, b.(strict := a.strict))
  {
    if a.strict {
      var ts := [Id("strict"), Semi] + rest;
      assert ts[1..] == [Semi] + rest && ts[1..][1..] == rest;
    }
  }

  lemma {:induction false} CommentRead(a: Admin, b: Admin, rest: Rest)
    requires b.comment == None
    ensures ParsePhrases(CommentToks(a, rest), b) == ParsePhrases(rest, b.(comment := a.comment))
  {
    if a.comment.Some? {
      var ts := [Id("comment"), Str(a.comment.value), Semi] + rest;
      assert ts[1..] == [Str(a.comment.value), Semi] + rest && ts[1..][1..] == [Semi] + rest;
      assert ts[1..][1..][1..] == rest;
    }
  }

  lemma {:induction false} ExpandRead(a: Admin, b: Admin, rest: Rest)
    requires b.expand == Default
    ensures ParsePhrases(ExpandToks(a, rest), b) == ParsePhrases(rest, b.(expand := a.expand))
  {
    if a.expand != Default {
      ExpandReadsBack(a.expand);
      hide EncodeExpand, DecodeExpand;
      var ts := [Id("expand"), Str(EncodeExpand(a.expand)), Semi] + rest;
      assert ts[1..] == [Str(EncodeExpand(a.expand)), Semi] + rest && ts[1..][1..] == [Semi] + rest;
      assert ts[1..][1..][1..] == rest;
    }
  }

  lemma {:induction false} EndRead(a: Admin, e: Extra, b: Admin, rest: Rest)
    requires GoodPhrases(e.first, KNOWN) && GoodPhrases(e.second, KNOWN)
    requires GoodPhrases(e.third, KNOWN) && GoodPhrases(e.last, KNOWN)
    requires !b.strict && b.comment == None && b.expand == Default && NoPhrase(rest)
    ensures ParsePhrases(EndToks(a, e, rest), b)
         == Some((b.(strict := a.strict, comment := a.comment, expand := a.expand), rest))
  {
    hide ParsePhrases, Phrases, StrictToks, CommentToks, ExpandToks, NoPhrase, GoodPhrases;
    var t3 := ExpandToks(a, Phrases(e.last, rest));
    var t2 := CommentToks(a, Phrases(e.third, t3));
    var b1, b2 := b.(strict := a.strict), b.(strict := a.strict, comment := a.comment);
    var b3 := b2.(expand := a.expand);
    AdminPhrasesGone(e.first, b, StrictToks(a, Phrases(e.second, t2)));
    StrictRead(a, b, Phrases(e.second, t2));
    AdminPhrasesGone(e.second, b1, t2);
    CommentRead(a, b1, Phrases(e.third, t3));
    AdminPhrasesGone(e.third, b2, t3);
    ExpandRead(a, b2, Phrases(e.last, rest));
    AdminPhrasesGone(e.last, b3, rest);
    NoPhraseStops(rest, b3);
  }

  lemma {:induction false} NamesSkipped(ns: seq<string>, rest: Rest)
    ensures SkipIds(Names(ns, [Semi] + rest)) == [Semi] + rest
  {
    if ns != [] {
      NamesSkipped(ns[1..], rest);
      assert Names(ns, [Semi] + rest)[1..] == Names(ns[1..], [Semi] + rest);
    }
  }

  lemma {:induction false} LocksSkipped(ls: seq<(string, string)>, rest: Rest)
    ensures SkipLocks(LockToks(ls, rest)) == Some(rest)
  {
    var ts := LockToks(ls, rest);
    if ls == [] {
      assert ts[1..] == rest;
    } else {
      LocksSkipped(ls[1..], rest);
      assert ts[3..] == LockToks(ls[1..], rest);
    }
  }

  lemma {:induction false} TagsRead(tags: seq<Tag>, rest: Rest)
    requires forall i :: 0 <= i < |tags| ==> ValidNum(tags[i].rev)
    ensures ParseTags(TagToks(tags, rest)) == Some((tags, rest))
  {
    if tags == [] {
      assert ([Semi] + rest)[1..] == rest;
    } else {
      assert ValidNum(tags[0].rev);
      hide ValidNum, IsSymbol, ParseTags;
      TagsRead(tags[1..], rest);
      TagBack(tags[0], TagToks(tags[1..], rest));
      assert tags == [tags[0]] + tags[1..];
    }
  }

  lemma {:induction false} FieldRead(word: string, num: string, rest: Rest)
    requires ValidNum(num)
    ensures NumField([Id(word), Id(num), Semi] + rest, word) == Some((num, rest))
  {
    hide ValidNum;
    var ts := [Id(word), Id(num), Semi] + rest;
    assert ts[1..] == [Id(num), Semi] + rest && ts[1..][1..] == [Semi] + rest && ts[1..][1..][1..] == rest;
  }

  lemma {:induction false} BranchRead(branch: Option<string>, rest: Rest)
    requires (branch.Some? ==> ValidNum(branch.value)) && rest != [] && rest[0] == Id("access")
    ensures ParseBranch(BranchToks(branch, rest)) == Some((branch, rest))
  {
    if branch.Some? {
      FieldRead("branch", branch.value, rest);
    }
  }

  lemma {:induction false} AccessRead(ns: seq<string>, rest: Rest)
    ensures ParseAccess([Id("access")] + Names(ns, [Semi] + rest)) == Some(rest)
  {
    NamesSkipped(ns, rest);
    hide Names, SkipIds;
    assert ([Id("access")] + Names(ns, [Semi] + rest))[1..] == Names(ns, [Semi] + rest);
    assert ([Semi] + rest)[1..] == rest;
  }

  lemma {:induction false} SymbolsRead(tags: seq<Tag>, rest: Rest)
    requires forall i :: 0 <= i < |tags| ==> ValidNum(tags[i].rev)
    ensures ParseSymbols([Id("symbols")] + TagToks(tags, rest)) == Some((tags, rest))
  {
    TagsRead(tags, rest);
    hide TagToks, ParseTags;
    assert ([Id("symbols")] + TagToks(tags, rest))[1..] == TagToks(tags, rest);
  }

  lemma {:induction false} LocksRead(ls: seq<(string, string)>, rest: Rest)
    ensures ParseLocks([Id("locks")] + LockToks(ls, rest)) == Some(rest)
  {
    LocksSkipped(ls, rest);
    hide LockToks, SkipLocks;
    assert ([Id("locks")] + LockToks(ls, rest))[1..] == LockToks(ls, rest);
  }

  lemma {:induction false} FrontRead(head: string, branch: Option<string>, access: seq<string>, tags: seq<Tag>,
      locks: seq<(string, string)>, rest: Rest)
    requires ValidNum(head) && (branch.Some? ==> ValidNum(branch.value))
    requires forall i :: 0 <= i < |tags| ==> ValidNum(tags[i].rev)
    ensures ParseAdmin(FrontToks(head, branch, access, tags, locks, rest))
         == ParsePhrases(rest, Admin(head, branch, tags, false, None, Default))
  {
    hide ParseBranch, ParseAccess, ParseSymbols, ParseLocks, ParsePhrases, NumField, ValidNum, Names, TagToks, LockToks,
         BranchToks;
    var t3 := [Id("locks")] + LockToks(locks, rest);
    var t2 := [Id("symbols")] + TagToks(tags, t3);
    var t1 := [Id("access")] + Names(access, [Semi] + t2);
    assert [Semi, Id("symbols")] + TagToks(tags, t3) == [Semi] + t2;
    FieldRead("head", head, BranchToks(branch, t1));
    BranchRead(branch, t1);
    AccessRead(access, t2);
    SymbolsRead(tags, t3);
    LocksRead(locks, rest);
  }

  lemma {:induction false} AdminRead(a: Admin, e: Extra, rest: Rest)
    requires GoodAdmin(a) && NoPhrase(rest)
    requires GoodPhrases(e.first, KNOWN) && GoodPhrases(e.second, KNOWN)
    requires GoodPhrases(e.third, KNOWN) && GoodPhrases(e.last, KNOWN)
    ensures ParseAdmin(AdminToks(a, e, rest)) == Some((a, rest))
  {
    assert forall i :: 0 <= i < |a.tags| ==> IsNum(a.tags[i].rev) && ValidNum(a.tags[i].rev);
    assert ValidNum(a.head);
    hide ParseAdmin, ParsePhrases, NoPhrase, GoodPhrases, FrontToks, EndToks, IsSymbol, ValidNum, Doubled;
    FrontRead(a.head, a.branch, e.access, a.tags, e.locks, EndToks(a, e, rest));
    EndRead(a, e, Admin(a.head, a.branch, a.tags, false, None, Default), rest);
  }

  // --------------------------------------------------------------- deltas and texts

  lemma {:induction false} NumsSkipped(ns: seq<string>, rest: Rest)
    requires forall i :: 0 <= i < |ns| ==> ValidNum(ns[i])
    ensures SkipNums(Names(ns, [Semi] + rest)) == [Semi] + rest
  {
    if ns != [] {
      assert ValidNum(ns[0]);
      NumsSkipped(ns[1..], rest);
      assert Names(ns, [Semi] + rest)[1..] == Names(ns[1..], [Semi] + rest);
    }
  }

  lemma {:induction false} AuthorRead(author: string, rest: Rest)
    requires ValidId(author)
    ensures ParseAuthor([Id("author"), Id(author), Semi] + rest) == Some((author, rest))
  {
    hide ValidId;
    var ts := [Id("author"), Id(author), Semi] + rest;
    assert ts[1..] == [Id(author), Semi] + rest && ts[1..][1..] == [Semi] + rest && ts[1..][1..][1..] == rest;
  }

  lemma {:induction false} StateRead(state: Option<string>, rest: Rest)
    requires state.Some? ==> ValidId(state.value)
    ensures ParseState([Id("state")] + Perhaps(state, [Semi] + rest)) == Some((state, rest))
  {
    hide ValidId;
    var ts := [Id("state")] + Perhaps(state, [Semi] + rest);
    assert ts[1..] == Perhaps(state, [Semi] + rest) && ([Semi] + rest)[1..] == rest;
    if state.Some? {
      assert ts[1..][1..] == [Semi] + rest;
    }
  }

  lemma {:induction false} NextRead(ns: seq<string>, next: Option<string>, rest: Rest)
    requires (forall i :: 0 <= i < |ns| ==> ValidNum(ns[i])) && (next.Some? ==> ValidNum(next.value))
    ensures ParseNext([Id("branches")] + Names(ns, [Semi] + ([Id("next")] + Perhaps(next, [Semi] + rest))))
         == Some((next, rest))
  {
    var end := [Id("next")] + Perhaps(next, [Semi] + rest);
    NumsSkipped(ns, end);
    hide IsSymbol, ValidNum, Names, SkipNums;
    assert ([Id("branches")] + Names(ns, [Semi] + end))[1..] == Names(ns, [Semi] + end);
    assert ([Semi] + end)[1..] == end && end[1..] == Perhaps(next, [Semi] + rest) && ([Semi] + rest)[1..] == rest;
    if next.Some? {
      assert end[1..][1..] == [Semi] + rest;
    }
  }

  lemma {:induction false} DeltaShape(h: Header, ps: seq<Phrase>, rest: Rest, t1: Rest, t2: Rest, t3: Rest, t4: Rest)
    requires t4 == [Id("next")] + Perhaps(h.next, [Semi] + Phrases(ps, rest))
    requires t3 == [Id("branches")] + Names(h.branches, [Semi] + t4)
    requires t2 == [Id("state")] + Perhaps(h.state, [Semi] + t3)
    requires t1 == [Id("author"), Id(h.author), Semi] + t2
    ensures DeltaToks(h, ps, rest) == [Id(h.rev)] + ([Id("date"), Id(h.date), Semi] + t1)
  {
    hide Perhaps, Names, Phrases;
    assert [Semi, Id("next")] + Perhaps(h.next, [Semi] + Phrases(ps, rest)) == [Semi] + t4;
    assert [Semi, Id("branches")] + Names(h.branches, [Semi] + t4) == [Semi] + t3;
  }

  /** What the parser asks of a delta. */
  predicate ValidHeader(h: Header) {
    && ValidNum(h.rev) && ValidNum(h.date) && ValidId(h.author) && (h.state.Some? ==> ValidId(h.state.value))
    && (forall i :: 0 <= i < |h.branches| ==> ValidNum(h.branches[i])) && (h.next.Some? ==> ValidNum(h.next.value))
  }

  lemma {:induction false} GoodIsValid(h: Header)
    requires GoodHeader(h)
    ensures ValidHeader(h)
  {
    assert forall i :: 0 <= i < |h.branches| ==> IsNum(h.branches[i]);
    hide ValidNum, ValidId, IsSymbol;
  }

  /** No phrase begins here. */
  predicate NoName(rest: Rest, stop: string) {
    rest != [] && (rest[0] == Id(stop) || !rest[0].Id? || !ValidId(rest[0].text))
  }

  lemma {:induction false} PhrasesStop(ps: seq<Phrase>, stop: string, rest: Rest)
    requires GoodPhrases(ps, {stop}) && NoName(rest, stop)
    ensures SkipPhrases(Phrases(ps, rest), stop) == Some(rest)
  {
    PhrasesGone(ps, stop, rest);
    hide ValidId, Phrases;
  }

  /** One delta, with anything behind it. */
  lemma {:induction false} DeltaRead(h: Header, ps: seq<Phrase>, rest: Rest)
    requires ValidHeader(h) && GoodPhrases(ps, {"desc"}) && NoName(rest, "desc")
    ensures var ts := DeltaToks(h, ps, rest);
            ts != [] && ts[0] == Id(h.rev) && ParseDelta(h.rev, ts[1..]) == Some((Read(h), rest))
  {
    hide NumField, ParseAuthor, ParseState, ParseNext, SkipPhrases, NoName, ValidNum, ValidId,
         Perhaps, Names, Phrases, GoodPhrases, DeltaToks;
    var t5 := Phrases(ps, rest);
    var t4 := [Id("next")] + Perhaps(h.next, [Semi] + t5);
    var t3 := [Id("branches")] + Names(h.branches, [Semi] + t4);
    var t2 := [Id("state")] + Perhaps(h.state, [Semi] + t3);
    var t1 := [Id("author"), Id(h.author), Semi] + t2;
    DeltaShape(h, ps, rest, t1, t2, t3, t4);
    FieldRead("date", h.date, t1);
    AuthorRead(h.author, t2);
    StateRead(h.state, t3);
    NextRead(h.branches, h.next, t5);
    PhrasesStop(ps, "desc", rest);
  }

  lemma {:induction false} NumStops(rest: Rest)
    requires rest != [] && rest[0].Id? && ValidNum(rest[0].text)
    ensures NoName(rest, "desc")
  {
  }

  lemma {:induction false} DeltasRead(hs: seq<Header>, pss: seq<seq<Phrase>>, rest: Rest)
    requires |hs| == |pss| && rest != [] && rest[0] == Id("desc")
    requires forall i :: 0 <= i < |hs| ==> ValidHeader(hs[i]) && GoodPhrases(pss[i], {"desc"})
    ensures ParseDeltas(DeltasToks(hs, pss, rest)) == Some((ReadAll(hs), rest))
    ensures var ts := DeltasToks(hs, pss, rest); NoName(ts, "desc") && (hs != [] ==> ts[0] == Id(hs[0].rev))
  {
    if hs == [] {
      assert rest[0].text[0] == 'd';
    } else {
      assert ValidHeader(hs[0]) && ValidNum(hs[0].rev) && GoodPhrases(pss[0], {"desc"});
      DeltasRead(hs[1..], pss[1..], rest);
      DeltaRead(hs[0], pss[0], DeltasToks(hs[1..], pss[1..], rest));
      hide DeltaToks, ParseDelta, ValidHeader, GoodPhrases, ValidNum, NoName;
      NumStops(DeltasToks(hs, pss, rest));
    }
  }

  lemma {:induction false} LogRead(x: DeltaText, ps: seq<Phrase>, rest: Rest)
    requires GoodPhrases(ps, {"text"})
    ensures var ts := LogToks(x, ps, rest);
            ts != [] && ts[0] == Id(x.rev) && ParseText(x.rev, ts[1..]) == Some((x, rest))
  {
    var end := [Id("text"), Str(x.text)] + rest;
    PhrasesGone(ps, "text", end);
    assert end[1..] == [Str(x.text)] + rest && end[1..][1..] == rest;
    assert SkipPhrases(end, "text") == Some(end);
    hide Phrases, SkipPhrases, GoodPhrases;
    var ts := LogToks(x, ps, rest);
    assert ts[1..] == [Id("log"), Str(x.log)] + Phrases(ps, end);
    assert ts[1..][1..] == [Str(x.log)] + Phrases(ps, end) && ts[1..][1..][1..] == Phrases(ps, end);
  }

  lemma {:induction false} TextCons(ts: Rest, x: DeltaText, rest: Rest, clean: bool, hs: seq<Header>,
      xs: seq<DeltaText>)
    requires ts != [] && ts[0] == Id(x.rev) && ValidNum(x.rev) && Known(hs, x.rev)
    requires ParseText(x.rev, ts[1..]) == Some((x, rest)) && ParseTexts(rest, clean, hs) == Some(xs)
    ensures ParseTexts(ts, clean, hs) == Some([x] + xs)
  {
    hide ParseText, Known, ValidNum;
  }

  /** The texts end with the file, or before one whose delta nobody knows. */
  predicate Ends(rest: Rest, clean: bool, hs: seq<Header>) {
    if rest == [] then clean else rest[0].Id? && ValidNum(rest[0].text) && !Known(hs, rest[0].text)
  }

  lemma {:induction false} TextsRead(xs: seq<DeltaText>, pss: seq<seq<Phrase>>, rest: Rest, clean: bool,
      hs: seq<Header>)
    requires |xs| == |pss| && Ends(rest, clean, hs)
    requires forall i :: 0 <= i < |xs| ==>
               ValidNum(xs[i].rev) && Known(hs, xs[i].rev) && GoodPhrases(pss[i], {"text"})
    ensures ParseTexts(TextsToks(xs, pss, rest), clean, hs) == Some(xs)
  {
    if xs == [] {
    } else {
      assert ValidNum(xs[0].rev) && Known(hs, xs[0].rev) && GoodPhrases(pss[0], {"text"});
      hide LogToks, ParseText, ParseTexts, Known, GoodPhrases, ValidNum, Ends;
      var more := TextsToks(xs[1..], pss[1..], rest);
      TextsRead(xs[1..], pss[1..], rest, clean, hs);
      LogRead(xs[0], pss[0], more);
      TextCons(LogToks(xs[0], pss[0], more), xs[0], more, clean, hs, xs[1..]);
      assert xs == [xs[0]] + xs[1..];
    }
  }

  // ----------------------------------------------------------------- whole files

  lemma {:induction false} DocParts(d: Doc, e: Extra)
    requires GoodDoc(d) && GoodExtra(e, d)
    ensures GoodAdmin(d.admin) && d.headers != [] && IsNum(d.headers[0].rev)
    ensures forall i :: 0 <= i < |d.headers| ==> ValidHeader(d.headers[i]) && GoodPhrases(e.deltas[i], {"desc"})
    ensures forall i :: 0 <= i < |d.texts| ==>
              ValidNum(d.texts[i].rev) && Known(ReadAll(d.headers), d.texts[i].rev) && GoodPhrases(e.logs[i], {"text"})
  {
    assert GoodHeader(d.headers[0]);
    hide GoodAdmin, Known, ReadAll, GoodPhrases, GoodHeader, ValidHeader, ValidNum, IsSymbol, Doubled;
    forall i | 0 <= i < |d.headers| ensures ValidHeader(d.headers[i]) {
      GoodIsValid(d.headers[i]);
    }
    forall i | 0 <= i < |d.texts| ensures ValidNum(d.texts[i].rev) && Known(ReadAll(d.headers), d.texts[i].rev) {
      assert GoodText(d.texts[i]);
      HeadersRead(d.headers, d.texts[i].rev);
    }
  }

  lemma {:induction false} PartsRead(ts: Rest, a: Admin, r: Rest, hs: seq<Header>, desc: string, r2: Rest,
      clean: bool, xs: seq<DeltaText>)
    requires ParseAdmin(ts) == Some((a, r)) && ParseDeltas(r) == Some((hs, [Id("desc"), Str(desc)] + r2))
    requires ParseTexts(r2, clean, hs) == Some(xs)
    ensures ParseFile(ts, clean) == Some(Doc(a, hs, desc, xs))
  {
    hide ParseAdmin, ParseDeltas, ParseTexts;
    var end := [Id("desc"), Str(desc)] + r2;
    assert end[1..] == [Str(desc)] + r2 && end[1..][1..] == r2;
  }

  /** Whatever other programs put into the access list, the locks and phrases of their
      own, the file is read as what it says without that. */
  lemma {:induction false} ForeignFile(d: Doc, e: Extra)
    requires GoodDoc(d) && GoodExtra(e, d)
    ensures ParseFile(FileToks(d, e), true) == Some(d.(headers := ReadAll(d.headers)))
  {
    assert GoodPhrases(e.first, KNOWN) && GoodPhrases(e.second, KNOWN);
    assert GoodPhrases(e.third, KNOWN) && GoodPhrases(e.last, KNOWN);
    hide AdminToks, DeltasToks, TextsToks, ParseAdmin, ParseDeltas, ParseTexts, ParseFile, GoodAdmin, ValidHeader,
         Known, ReadAll, Doubled, GoodPhrases, GoodDoc, IsNum, GoodExtra, NoName, NoPhrase, ValidNum;
    DocParts(d, e);
    var t2 := TextsToks(d.texts, e.logs, []);
    var t1 := [Id("desc"), Str(d.desc)] + t2;
    var t0 := DeltasToks(d.headers, e.deltas, t1);
    DeltasRead(d.headers, e.deltas, t1);
    StartsWell(d.headers, t0);
    AdminRead(d.admin, e, t0);
    TextsRead(d.texts, e.logs, [], true, ReadAll(d.headers));
    PartsRead(FileToks(d, e), d.admin, t0, ReadAll(d.headers), d.desc, t2, true, d.texts);
  }

  lemma StartsWell(hs: seq<Header>, ts: Rest)
    requires hs != [] && IsNum(hs[0].rev) && ts != [] && ts[0] == Id(hs[0].rev)
    ensures NoPhrase(ts)
  {
  }

  /** On bytes: with any white space that keeps the symbols apart. */
  lemma {:induction false} ForeignBytes(d: Doc, e: Extra, ps: seq<Piece>, tail: string)
    requires GoodDoc(d) && GoodExtra(e, d)
    requires Toks(ps) == FileToks(d, e) && Printable(ps, tail) && AllSpace(tail)
    ensures var bytes := Render(ps, tail);
            ParseFile(Tokens(bytes, 0).0, Tokens(bytes, 0).1) == Some(d.(headers := ReadAll(d.headers)))
  {
    var bytes := Render(ps, tail);
    assert bytes[0..] == bytes;
    hide Render, Tokens, Toks, Printable, ParseFile, GoodDoc, GoodExtra, FileToks, ReadAll;
    TokensOfPrinted(bytes, 0, ps, tail);
    ForeignFile(d, e);
  }

  // ------------------------------------------------------------ the printed file

  /** Nothing that this program would not print. */
  function Plain(d: Doc): (e: Extra)
    ensures |e.deltas| == |d.headers| && |e.logs| == |d.texts|
  {
    Extra([], [], [], [], [], [], seq(|d.headers|, _ => []), seq(|d.texts|, _ => []))
  }

  lemma {:induction false} FieldPlain(space: string, word: string, part: string, value: Tok, rest: Rest)
    ensures Toks(Field(space, word, part, value)) + rest == [Id(word), value, Semi] + rest
  {
    Toks3(Piece(space, Id(word)), Piece(part, value), Piece("", Semi));
  }

  lemma {:induction false} TagsPlain(tags: seq<Tag>, rest: Rest)
    ensures Toks(TagPieces(tags)) + ([Semi] + rest) == TagToks(tags, rest)
  {
    if tags == [] {
      assert Toks([]) + ([Semi] + rest) == [Semi] + rest;
    } else {
      TagsCons(tags);
      TagsPlain(tags[1..], rest);
      hide Toks, TagPieces;
      var t := [Id(tags[0].name), Colon, Id(tags[0].rev)];
      Regroup(t, Toks(TagPieces(tags[1..])), [Semi] + rest);
    }
  }

  lemma {:induction false} NumsPlain(ns: seq<string>, rest: Rest)
    ensures Toks(NumPieces(ns)) + rest == Names(ns, rest)
  {
    if ns == [] {
      assert Toks([]) + rest == rest;
    } else {
      var p := Piece("\n\t", Id(ns[0]));
      ToksPlus([p], NumPieces(ns[1..]));
      Toks1(p);
      NumsPlain(ns[1..], rest);
      hide Toks, NumPieces;
      Regroup([Id(ns[0])], Toks(NumPieces(ns[1..])), rest);
    }
  }

  lemma {:induction false} EndPlain(a: Admin, e: Extra, rest: Rest)
    requires e.first == e.second == e.third == e.last == []
    ensures Toks(StrictPieces(a)) + (Toks(CommentPieces(a)) + (Toks(ExpandPieces(a)) + rest)) == EndToks(a, e, rest)
  {
    if a.strict { Toks2(Piece(" ", Id("strict")), Piece("", Semi)); }
    if a.comment.Some? { FieldPlain("\n", "comment", "\t", Str(a.comment.value), ExpandToks(a, rest)); }
    if a.expand != Default { FieldPlain("\n", "expand", "\t", Str(EncodeExpand(a.expand)), rest); }
    assert forall r: Rest :: Toks([]) + r == r;
    hide EncodeExpand, Field;
    assert Toks(ExpandPieces(a)) + rest == ExpandToks(a, rest);
    assert Toks(CommentPieces(a)) + ExpandToks(a, rest) == CommentToks(a, ExpandToks(a, rest));
  }

  lemma {:induction false} BranchPlain(a: Admin, rest: Rest)
    ensures Toks(BranchPieces(a)) + rest == BranchToks(a.branch, rest)
  {
    if a.branch.Some? {
      FieldPlain("\n", "branch", "\t", Id(a.branch.value), rest);
    } else {
      assert Toks([]) + rest == rest;
    }
  }

  lemma {:induction false} AccessPlain(rest: Rest)
    ensures Toks(ACCESS) + rest == [Id("access")] + ([Semi, Id("symbols")] + rest)
  {
    Toks3(ACCESS[0], ACCESS[1], ACCESS[2]);
  }

  lemma {:induction false} AdminPlain(a: Admin, e: Extra, rest: Rest)
    requires e.access == [] && e.locks == [] && e.first == e.second == e.third == e.last == []
    ensures Toks(AdminPieces(a)) + rest == AdminToks(a, e, rest)
  {
    hide Toks, Field, BranchToks, TagToks, EndToks, BranchPieces, StrictPieces, CommentPieces, ExpandPieces, TagPieces,
         AdminPieces;
    var t5 := EndToks(a, e, rest);
    var t4 := [Id("locks"), Semi] + t5;
    var t2 := Toks(ACCESS) + (Toks(TagPieces(a.tags)) + ([Semi] + t4));
    var t1 := Toks(BranchPieces(a)) + t2;
    EndPlain(a, e, rest);
    RcsParse.AdminToks(a, rest, t1, t4, t5);
    FieldPlain("", "head", "\t", Id(a.head), t1);
    TagsPlain(a.tags, t4);
    AccessPlain(TagToks(a.tags, t4));
    BranchPlain(a, t2);
    assert [Id("locks")] + ([Semi] + t5) == t4;
  }

  lemma {:induction false} OptionsPlain(h: Header, rest: Rest)
    ensures Toks(StatePieces(h)) + rest == [Id("state")] + Perhaps(h.state, rest)
    ensures Toks(NextPieces(h)) + rest == Perhaps(h.next, [Semi] + rest)
  {
    if h.state.Some? {
      assert StatePieces(h) == [Piece("\t", Id("state")), Piece(" ", Id(h.state.value))];
      Toks2(Piece("\t", Id("state")), Piece(" ", Id(h.state.value)));
    } else {
      assert StatePieces(h) == [Piece("\t", Id("state"))];
      Toks1(Piece("\t", Id("state")));
    }
    if h.next.Some? {
      Toks2(Piece("\t", Id(h.next.value)), Piece("", Semi));
    } else {
      Toks1(Piece("\t", Semi));
    }
  }

  lemma {:induction false} NextPlain(h: Header, rest: Rest)
    ensures Toks(NEXT) + (Toks(NextPieces(h)) + rest) == [Semi] + ([Id("next")] + Perhaps(h.next, [Semi] + rest))
  {
    Toks2(NEXT[0], NEXT[1]);
    OptionsPlain(h, rest);
    hide Toks, NextPieces, Perhaps;
  }

  lemma {:induction false} DeltaPlain(space: string, h: Header, rest: Rest)
    ensures Toks(HeaderPieces(space, h)) + rest == DeltaToks(h, [], rest)
  {
    assert Phrases([], rest) == rest;
    hide Toks, StatePieces, NextPieces, NumPieces, Names, Perhaps, Field, DeltaToks, HeaderPieces, Phrases;
    var t4 := [Id("next")] + Perhaps(h.next, [Semi] + rest);
    var t3 := [Id("branches")] + Names(h.branches, [Semi] + t4);
    var t2 := [Id("state")] + Perhaps(h.state, [Semi] + t3);
    var t1 := [Id("author"), Id(h.author), Semi] + t2;
    HeaderToks(space, h, rest);
    NextPlain(h, rest);
    OptionsPlain(h, [Semi] + t3);
    NumsPlain(h.branches, [Semi] + t4);
    FieldPlain("\t", "author", " ", Id(h.author), t2);
    FieldPlain("\n", "date", "\t", Id(h.date), t1);
    DeltaShape(h, [], rest, t1, t2, t3, t4);
  }

  lemma {:induction false} DeltasPlain(space: string, hs: seq<Header>, pss: seq<seq<Phrase>>, rest: Rest)
    requires |hs| == |pss| && forall i :: 0 <= i < |pss| ==> pss[i] == []
    ensures Toks(HeadersPieces(space, hs)) + rest == DeltasToks(hs, pss, rest)
    decreases |hs|
  {
    if hs == [] {
      assert Toks([]) + rest == rest;
    } else {
      ToksPlus(HeaderPieces(space, hs[0]), HeadersPieces("\n\n", hs[1..]));
      DeltasPlain("\n\n", hs[1..], pss[1..], rest);
      DeltaPlain(space, hs[0], DeltasToks(hs[1..], pss[1..], rest));
      hide Toks, HeaderPieces, DeltaToks;
      Regroup(Toks(HeaderPieces(space, hs[0])), Toks(HeadersPieces("\n\n", hs[1..])), rest);
    }
  }

  lemma {:induction false} LogPlain(x: DeltaText, rest: Rest)
    ensures Toks(TextPieces(x)) + rest == LogToks(x, [], rest)
  {
    var a, b := LogPieces(x), [Piece("\n", Id("text")), Piece("\n", Str(x.text))];
    ToksPlus(a, b);
    Toks3(a[0], a[1], a[2]);
    Toks2(b[0], b[1]);
  }

  lemma {:induction false} TextsPlain(xs: seq<DeltaText>, pss: seq<seq<Phrase>>)
    requires |xs| == |pss| && forall i :: 0 <= i < |pss| ==> pss[i] == []
    ensures Toks(TextsPieces(xs)) == TextsToks(xs, pss, [])
  {
    if xs != [] {
      ToksPlus(TextPieces(xs[0]), TextsPieces(xs[1..]));
      TextsPlain(xs[1..], pss[1..]);
      LogPlain(xs[0], TextsToks(xs[1..], pss[1..], []));
      hide Toks, TextPieces, LogToks;
    }
  }

  /** With nothing of the kind these are the tokens that are printed. */
  lemma {:induction false} PrintedPlain(d: Doc)
    ensures Toks(DocPieces(d)) == FileToks(d, Plain(d))
  {
    var e := Plain(d);
    var t2 := TextsToks(d.texts, e.logs, []);
    var t1 := [Id("desc"), Str(d.desc)] + t2;
    TextsPlain(d.texts, e.logs);
    Toks2(Piece("\n\n\n", Id("desc")), Piece("\n", Str(d.desc)));
    DeltasPlain("\n\n\n", d.headers, e.deltas, t1);
    AdminPlain(d.admin, e, DeltasToks(d.headers, e.deltas, t1));
    var a, h, desc := AdminPieces(d.admin), HeadersPieces("\n\n\n", d.headers), DescPieces(d.desc);
    hide Toks, AdminPieces, HeadersPieces, TextsPieces, AdminToks, DeltasToks, TextsToks;
    ToksPlus(a, h);
    ToksPlus(a + h, desc);
    ToksPlus(a + h + desc, TextsPieces(d.texts));
    Regroup(Toks(a) + Toks(h), Toks(desc), t2);
    Regroup(Toks(a), Toks(h), t1);
  }
}
