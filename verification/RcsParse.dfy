/** What the parser makes of a file's tokens, and that it reads back what was
    printed. */
module RcsParse {
  import opened Lines
  import opened RcsLex
  import opened RcsText

  type Rest = seq<Tok>

  function Want(ts: Rest, t: Tok): (r0: Option<Rest>)
    ensures r0.Some? ==> |r0.value| < |ts|
  {
    if ts != [] && ts[0] == t then Some(ts[1..]) else None
  }

  function WantNum(ts: Rest): (r0: Option<(string, Rest)>)
    ensures r0.Some? ==> |r0.value.1| < |ts|
  {
    if ts != [] && ts[0].Id? && ValidNum(ts[0].text) then Some((ts[0].text, ts[1..])) else None
  }

  function WantId(ts: Rest): (r0: Option<(string, Rest)>)
    ensures r0.Some? ==> |r0.value.1| < |ts|
  {
    if ts != [] && ts[0].Id? && ValidId(ts[0].text) then Some((ts[0].text, ts[1..])) else None
  }

  function WantString(ts: Rest): (r0: Option<(string, Rest)>)
    ensures r0.Some? ==> |r0.value.1| < |ts|
  {
    if ts != [] && ts[0].Str? then Some((ts[0].text, ts[1..])) else None
  }

  /** A word, a number and a semicolon. */
  function NumField(ts: Rest, word: string): (r0: Option<(string, Rest)>)
    ensures r0.Some? ==> |r0.value.1| < |ts|
  {
    match Want(ts, Id(word))
    case None => None
    case Some(r) =>
      match WantNum(r)
      case None => None
      case Some((num, r2)) =>
        match Want(r2, Semi)
        case None => None
        case Some(r3) => Some((num, r3))
  }

  // ---------------------------------------------------------- administrative part

  function SkipIds(ts: Rest): (r: Rest)
    ensures |r| <= |ts|
  {
    if ts != [] && ts[0].Id? then SkipIds(ts[1..]) else ts
  }

  /** The access list is read and forgotten. */
  function ParseAccess(ts: Rest): Option<Rest> {
    match Want(ts, Id("access"))
    case None => None
    case Some(r) => Want(SkipIds(r), Semi)
  }

  function ParseTags(ts: Rest): Option<(seq<Tag>, Rest)>
    decreases |ts|
  {
    if ts == [] then None
    else if !ts[0].Id? then if ts[0] == Semi then Some(([], ts[1..])) else None
    else
      match Want(ts[1..], Colon)
      case None => None
      case Some(r) =>
        match WantNum(r)
        case None => None
        case Some((num, r2)) =>
          match ParseTags(r2)
          case None => None
          case Some((tags, r3)) => Some(([Tag(ts[0].text, num)] + tags, r3))
  }

  function ParseSymbols(ts: Rest): Option<(seq<Tag>, Rest)> {
    match Want(ts, Id("symbols"))
    case None => None
    case Some(r) => ParseTags(r)
  }

  function SkipLocks(ts: Rest): Option<Rest>
    decreases |ts|
  {
    if ts == [] then None
    else if !ts[0].Id? then if ts[0] == Semi then Some(ts[1..]) else None
    else if |ts| > 2 && ts[1] == Colon && ts[2].Id? then SkipLocks(ts[3..])
    else None
  }

  function ParseLocks(ts: Rest): Option<Rest> {
    match Want(ts, Id("locks"))
    case None => None
    case Some(r) => SkipLocks(r)
  }

  /** The rest of a phrase nobody knows. */
  function SkipPhrase(ts: Rest): (r: Option<Rest>)
    ensures r.Some? ==> |r.value| < |ts|
    decreases |ts|
  {
    if ts == [] then None
    else if ts[0] == Semi then Some(ts[1..])
    else SkipPhrase(ts[1..])
  }

  /** The phrases at the end of the administrative part; the first token that cannot
      be one's beginning is left alone if it is a symbol. */
  function ParsePhrases(ts: Rest, a: Admin): Option<(Admin, Rest)>
    decreases |ts|
  {
    if ts == [] then Some((a, []))
    else if !ts[0].Id? then Some((a, ts[1..]))
    else if ts[0].text == "strict" then
      match Want(ts[1..], Semi)
      case None => None
      case Some(r) => ParsePhrases(r, a.(strict := true))
    else if ts[0].text == "comment" then
      match WantString(ts[1..])
      case None => None
      case Some((s, r)) =>
        match Want(r, Semi)
        case None => None
        case Some(r2) => ParsePhrases(r2, a.(comment := Some(s)))
    else if ts[0].text == "expand" then
      match WantString(ts[1..])
      case None => None
      case Some((s, r)) =>
        match DecodeExpand(s)
        case None => None
        case Some(e) =>
          match Want(r, Semi)
          case None => None
          case Some(r2) => ParsePhrases(r2, a.(expand := e))
    else if ValidId(ts[0].text) then
      match SkipPhrase(ts[1..])
      case None => None
      case Some(r) => ParsePhrases(r, a)
    else Some((a, ts))
  }

  /** The default branch, if there is one. */
  function ParseBranch(ts: Rest): Option<(Option<string>, Rest)> {
    if ts != [] && ts[0] == Id("branch") then
      match NumField(ts, "branch")
      case None => None
      case Some((num, r)) => Some((Some(num), r))
    else Some((None, ts))
  }

  function ParseAdmin(ts: Rest): Option<(Admin, Rest)> {
    match NumField(ts, "head")
    case None => None
    case Some((head, r)) =>
      match ParseBranch(r)
      case None => None
      case Some((branch, r2)) =>
        match ParseAccess(r2)
        case None => None
        case Some(r3) =>
          match ParseSymbols(r3)
          case None => None
          case Some((tags, r4)) =>
            match ParseLocks(r4)
            case None => None
            case Some(r5) => ParsePhrases(r5, Admin(head, branch, tags, false, None, Default))
  }

  // -------------------------------------------------------------------- deltas

  /** An optional part before the semicolon. */
  function Optional(ts: Rest, ok: string -> bool): (r0: Option<(Option<string>, Rest)>)
    ensures r0.Some? ==> |r0.value.1| < |ts|
  {
    if ts == [] then None
    else if ts[0].Id? && ok(ts[0].text) then
      match Want(ts[1..], Semi)
      case None => None
      case Some(r) => Some((Some(ts[0].text), r))
    else
      match Want(ts, Semi)
      case None => None
      case Some(r) => Some((None, r))
  }

  /** The branches of a delta are read and forgotten. */
  function SkipNums(ts: Rest): (r: Rest)
    ensures |r| <= |ts|
  {
    if ts != [] && ts[0].Id? && ValidNum(ts[0].text) then SkipNums(ts[1..]) else ts
  }

  /** Unknown phrases up to the word `stop`, or anything that is not a name. */
  function SkipPhrases(ts: Rest, stop: string): (r: Option<Rest>)
    ensures r.Some? ==> r.value != [] && |r.value| <= |ts|
    decreases |ts|
  {
    if ts == [] then None
    else if ts[0] != Id(stop) && ts[0].Id? && ValidId(ts[0].text) then
      match SkipPhrase(ts[1..])
      case None => None
      case Some(r) => SkipPhrases(r, stop)
    else Some(ts)
  }

  /** The fields of a delta behind its number. */
  function ParseDelta(rev: string, ts: Rest): (r0: Option<(Header, Rest)>)
    ensures r0.Some? ==> |r0.value.1| < |ts|
  {
    match NumField(ts, "date")
    case None => None
    case Some((date, r)) =>
      match ParseAuthor(r)
      case None => None
      case Some((author, r2)) =>
        match ParseState(r2)
        case None => None
        case Some((state, r3)) =>
          match ParseNext(r3)
          case None => None
          case Some((next, r4)) =>
            match SkipPhrases(r4, "desc")
            case None => None
            case Some(r5) => Some((Header(rev, date, author, state, [], next), r5))
  }

  function ParseAuthor(ts: Rest): (r0: Option<(string, Rest)>)
    ensures r0.Some? ==> |r0.value.1| < |ts|
  {
    match Want(ts, Id("author"))
    case None => None
    case Some(r) =>
      match WantId(r)
      case None => None
      case Some((author, r2)) =>
        match Want(r2, Semi)
        case None => None
        case Some(r3) => Some((author, r3))
  }

  function ParseState(ts: Rest): (r0: Option<(Option<string>, Rest)>)
    ensures r0.Some? ==> |r0.value.1| < |ts|
  {
    match Want(ts, Id("state"))
    case None => None
    case Some(r) => Optional(r, s => ValidId(s))
  }

  /** Branches and next delta. */
  function ParseNext(ts: Rest): (r0: Option<(Option<string>, Rest)>)
    ensures r0.Some? ==> |r0.value.1| < |ts|
  {
    match Want(ts, Id("branches"))
    case None => None
    case Some(r) =>
      match Want(SkipNums(r), Semi)
      case None => None
      case Some(r2) =>
        match Want(r2, Id("next"))
        case None => None
        case Some(r3) => Optional(r3, s => ValidNum(s))
  }

  /** The deltas; None for an error. */
  function ParseDeltas(ts: Rest): Option<(seq<Header>, Rest)>
    decreases |ts|
  {
    if ts == [] || !ts[0].Id? || !ValidNum(ts[0].text) then Some(([], ts))
    else
      match ParseDelta(ts[0].text, ts[1..])
      case None => None
      case Some((h, r)) =>
        match ParseDeltas(r)
        case None => None
        case Some((hs, r2)) => Some(([h] + hs, r2))
  }

  // --------------------------------------------------------------------- texts

  function ParseText(rev: string, ts: Rest): (r0: Option<(DeltaText, Rest)>)
    ensures r0.Some? ==> |r0.value.1| < |ts|
  {
    match Want(ts, Id("log"))
    case None => None
    case Some(r) =>
      match WantString(r)
      case None => None
      case Some((log, r2)) =>
        match SkipPhrases(r2, "text")
        case None => None
        case Some(r3) =>
          match Want(r3, Id("text"))
          case None => None
          case Some(r4) =>
            match WantString(r4)
            case None => None
            case Some((text, r5)) => Some((DeltaText(rev, log, text), r5))
  }

  /** The delta texts.  Reading stops without an error at a text whose delta is not
      there; at the end, `clean` says whether it is the end of the file. */
  function ParseTexts(ts: Rest, clean: bool, hs: seq<Header>): Option<seq<DeltaText>>
    decreases |ts|
  {
    if ts == [] then if clean then Some([]) else None
    else if !ts[0].Id? || !ValidNum(ts[0].text) then None
    else if !Known(hs, ts[0].text) then Some([])
    else
      match ParseText(ts[0].text, ts[1..])
      case None => None
      case Some((x, r)) =>
        match ParseTexts(r, clean, hs)
        case None => None
        case Some(xs) => Some([x] + xs)
  }

  /** A whole file. */
  function ParseFile(ts: Rest, clean: bool): Option<Doc> {
    match ParseAdmin(ts)
    case None => None
    case Some((a, r)) =>
      match ParseDeltas(r)
      case None => None
      case Some((hs, r2)) =>
        match Want(r2, Id("desc"))
        case None => None
        case Some(r3) =>
          match WantString(r3)
          case None => None
          case Some((desc, r4)) =>
            match ParseTexts(r4, clean, hs)
            case None => None
            case Some(xs) => Some(Doc(a, hs, desc, xs))
  }

  // ------------------------------------------------------------- reading back

  lemma {:induction false} ToksPlus(a: seq<Piece>, b: seq<Piece>)
    ensures Toks(a + b) == Toks(a) + Toks(b)
  {
    if a == [] {
      assert a + b == b;
    } else {
      assert (a + b)[1..] == a[1..] + b;
      ToksPlus(a[1..], b);
    }
  }

  lemma {:induction false} Toks1(p: Piece)
    ensures Toks([p]) == [p.tok]
  {
    assert [p][1..] == [];
  }

  lemma {:induction false} Toks2(p: Piece, q: Piece)
    ensures Toks([p, q]) == [p.tok, q.tok]
  {
    assert [p, q] == [p] + [q];
    ToksPlus([p], [q]);
    Toks1(p);
    Toks1(q);
  }

  lemma {:induction false} Toks3(p: Piece, q: Piece, r: Piece)
    ensures Toks([p, q, r]) == [p.tok, q.tok, r.tok]
  {
    assert [p, q, r] == [p] + [q, r];
    ToksPlus([p], [q, r]);
    Toks1(p);
    Toks2(q, r);
  }

  lemma {:induction false} NumFieldBack(space: string, word: string, part: string, num: string, rest: Rest)
    requires ValidNum(num)
    ensures NumField(Toks(Field(space, word, part, Id(num))) + rest, word) == Some((num, rest))
  {
    Toks3(Piece(space, Id(word)), Piece(part, Id(num)), Piece("", Semi));
    hide ValidNum;
    var ts := [Id(word), Id(num), Semi] + rest;
    assert ts[1..] == [Id(num), Semi] + rest && ts[1..][1..] == [Semi] + rest && ts[1..][1..][1..] == rest;
  }

  lemma {:induction false} BranchBack(a: Admin, rest: Rest)
    requires GoodAdmin(a) && (rest != [] ==> rest[0] != Id("branch"))
    ensures ParseBranch(Toks(BranchPieces(a)) + rest) == Some((a.branch, rest))
  {
    if a.branch.Some? {
      NumFieldBack("\n", "branch", "\t", a.branch.value, rest);
      Toks3(Piece("\n", Id("branch")), Piece("\t", Id(a.branch.value)), Piece("", Semi));
    } else {
      assert Toks([]) + rest == rest;
    }
  }

  lemma {:induction false} AccessBack(rest: Rest)
    ensures ParseAccess(Toks(ACCESS) + rest) == Some([Id("symbols")] + rest)
  {
    Toks3(ACCESS[0], ACCESS[1], ACCESS[2]);
    var ts := [Id("access"), Semi, Id("symbols")] + rest;
    assert ts[1..] == [Semi, Id("symbols")] + rest && ts[1..][1..] == [Id("symbols")] + rest;
  }

  lemma {:induction false} Regroup(a: Rest, b: Rest, c: Rest)
    ensures a + b + c == a + (b + c)
  {
  }

  lemma {:induction false} TagsCons(tags: seq<Tag>)
    requires tags != []
    ensures var t := tags[0];
            Toks(TagPieces(tags)) == [Id(t.name), Colon, Id(t.rev)] + Toks(TagPieces(tags[1..]))
  {
    var t := tags[0];
    ToksPlus(OneTag(t), TagPieces(tags[1..]));
    Toks3(OneTag(t)[0], OneTag(t)[1], OneTag(t)[2]);
    hide Toks;
  }

  lemma {:induction false} TagsBack(tags: seq<Tag>, rest: Rest)
    requires forall i :: 0 <= i < |tags| ==> IsSymbol(tags[i].name) && IsNum(tags[i].rev)
    ensures ParseTags(Toks(TagPieces(tags)) + ([Semi] + rest)) == Some((tags, rest))
  {
    var end := [Semi] + rest;
    if tags == [] {
      assert Toks([]) + end == end && end[1..] == rest;
    } else {
      var t := tags[0];
      TagsCons(tags);
      assert IsNum(t.rev);
      hide TagPieces, Toks, ValidNum, IsSymbol, ParseTags;
      TagsBack(tags[1..], rest);
      var more := Toks(TagPieces(tags[1..]));
      TagBack(t, more + end);
      Regroup([Id(t.name), Colon, Id(t.rev)], more, end);
      assert tags == [t] + tags[1..];
    }
  }

  lemma {:induction false} TagBack(t: Tag, rest: Rest)
    requires ValidNum(t.rev)
    ensures ParseTags([Id(t.name), Colon, Id(t.rev)] + rest) ==
            match ParseTags(rest)
            case None => None
            case Some((tags, r)) => Some(([t] + tags, r))
  {
    hide ValidNum;
    var ts := [Id(t.name), Colon, Id(t.rev)] + rest;
    assert ts[1..] == [Colon, Id(t.rev)] + rest && ts[1..][1..] == [Id(t.rev)] + rest && ts[1..][1..][1..] == rest;
  }

  lemma {:induction false} SymbolsBack(tags: seq<Tag>, rest: Rest)
    requires forall i :: 0 <= i < |tags| ==> IsSymbol(tags[i].name) && IsNum(tags[i].rev)
    ensures ParseSymbols([Id("symbols")] + (Toks(TagPieces(tags)) + ([Semi] + rest))) == Some((tags, rest))
  {
    TagsBack(tags, rest);
    hide TagPieces, Toks;
    var ts := [Id("symbols")] + (Toks(TagPieces(tags)) + ([Semi] + rest));
    assert ts[1..] == Toks(TagPieces(tags)) + ([Semi] + rest);
  }

  lemma {:induction false} LocksBack(rest: Rest)
    ensures ParseLocks([Id("locks"), Semi] + rest) == Some(rest)
  {
    var ts := [Id("locks"), Semi] + rest;
    assert ts[1..] == [Semi] + rest && ([Semi] + rest)[1..] == rest;
  }

  /** Nothing that follows can be taken for a phrase. */
  predicate NoPhrase(rest: Rest) {
    rest != [] && rest[0].Id? && IsNum(rest[0].text)
  }

  lemma {:induction false} NumIsNoPhrase(s: string)
    requires IsNum(s)
    ensures !ValidId(s) && s !in {"strict", "comment", "expand", "desc", "branch"}
  {
    assert IsDigit(s[0]) || s[0] == '.';
  }

  lemma {:induction false} NoPhraseStops(rest: Rest, a: Admin)
    requires NoPhrase(rest)
    ensures ParsePhrases(rest, a) == Some((a, rest))
  {
    NumIsNoPhrase(rest[0].text);
  }

  lemma {:induction false} StrictBack(a: Admin, b: Admin, rest: Rest)
    requires !b.strict
    ensures ParsePhrases(Toks(StrictPieces(a)) + rest, b) == ParsePhrases(rest, b.(strict := a.strict))
  {
    if a.strict {
      Toks2(Piece(" ", Id("strict")), Piece("", Semi));
      var ts := [Id("strict"), Semi] + rest;
      assert ts[1..] == [Semi] + rest && ts[1..][1..] == rest;
    } else {
      assert Toks([]) + rest == rest;
    }
  }

  lemma {:induction false} CommentBack(a: Admin, b: Admin, rest: Rest)
    requires b.comment == None
    ensures ParsePhrases(Toks(CommentPieces(a)) + rest, b) == ParsePhrases(rest, b.(comment := a.comment))
  {
    if a.comment.Some? {
      var s := a.comment.value;
      Toks3(Piece("\n", Id("comment")), Piece("\t", Str(s)), Piece("", Semi));
      var ts := [Id("comment"), Str(s), Semi] + rest;
      assert ts[1..] == [Str(s), Semi] + rest && ts[1..][1..] == [Semi] + rest && ts[1..][1..][1..] == rest;
    } else {
      assert Toks([]) + rest == rest;
    }
  }

  lemma {:induction false} ExpandBack(a: Admin, b: Admin, rest: Rest)
    requires b.expand == Default
    ensures ParsePhrases(Toks(ExpandPieces(a)) + rest, b) == ParsePhrases(rest, b.(expand := a.expand))
  {
    if a.expand != Default {
      var s := EncodeExpand(a.expand);
      ExpandReadsBack(a.expand);
      Toks3(Piece("\n", Id("expand")), Piece("\t", Str(s)), Piece("", Semi));
      hide EncodeExpand, DecodeExpand;
      var ts := [Id("expand"), Str(s), Semi] + rest;
      assert ts[1..] == [Str(s), Semi] + rest && ts[1..][1..] == [Semi] + rest && ts[1..][1..][1..] == rest;
    } else {
      assert Toks([]) + rest == rest;
    }
  }

  /** The administrative part is read back, up to the first delta. */
  lemma {:induction false} AdminBack(a: Admin, rest: Rest)
    requires GoodAdmin(a) && NoPhrase(rest)
    ensures ParseAdmin(Toks(AdminPieces(a)) + rest) == Some((a, rest))
  {
    var t7 := Toks(ExpandPieces(a)) + rest;
    var t6 := Toks(CommentPieces(a)) + t7;
    var t5 := Toks(StrictPieces(a)) + t6;
    var t4 := [Id("locks"), Semi] + t5;
    var t3 := [Id("symbols")] + (Toks(TagPieces(a.tags)) + ([Semi] + t4));
    var t2 := Toks(ACCESS) + (Toks(TagPieces(a.tags)) + ([Semi] + t4));
    var t1 := Toks(BranchPieces(a)) + t2;
    AdminToks(a, rest, t1, t4, t5);
    AccessFirst(Toks(TagPieces(a.tags)) + ([Semi] + t4));
    BranchBack(a, t2);
    NumFieldBack("", "head", "\t", a.head, t1);
    AccessBack(Toks(TagPieces(a.tags)) + ([Semi] + t4));
    SymbolsBack(a.tags, t4);
    LocksBack(t5);
    PhrasesBack(a, Admin(a.head, a.branch, a.tags, false, None, Default), rest);
    hide Toks, BranchPieces, TagPieces, StrictPieces, CommentPieces, ExpandPieces, Field, AdminPieces;
    hide ParseBranch, ParseAccess, ParseSymbols, ParseLocks, ParsePhrases, NumField, GoodAdmin;
  }

  lemma {:induction false} AccessFirst(rest: Rest)
    ensures Toks(ACCESS) + rest != [] && (Toks(ACCESS) + rest)[0] != Id("branch")
  {
    Toks3(ACCESS[0], ACCESS[1], ACCESS[2]);
  }

  lemma {:induction false} PhrasesBack(a: Admin, b: Admin, rest: Rest)
    requires !b.strict && b.comment == None && b.expand == Default && NoPhrase(rest)
    ensures ParsePhrases(Toks(StrictPieces(a)) + (Toks(CommentPieces(a)) + (Toks(ExpandPieces(a)) + rest)), b)
         == Some((b.(strict := a.strict, comment := a.comment, expand := a.expand), rest))
  {
    hide Toks, StrictPieces, CommentPieces, ExpandPieces, ParsePhrases, NoPhrase;
    var t7 := Toks(ExpandPieces(a)) + rest;
    StrictBack(a, b, Toks(CommentPieces(a)) + t7);
    CommentBack(a, b.(strict := a.strict), t7);
    ExpandBack(a, b.(strict := a.strict, comment := a.comment), rest);
    NoPhraseStops(rest, b.(strict := a.strict, comment := a.comment, expand := a.expand));
  }

  lemma {:induction false} AdminToks(a: Admin, rest: Rest, t1: Rest, t4: Rest, t5: Rest)
    requires t5 == Toks(StrictPieces(a)) + (Toks(CommentPieces(a)) + (Toks(ExpandPieces(a)) + rest))
    requires t4 == [Id("locks"), Semi] + t5
    requires t1 == Toks(BranchPieces(a)) + (Toks(ACCESS) + (Toks(TagPieces(a.tags)) + ([Semi] + t4)))
    ensures Toks(AdminPieces(a)) + rest == Toks(Field("", "head", "\t", Id(a.head))) + t1
  {
    var p1, p2, p3, p4 := Field("", "head", "\t", Id(a.head)), BranchPieces(a), ACCESS, TagPieces(a.tags);
    var p6, p7, p8 := StrictPieces(a), CommentPieces(a), ExpandPieces(a);
    Toks3(LOCKS[0], LOCKS[1], LOCKS[2]);
    hide Toks, BranchPieces, TagPieces, StrictPieces, CommentPieces, ExpandPieces, Field;
    ToksPlus(p1, p2);
    ToksPlus(p1 + p2, p3);
    ToksPlus(p1 + p2 + p3, p4);
    ToksPlus(p1 + p2 + p3 + p4, LOCKS);
    ToksPlus(p1 + p2 + p3 + p4 + LOCKS, p6);
    ToksPlus(p1 + p2 + p3 + p4 + LOCKS + p6, p7);
    ToksPlus(p1 + p2 + p3 + p4 + LOCKS + p6 + p7, p8);
    Locked(t5);
    EightParts(Toks(p1), Toks(p2), Toks(p3), Toks(p4), Toks(LOCKS), Toks(p6), Toks(p7), Toks(p8), rest);
  }

  lemma {:induction false} Locked(rest: Rest)
    ensures [Semi] + ([Id("locks"), Semi] + rest) == [Semi, Id("locks"), Semi] + rest
  {
  }

  lemma {:induction false} EightParts(a: Rest, b: Rest, c: Rest, d: Rest, e: Rest, f: Rest, g: Rest, h: Rest,
      rest: Rest)
    ensures a + b + c + d + e + f + g + h + rest == a + (b + (c + (d + (e + (f + (g + (h + rest)))))))
  {
    Regroup(a + b + c + d + e + f + g, h, rest);
    Regroup(a + b + c + d + e + f, g, h + rest);
    Regroup(a + b + c + d + e, f, g + (h + rest));
    Regroup(a + b + c + d, e, f + (g + (h + rest)));
    Regroup(a + b + c, d, e + (f + (g + (h + rest))));
    Regroup(a + b, c, d + (e + (f + (g + (h + rest)))));
    Regroup(a, b, c + (d + (e + (f + (g + (h + rest))))));
  }

  // --------------------------------------------------------------- deltas, back

  /** What is read of a printed header: the branches are not. */
  function Read(h: Header): Header { h.(branches := []) }

  function ReadAll(hs: seq<Header>): seq<Header> {
    if hs == [] then [] else [Read(hs[0])] + ReadAll(hs[1..])
  }

  lemma {:induction false} NumsBack(nums: seq<string>, rest: Rest)
    requires forall i :: 0 <= i < |nums| ==> IsNum(nums[i])
    ensures SkipNums(Toks(NumPieces(nums)) + ([Semi] + rest)) == [Semi] + rest
  {
    var end := [Semi] + rest;
    if nums == [] {
      assert Toks([]) + end == end;
    } else {
      var p := Piece("\n\t", Id(nums[0]));
      assert IsNum(nums[0]);
      ToksPlus([p], NumPieces(nums[1..]));
      Toks1(p);
      hide Toks, NumPieces, IsNum;
      NumsBack(nums[1..], rest);
      var more := Toks(NumPieces(nums[1..]));
      assert ([Id(nums[0])] + more + end)[1..] == more + end;
    }
  }

  lemma {:induction false} StateBack(h: Header, rest: Rest)
    requires GoodHeader(h)
    ensures ParseState(Toks(StatePieces(h)) + ([Semi] + rest)) == Some((h.state, rest))
  {
    var p := Piece("\t", Id("state"));
    if h.state.Some? {
      var q := Piece(" ", Id(h.state.value));
      assert StatePieces(h) == [p, q];
      Toks2(p, q);
      var ts := [Id("state"), Id(h.state.value)] + ([Semi] + rest);
      assert ts[1..] == [Id(h.state.value)] + ([Semi] + rest) && ts[1..][1..] == [Semi] + rest &&
             ([Semi] + rest)[1..] == rest;
    } else {
      assert StatePieces(h) == [p];
      Toks1(p);
      var ts := [Id("state")] + ([Semi] + rest);
      assert ts[1..] == [Semi] + rest && ([Semi] + rest)[1..] == rest;
    }
  }

  lemma {:induction false} OptionalNextBack(h: Header, rest: Rest)
    requires GoodHeader(h)
    ensures Optional(Toks(NextPieces(h)) + rest, s => ValidNum(s)) == Some((h.next, rest))
  {
    if h.next.Some? {
      Toks2(Piece("\t", Id(h.next.value)), Piece("", Semi));
      assert IsNum(h.next.value);
      hide ValidNum;
      var ts := [Id(h.next.value), Semi] + rest;
      assert ts[1..] == [Semi] + rest && ts[1..][1..] == rest;
    } else {
      Toks1(Piece("\t", Semi));
      assert ([Semi] + rest)[1..] == rest;
    }
  }

  lemma {:induction false} NextBack(h: Header, rest: Rest)
    requires GoodHeader(h)
    ensures ParseNext([Id("branches")] + (Toks(NumPieces(h.branches)) + (Toks(NEXT) + (Toks(NextPieces(h)) + rest))))
         == Some((h.next, rest))
  {
    Toks2(NEXT[0], NEXT[1]);
    var end := Toks(NextPieces(h)) + rest;
    assert [Semi, Id("next")] + end == [Semi] + ([Id("next")] + end);
    NumsBack(h.branches, [Id("next")] + end);
    OptionalNextBack(h, rest);
    hide Toks, NumPieces, NextPieces, SkipNums, Optional, GoodHeader;
    var nums := Toks(NumPieces(h.branches)) + (Toks(NEXT) + end);
    assert ([Id("branches")] + nums)[1..] == nums;
    assert ([Semi] + ([Id("next")] + end))[1..] == [Id("next")] + end;
    assert ([Id("next")] + end)[1..] == end;
  }

  lemma {:induction false} AuthorBack(h: Header, rest: Rest)
    requires GoodHeader(h)
    ensures ParseAuthor(Toks(Field("\t", "author", " ", Id(h.author))) + rest) == Some((h.author, rest))
  {
    Toks3(Piece("\t", Id("author")), Piece(" ", Id(h.author)), Piece("", Semi));
    var ts := [Id("author"), Id(h.author), Semi] + rest;
    assert ts[1..] == [Id(h.author), Semi] + rest && ts[1..][1..] == [Semi] + rest && ts[1..][1..][1..] == rest;
  }

  /** What follows a delta: another one, or the description. */
  predicate DeltaEnds(rest: Rest) {
    rest != [] && rest[0].Id? && (rest[0].text == "desc" || IsNum(rest[0].text))
  }

  lemma {:induction false} NoMorePhrases(rest: Rest)
    requires DeltaEnds(rest)
    ensures SkipPhrases(rest, "desc") == Some(rest)
  {
    if rest[0].text != "desc" { NumIsNoPhrase(rest[0].text); }
  }

  lemma {:induction false} HeaderToks(space: string, h: Header, rest: Rest)
    ensures Toks(HeaderPieces(space, h)) + rest ==
            [Id(h.rev)] + (Toks(Field("\n", "date", "\t", Id(h.date))) +
                (Toks(Field("\t", "author", " ", Id(h.author))) +
            (Toks(StatePieces(h)) + ([Semi] + ([Id("branches")] + (Toks(NumPieces(h.branches)) + (Toks(NEXT) +
            (Toks(NextPieces(h)) + rest))))))))
  {
    var p, f, g := [Piece(space, Id(h.rev))], Field("\n", "date", "\t", Id(h.date)),
        Field("\t", "author", " ", Id(h.author));
    var s, n, x := StatePieces(h), NumPieces(h.branches), NextPieces(h);
    Toks1(p[0]);
    Toks2(BRANCHES[0], BRANCHES[1]);
    hide Toks, StatePieces, NumPieces, NextPieces, Field;
    ToksPlus(p, f);
    ToksPlus(p + f, g);
    ToksPlus(p + f + g, s);
    ToksPlus(p + f + g + s, BRANCHES);
    ToksPlus(p + f + g + s + BRANCHES, n);
    ToksPlus(p + f + g + s + BRANCHES + n, NEXT);
    ToksPlus(p + f + g + s + BRANCHES + n + NEXT, x);
    EightParts(Toks(p), Toks(f), Toks(g), Toks(s), Toks(BRANCHES), Toks(n), Toks(NEXT), Toks(x), rest);
    Regroup([Semi], [Id("branches")], Toks(n) + (Toks(NEXT) + (Toks(x) + rest)));
    assert [Semi] + [Id("branches")] == Toks(BRANCHES);
  }

  lemma {:induction false} HeaderBack(space: string, h: Header, rest: Rest)
    requires GoodHeader(h) && DeltaEnds(rest)
    ensures var ts := Toks(HeaderPieces(space, h)) + rest;
            ts != [] && ts[0] == Id(h.rev) && ParseDelta(h.rev, ts[1..]) == Some((Read(h), rest))
  {
    HeaderToks(space, h, rest);
    var t5 := Toks(NumPieces(h.branches)) + (Toks(NEXT) + (Toks(NextPieces(h)) + rest));
    var t4 := [Id("branches")] + t5;
    var t3 := Toks(StatePieces(h)) + ([Semi] + t4);
    var t2 := Toks(Field("\t", "author", " ", Id(h.author))) + t3;
    var t1 := Toks(Field("\n", "date", "\t", Id(h.date))) + t2;
    assert ([Id(h.rev)] + t1)[1..] == t1;
    NumFieldBack("\n", "date", "\t", h.date, t2);
    AuthorBack(h, t3);
    StateBack(h, t4);
    NextBack(h, rest);
    NoMorePhrases(rest);
    hide Toks, NumField, ParseAuthor, ParseState, ParseNext, SkipPhrases, HeaderPieces, GoodHeader, DeltaEnds;
  }

  lemma {:induction false} DeltasBack(space: string, hs: seq<Header>, rest: Rest)
    requires (forall i :: 0 <= i < |hs| ==> GoodHeader(hs[i])) && rest != [] && rest[0] == Id("desc")
    ensures ParseDeltas(Toks(HeadersPieces(space, hs)) + rest) == Some((ReadAll(hs), rest))
    ensures var ts := Toks(HeadersPieces(space, hs)) + rest;
            DeltaEnds(ts) && (hs != [] ==> ts[0] == Id(hs[0].rev))
    decreases |hs|
  {
    if hs == [] {
      assert Toks([]) + rest == rest;
      assert rest[0].text[0] == 'd';
    } else {
      var h, more := hs[0], Toks(HeadersPieces("\n\n", hs[1..])) + rest;
      assert GoodHeader(h) && IsNum(h.rev);
      DeltasBack("\n\n", hs[1..], rest);
      ToksPlus(HeaderPieces(space, h), HeadersPieces("\n\n", hs[1..]));
      Regroup(Toks(HeaderPieces(space, h)), Toks(HeadersPieces("\n\n", hs[1..])), rest);
      HeaderBack(space, h, more);
      hide Toks, HeaderPieces, ParseDelta, GoodHeader, IsSymbol, ValidNum;
    }
  }

  // ---------------------------------------------------------------- texts, back

  lemma {:induction false} TextBack(x: DeltaText, rest: Rest)
    ensures var ts := Toks(TextPieces(x)) + rest;
            ts != [] && ts[0] == Id(x.rev) && ParseText(x.rev, ts[1..]) == Some((x, rest))
  {
    var a, b := LogPieces(x), [Piece("\n", Id("text")), Piece("\n", Str(x.text))];
    ToksPlus(a, b);
    Toks3(a[0], a[1], a[2]);
    Toks2(b[0], b[1]);
    var ts := [Id(x.rev), Id("log"), Str(x.log)] + [Id("text"), Str(x.text)] + rest;
    assert ts[1..] == [Id("log"), Str(x.log), Id("text"), Str(x.text)] + rest;
    assert ts[1..][1..] == [Str(x.log), Id("text"), Str(x.text)] + rest;
    assert ts[1..][1..][1..] == [Id("text"), Str(x.text)] + rest;
    assert ts[1..][1..][1..][1..] == [Str(x.text)] + rest;
    assert ts[1..][1..][1..][1..][1..] == rest;
    hide Toks, TextPieces;
  }

  lemma {:induction false} TextsBack(xs: seq<DeltaText>, hs: seq<Header>)
    requires forall i :: 0 <= i < |xs| ==> GoodText(xs[i]) && Known(hs, xs[i].rev)
    ensures ParseTexts(Toks(TextsPieces(xs)), true, hs) == Some(xs)
  {
    if xs != [] {
      var x, more := xs[0], Toks(TextsPieces(xs[1..]));
      assert IsNum(x.rev) && Known(hs, x.rev);
      TextsBack(xs[1..], hs);
      ToksPlus(TextPieces(x), TextsPieces(xs[1..]));
      TextBack(x, more);
      hide Toks, TextPieces, ParseText, Known, GoodText, ValidNum, IsSymbol;
      assert xs == [x] + xs[1..];
    }
  }

  lemma {:induction false} HeadersRead(hs: seq<Header>, rev: string)
    requires Known(hs, rev)
    ensures Known(ReadAll(hs), rev)
  {
    var i :| 0 <= i < |hs| && (hs[i].rev == rev || hs[i].next == Some(rev));
    ReadAllAt(hs, i);
  }

  lemma {:induction false} ReadAllAt(hs: seq<Header>, i: nat)
    requires i < |hs|
    ensures |ReadAll(hs)| == |hs| && ReadAll(hs)[i] == Read(hs[i])
  {
    if |hs| > 1 {
      ReadAllAt(hs[1..], if i == 0 then 0 else i - 1);
    } else {
      assert hs[1..] == [];
    }
  }

  // ----------------------------------------------------------------- whole files

  /** The tokens of a printed file are parsed as what was printed, except that the
      branches recorded with each delta are dropped. */
  lemma {:induction false} DocBack(d: Doc)
    requires GoodDoc(d)
    ensures ParseFile(Toks(DocPieces(d)), true) == Some(d.(headers := ReadAll(d.headers)))
  {
    var t3 := Toks(TextsPieces(d.texts));
    var t2 := Toks(DescPieces(d.desc)) + t3;
    var t1 := Toks(HeadersPieces("\n\n\n", d.headers)) + t2;
    DescBack(d.desc, t3);
    DeltasBack("\n\n\n", d.headers, t2);
    FirstIsNum(d, t1);
    AdminBack(d.admin, t1);
    forall i | 0 <= i < |d.texts| ensures GoodText(d.texts[i]) && Known(ReadAll(d.headers), d.texts[i].rev) {
      HeadersRead(d.headers, d.texts[i].rev);
    }
    TextsBack(d.texts, ReadAll(d.headers));
    hide Toks, AdminPieces, HeadersPieces, DescPieces, TextsPieces, ParseAdmin, ParseDeltas, ParseTexts;
    hide GoodAdmin, GoodHeader, GoodText, Known, ReadAll, Doubled;
    DocToks(d);
  }

  lemma {:induction false} FirstIsNum(d: Doc, ts: Rest)
    requires GoodDoc(d) && ts != [] && ts[0] == Id(d.headers[0].rev)
    ensures NoPhrase(ts)
  {
    assert GoodHeader(d.headers[0]);
  }

  lemma {:induction false} DescBack(desc: string, rest: Rest)
    ensures var ts := Toks(DescPieces(desc)) + rest;
            ts != [] && ts[0] == Id("desc") && ts[1..] == [Str(desc)] + rest &&
                WantString(ts[1..]) == Some((desc, rest))
  {
    Toks2(DescPieces(desc)[0], DescPieces(desc)[1]);
    var ts := [Id("desc"), Str(desc)] + rest;
    assert ts[1..] == [Str(desc)] + rest && ([Str(desc)] + rest)[1..] == rest;
  }

  lemma {:induction false} DocToks(d: Doc)
    ensures Toks(DocPieces(d)) ==
            Toks(AdminPieces(d.admin)) + (Toks(HeadersPieces("\n\n\n", d.headers)) +
                (Toks(DescPieces(d.desc)) + Toks(TextsPieces(d.texts))))
  {
    var a, b, c, e := AdminPieces(d.admin), HeadersPieces("\n\n\n", d.headers), DescPieces(d.desc),
        TextsPieces(d.texts);
    hide Toks, AdminPieces, HeadersPieces, DescPieces, TextsPieces;
    ToksPlus(a, b);
    ToksPlus(a + b, c);
    ToksPlus(a + b + c, e);
    Regroup(Toks(a) + Toks(b), Toks(c), Toks(e));
    Regroup(Toks(a), Toks(b), Toks(c) + Toks(e));
  }
}
