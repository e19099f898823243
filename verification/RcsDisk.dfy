/** A printed RCS file reads back: every token, and so the whole document and the
    tree that was written. */
module RcsDisk {
  import opened Lines
  import opened RcsLex
  import opened RcsText
  import opened RcsParse

  /** A token that can be told from whatever is before it. */
  predicate Fresh(p: Piece) { p.space != "" || p.tok.Semi? || p.tok.Colon? }

  predicate GoodPiece(p: Piece) { AllSpace(p.space) && GoodTok(p.tok) }

  predicate Spaced(ps: seq<Piece>) {
    ps == [] ||
    (GoodPiece(ps[0]) && (|ps| > 1 ==> Fresh(ps[1]) || ps[0].tok.Semi? || ps[0].tok.Colon?) && Spaced(ps[1..]))
  }

  lemma {:induction false} SpacedPlus(a: seq<Piece>, b: seq<Piece>)
    requires Spaced(a) && Spaced(b) && (b != [] ==> Fresh(b[0]))
    ensures Spaced(a + b)
  {
    if a == [] {
      assert a + b == b;
    } else {
      assert (a + b)[1..] == a[1..] + b;
      SpacedPlus(a[1..], b);
    }
  }

  lemma {:induction false} SpacedPrints(ps: seq<Piece>, tail: string)
    requires Spaced(ps) && tail != "" && AllSpace(tail)
    ensures Printable(ps, tail)
  {
    if ps != [] {
      SpacedPrints(ps[1..], tail);
      if |ps| > 1 { FirstOf(ps[1..], tail); }
      hide Doubled;
    }
  }

  lemma {:induction false} FirstOf(ps: seq<Piece>, tail: string)
    requires ps != [] && GoodPiece(ps[0])
    ensures var r := Render(ps, tail);
            r != "" && r[0] == if ps[0].space != "" then ps[0].space[0] else Text(ps[0].tok)[0]
  {
    FirstChar(ps[0].tok);
  }

  lemma {:induction false} SpacedCons(p: Piece, ps: seq<Piece>)
    requires GoodPiece(p) && Spaced(ps) && (ps != [] ==> Fresh(ps[0]) || p.tok.Semi? || p.tok.Colon?)
    ensures Spaced([p] + ps)
  {
    assert ([p] + ps)[1..] == ps;
  }

  lemma {:induction false} FieldSpaced(space: string, word: string, part: string, value: Tok)
    requires AllSpace(space) && AllSpace(part) && part != "" && IsSymbol(word) && GoodTok(value)
    ensures Spaced(Field(space, word, part, value))
  {
    var a, b, c := Piece(space, Id(word)), Piece(part, value), Piece("", Semi);
    SpacedCons(c, []);
    SpacedCons(b, [c]);
    SpacedCons(a, [b, c]);
    assert [a] + [b, c] == [a, b, c] && [b] + [c] == [b, c] && [c] + [] == [c];
  }

  lemma {:induction false} TwoSpaced(p: Piece, q: Piece)
    requires GoodPiece(p) && GoodPiece(q) && Fresh(q)
    ensures Spaced([p, q])
  {
    SpacedCons(q, []);
    SpacedCons(p, [q]);
    assert [p] + [q] == [p, q] && [q] + [] == [q];
  }

  lemma {:induction false} TagsSpaced(tags: seq<Tag>)
    requires forall i :: 0 <= i < |tags| ==> IsSymbol(tags[i].name) && IsNum(tags[i].rev)
    ensures Spaced(TagPieces(tags)) && (tags != [] ==> Fresh(TagPieces(tags)[0]))
  {
    if tags != [] {
      var t, rest := tags[0], TagPieces(tags[1..]);
      TagsSpaced(tags[1..]);
      var a, b, c := OneTag(t)[0], OneTag(t)[1], OneTag(t)[2];
      SpacedCons(c, []);
      SpacedCons(b, [c]);
      SpacedCons(a, [b, c]);
      assert [a] + [b, c] == OneTag(t) && [b] + [c] == [b, c] && [c] + [] == [c];
      SpacedPlus(OneTag(t), rest);
    }
  }

  /** Words that are printed are symbols. */
  lemma {:induction false} Words()
    ensures IsSymbol("head") && IsSymbol("branch") && IsSymbol("access") && IsSymbol("symbols") && IsSymbol("locks")
    ensures IsSymbol("strict") && IsSymbol("comment") && IsSymbol("expand") && IsSymbol("desc")
  {
  }

  lemma {:induction false} DeltaWords()
    ensures IsSymbol("date") && IsSymbol("author") && IsSymbol("state") && IsSymbol("branches") && IsSymbol("next")
    ensures IsSymbol("log") && IsSymbol("text")
  {
  }

  lemma {:induction false} AdminSpaced(a: Admin)
    requires GoodAdmin(a)
    ensures Spaced(AdminPieces(a))
  {
    Words();
    ExpandReadsBack(a.expand);
    var h := Field("", "head", "\t", Id(a.head));
    FieldSpaced("", "head", "\t", Id(a.head));
    BranchSpaced(a);
    AccessSpaced();
    TagsSpaced(a.tags);
    EndSpaced(a);
    hide Spaced, Field, TagPieces, GoodAdmin, IsSymbol, Doubled;
    var b, t := BranchPieces(a), TagPieces(a.tags);
    SpacedPlus(h, b);
    SpacedPlus(h + b, ACCESS);
    SpacedPlus(h + b + ACCESS, t);
    SpacedPlus(h + b + ACCESS + t, LOCKS);
    SpacedPlus(h + b + ACCESS + t + LOCKS, StrictPieces(a));
    SpacedPlus(h + b + ACCESS + t + LOCKS + StrictPieces(a), CommentPieces(a));
    SpacedPlus(h + b + ACCESS + t + LOCKS + StrictPieces(a) + CommentPieces(a), ExpandPieces(a));
  }

  lemma {:induction false} BranchSpaced(a: Admin)
    requires GoodAdmin(a)
    ensures Spaced(BranchPieces(a)) && (BranchPieces(a) != [] ==> Fresh(BranchPieces(a)[0]))
  {
    Words();
    if a.branch.Some? { FieldSpaced("\n", "branch", "\t", Id(a.branch.value)); }
  }

  lemma {:induction false} AccessSpaced()
    ensures Spaced(ACCESS) && Fresh(ACCESS[0]) && Spaced(LOCKS) && Fresh(LOCKS[0])
  {
    Words();
    SpacedCons(ACCESS[2], []);
    SpacedCons(ACCESS[1], [ACCESS[2]]);
    SpacedCons(ACCESS[0], [ACCESS[1], ACCESS[2]]);
    assert [ACCESS[0]] + [ACCESS[1], ACCESS[2]] == ACCESS && [ACCESS[1]] + [ACCESS[2]] == [ACCESS[1], ACCESS[2]];
    assert [ACCESS[2]] + [] == [ACCESS[2]];
    SpacedCons(LOCKS[2], []);
    SpacedCons(LOCKS[1], [LOCKS[2]]);
    SpacedCons(LOCKS[0], [LOCKS[1], LOCKS[2]]);
    assert [LOCKS[0]] + [LOCKS[1], LOCKS[2]] == LOCKS && [LOCKS[1]] + [LOCKS[2]] == [LOCKS[1], LOCKS[2]];
    assert [LOCKS[2]] + [] == [LOCKS[2]];
  }

  lemma {:induction false} EndSpaced(a: Admin)
    requires GoodAdmin(a)
    ensures Spaced(StrictPieces(a)) && (StrictPieces(a) != [] ==> Fresh(StrictPieces(a)[0]))
    ensures Spaced(CommentPieces(a)) && (CommentPieces(a) != [] ==> Fresh(CommentPieces(a)[0]))
    ensures Spaced(ExpandPieces(a)) && (ExpandPieces(a) != [] ==> Fresh(ExpandPieces(a)[0]))
  {
    Words();
    ExpandReadsBack(a.expand);
    if a.strict { TwoSpaced(Piece(" ", Id("strict")), Piece("", Semi)); }
    if a.comment.Some? { FieldSpaced("\n", "comment", "\t", Str(a.comment.value)); }
    if a.expand != Default { FieldSpaced("\n", "expand", "\t", Str(EncodeExpand(a.expand))); }
  }

  lemma {:induction false} NumsSpaced(nums: seq<string>)
    requires forall i :: 0 <= i < |nums| ==> IsNum(nums[i])
    ensures Spaced(NumPieces(nums)) && (nums != [] ==> Fresh(NumPieces(nums)[0]))
  {
    if nums != [] {
      NumsSpaced(nums[1..]);
      SpacedCons(Piece("\n\t", Id(nums[0])), NumPieces(nums[1..]));
    }
  }

  lemma {:induction false} DateSpaced(space: string, h: Header)
    requires GoodHeader(h) && space != "" && AllSpace(space)
    ensures Spaced(DatePieces(space, h)) && Fresh(DatePieces(space, h)[0])
  {
    DeltaWords();
    var p, f, g := Piece(space, Id(h.rev)), Field("\n", "date", "\t", Id(h.date)),
        Field("\t", "author", " ", Id(h.author));
    FieldSpaced("\n", "date", "\t", Id(h.date));
    FieldSpaced("\t", "author", " ", Id(h.author));
    SpacedCons(p, f);
    hide Spaced, GoodHeader, IsSymbol;
    SpacedPlus([p] + f, g);
  }

  lemma {:induction false} StateSpaced(h: Header)
    requires GoodHeader(h)
    ensures Spaced(StatePieces(h)) && Fresh(StatePieces(h)[0])
  {
    DeltaWords();
    var p := Piece("\t", Id("state"));
    if h.state.Some? {
      TwoSpaced(p, Piece(" ", Id(h.state.value)));
      assert StatePieces(h) == [p, Piece(" ", Id(h.state.value))];
    } else {
      SpacedCons(p, []);
      assert StatePieces(h) == [p] == [p] + [];
    }
  }

  lemma {:induction false} NextSpaced(h: Header)
    requires GoodHeader(h)
    ensures Spaced(BRANCHES) && Fresh(BRANCHES[0]) && Spaced(NEXT) && Fresh(NEXT[0])
    ensures Spaced(NextPieces(h)) && Fresh(NextPieces(h)[0])
  {
    DeltaWords();
    TwoSpaced(BRANCHES[0], BRANCHES[1]);
    TwoSpaced(NEXT[0], NEXT[1]);
    if h.next.Some? {
      TwoSpaced(Piece("\t", Id(h.next.value)), Piece("", Semi));
    } else {
      SpacedCons(Piece("\t", Semi), []);
      assert [Piece("\t", Semi)] + [] == [Piece("\t", Semi)];
    }
  }

  lemma {:induction false} HeaderSpaced(space: string, h: Header)
    requires GoodHeader(h) && space != "" && AllSpace(space)
    ensures Spaced(HeaderPieces(space, h)) && HeaderPieces(space, h) != [] && Fresh(HeaderPieces(space, h)[0])
  {
    DateSpaced(space, h);
    StateSpaced(h);
    NumsSpaced(h.branches);
    NextSpaced(h);
    hide Spaced, GoodHeader, DatePieces, StatePieces, NumPieces, NextPieces, Fresh;
    var d, s, n := DatePieces(space, h), StatePieces(h), NumPieces(h.branches);
    SpacedPlus(d, s);
    SpacedPlus(d + s, BRANCHES);
    SpacedPlus(d + s + BRANCHES, n);
    SpacedPlus(d + s + BRANCHES + n, NEXT);
    SpacedPlus(d + s + BRANCHES + n + NEXT, NextPieces(h));
  }

  lemma {:induction false} HeadersSpaced(space: string, hs: seq<Header>)
    requires (forall i :: 0 <= i < |hs| ==> GoodHeader(hs[i])) && space != "" && AllSpace(space)
    ensures Spaced(HeadersPieces(space, hs))
    ensures hs != [] ==> HeadersPieces(space, hs) != [] && Fresh(HeadersPieces(space, hs)[0])
    decreases |hs|
  {
    if hs != [] {
      assert GoodHeader(hs[0]);
      HeadersSpaced("\n\n", hs[1..]);
      HeaderSpaced(space, hs[0]);
      hide Spaced, GoodHeader, HeaderPieces, Fresh;
      SpacedPlus(HeaderPieces(space, hs[0]), HeadersPieces("\n\n", hs[1..]));
    }
  }

  lemma {:induction false} TextSpaced(x: DeltaText)
    requires GoodText(x)
    ensures Spaced(TextPieces(x)) && Fresh(TextPieces(x)[0])
  {
    DeltaWords();
    var a, b := LogPieces(x), [Piece("\n", Id("text")), Piece("\n", Str(x.text))];
    SpacedCons(a[2], []);
    SpacedCons(a[1], [a[2]]);
    SpacedCons(a[0], [a[1], a[2]]);
    assert [a[0]] + [a[1], a[2]] == a && [a[1]] + [a[2]] == [a[1], a[2]] && [a[2]] + [] == [a[2]];
    TwoSpaced(b[0], b[1]);
    SpacedPlus(a, b);
  }

  lemma {:induction false} TextsSpaced(xs: seq<DeltaText>)
    requires forall i :: 0 <= i < |xs| ==> GoodText(xs[i])
    ensures Spaced(TextsPieces(xs)) && (xs != [] ==> TextsPieces(xs) != [] && Fresh(TextsPieces(xs)[0]))
  {
    if xs != [] {
      assert GoodText(xs[0]);
      TextsSpaced(xs[1..]);
      TextSpaced(xs[0]);
      hide Spaced, GoodText, TextPieces, Fresh;
      SpacedPlus(TextPieces(xs[0]), TextsPieces(xs[1..]));
    }
  }

  lemma {:induction false} DocSpaced(d: Doc)
    requires GoodDoc(d)
    ensures Spaced(DocPieces(d))
  {
    Words();
    var e := DescPieces(d.desc);
    AdminSpaced(d.admin);
    HeadersSpaced("\n\n\n", d.headers);
    TwoSpaced(e[0], e[1]);
    assert forall i :: 0 <= i < |d.texts| ==> GoodText(d.texts[i]);
    TextsSpaced(d.texts);
    assert Fresh(e[0]);
    hide Spaced, GoodDoc, AdminPieces, HeadersPieces, TextsPieces, Fresh, Doubled, IsSymbol;
    var a, h := AdminPieces(d.admin), HeadersPieces("\n\n\n", d.headers);
    SpacedPlus(a, h);
    SpacedPlus(a + h, e);
    SpacedPlus(a + h + e, TextsPieces(d.texts));
  }

  /** Printing a file, lexing it to its end and parsing the tokens gives back what
      was printed: head, default branch, tags in their order, strict locking,
      comment, expansion mode, deltas, description, logs and texts.  Access list
      and locks are printed empty, and the branches of each delta are not kept. */
  lemma {:induction false} FileReadsBack(d: Doc)
    requires GoodDoc(d)
    ensures var text := Render(DocPieces(d), "\n");
            ParseFile(Tokens(text, 0).0, Tokens(text, 0).1) == Some(d.(headers := RcsParse.ReadAll(d.headers)))
  {
    var ps := DocPieces(d);
    var text := Render(ps, "\n");
    DocSpaced(d);
    SpacedPrints(ps, "\n");
    assert text[0..] == text;
    TokensOfPrinted(text, 0, ps, "\n");
    DocBack(d);
    hide Tokens, Toks, Render, DocPieces, ParseFile, Spaced, Printable;
  }
}
