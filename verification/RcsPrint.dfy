/** Printing an RCS file: the strings that are written are the file's tokens. */
module RcsPrint {
  import opened RcsLex
  import opened RcsText

  /** `x`, printed behind the pieces `ps` and white space `t`, adds the pieces `qs`
      and leaves white space `t2`. */
  lemma {:induction false} Adds(ps: seq<Piece>, t: string, x: string, qs: seq<Piece>, t2: string)
    requires t + x == Render(qs, t2)
    ensures Render(ps, t) + x == Render(ps + qs, t2)
  {
    RenderTail(ps, t, x);
    RenderPlus(ps, qs, t2);
  }

  lemma {:induction false} Render1(p: Piece, t: string)
    ensures Render([p], t) == p.space + Text(p.tok) + t
  {
    assert [p][1..] == [];
  }

  lemma {:induction false} Render2(p: Piece, q: Piece, t: string)
    ensures Render([p, q], t) == p.space + Text(p.tok) + (q.space + Text(q.tok) + t)
  {
    assert [p, q][1..] == [q];
    Render1(q, t);
  }

  lemma {:induction false} Render3(p: Piece, q: Piece, r: Piece, t: string)
    ensures Render([p, q, r], t) == p.space + Text(p.tok) + (q.space + Text(q.tok) + (r.space + Text(r.tok) + t))
  {
    assert [p, q, r][1..] == [q, r];
    Render2(q, r, t);
  }

  /** A field on a line of its own. */
  lemma {:induction false} FieldLine(space: string, word: string, part: string, value: Tok, t: string)
    ensures space + (word + part + Text(value) + (";" + t)) == Render(Field(space, word, part, value), t)
  {
    Render3(Piece(space, Id(word)), Piece(part, value), Piece("", Semi), t);
    var v := Text(value);
    assert Text(Id(word)) == word && Text(Semi) == ";";
    hide Text, Render;
    assert "" + ";" == ";";
    Join(space, word, part + v + (";" + t));
    Join(part, v, ";" + t);
    Join(word, part, v + (";" + t));
    Join(word + part, v, ";" + t);
  }

  lemma {:induction false} Join(a: string, b: string, c: string)
    ensures a + b + c == a + (b + c)
  {
  }

  lemma {:induction false} QuotedText(s: string)
    ensures Text(Str(s)) == "@" + s + "@"
  {
  }

  // -------------------------------------------------------- administrative part

  method PrintField(out: string, ghost ps: seq<Piece>, word: string, value: string) returns (r: string)
    requires out == Render(ps, "\n")
    ensures r == Render(ps + Field("\n", word, "\t", Id(value)), "\n")
  {
    hide Render, Field;
    var x := word + "\t" + value + (";" + "\n");
    FieldLine("\n", word, "\t", Id(value), "\n");
    Adds(ps, "\n", x, Field("\n", word, "\t", Id(value)), "\n");
    r := out + x;
  }

  /** A string that is kept, between quotes. */
  method PrintString(out: string, ghost ps: seq<Piece>, word: string, value: string) returns (r: string)
    requires out == Render(ps, "\n")
    ensures r == Render(ps + Field("\n", word, "\t", Str(value)), "\n")
  {
    hide Render, Field;
    var x := word + "\t" + ("@" + value + "@") + (";" + "\n");
    QuotedText(value);
    FieldLine("\n", word, "\t", Str(value), "\n");
    Adds(ps, "\n", x, Field("\n", word, "\t", Str(value)), "\n");
    r := out + x;
  }

  method PrintTags(out: string, ghost ps: seq<Piece>, tags: seq<Tag>) returns (r: string)
    requires out == Render(ps, "")
    ensures r == Render(ps + TagPieces(tags), "")
  {
    r := out;
    var i := 0;
    assert tags[..0] == [] && TagPieces([]) == [] && ps + [] == ps;
    hide Render, TagPieces, OneTag;
    while i < |tags|
      invariant i <= |tags| && r == Render(ps + TagPieces(tags[..i]), "")
    {
      var x := "\n" + "\t" + tags[i].name + ":" + tags[i].rev;
      TagsSnoc(tags, i);
      TagText(tags[i]);
      Adds(ps + TagPieces(tags[..i]), "", x, OneTag(tags[i]), "");
      Regroup(ps, TagPieces(tags[..i]), OneTag(tags[i]));
      r := r + x;
      i := i + 1;
    }
    assert tags[..|tags|] == tags;
  }

  lemma {:induction false} Regroup(a: seq<Piece>, b: seq<Piece>, c: seq<Piece>)
    ensures a + b + c == a + (b + c)
  {
  }

  lemma {:induction false} TagText(t: Tag)
    ensures "" + ("\n" + "\t" + t.name + ":" + t.rev) == Render(OneTag(t), "")
  {
    Render3(Piece("\n\t", Id(t.name)), Piece("", Colon), Piece("", Id(t.rev)), "");
  }

  lemma {:induction false} TagsPlus(a: seq<Tag>, b: seq<Tag>)
    ensures TagPieces(a + b) == TagPieces(a) + TagPieces(b)
  {
    hide OneTag;
    if a == [] {
      assert a + b == b;
    } else {
      assert (a + b)[1..] == a[1..] + b;
      TagsPlus(a[1..], b);
      Regroup(OneTag(a[0]), TagPieces(a[1..]), TagPieces(b));
    }
  }

  lemma {:induction false} TagsSnoc(tags: seq<Tag>, i: nat)
    requires i < |tags|
    ensures TagPieces(tags[..i + 1]) == TagPieces(tags[..i]) + OneTag(tags[i])
  {
    assert tags[..i + 1] == tags[..i] + [tags[i]];
    TagsPlus(tags[..i], [tags[i]]);
    hide OneTag;
    assert [tags[i]][1..] == [];
    assert OneTag(tags[i]) + [] == OneTag(tags[i]);
  }

  lemma {:induction false} Fixed()
    ensures "\n" + ("access" + ";\n" + "symbols") == Render(ACCESS, "")
    ensures "" + ";\nlocks;" == Render(LOCKS, "")
    ensures "" + " strict;" == Render([Piece(" ", Id("strict")), Piece("", Semi)], "")
    ensures "" + "\n" == "\n"
  {
    Render3(ACCESS[0], ACCESS[1], ACCESS[2], "");
    Render3(LOCKS[0], LOCKS[1], LOCKS[2], "");
    Render2(Piece(" ", Id("strict")), Piece("", Semi), "");
  }

  /** The administrative part. */
  method PrintAdmin(a: Admin) returns (out: string)
    ensures out == Render(AdminPieces(a), "\n")
  {
    FieldLine("", "head", "\t", Id(a.head), "\n");
    hide Render, Field, TagPieces, EncodeExpand;
    out := "" + ("head" + "\t" + a.head + (";" + "\n"));
    ghost var ps := Field("", "head", "\t", Id(a.head));
    if a.branch.Some? {
      out := PrintField(out, ps, "branch", a.branch.value);
    }
    assert ps + [] == ps;
    ps := ps + BranchPieces(a);
    Fixed();
    Adds(ps, "\n", "access" + ";\n" + "symbols", ACCESS, "");
    out := out + ("access" + ";\n" + "symbols");
    ps := ps + ACCESS;
    out := PrintTags(out, ps, a.tags);
    ps := ps + TagPieces(a.tags);
    Adds(ps, "", ";\nlocks;", LOCKS, "");
    out := out + ";\nlocks;";
    ps := ps + LOCKS;
    out := PrintRest(out, ps, a);
  }

  method PrintRest(out: string, ghost ps: seq<Piece>, a: Admin) returns (r: string)
    requires out == Render(ps, "")
    ensures r == Render(ps + StrictPieces(a) + CommentPieces(a) + ExpandPieces(a), "\n")
  {
    Fixed();
    hide Render, Field, EncodeExpand;
    r := out;
    if a.strict {
      Adds(ps, "", " strict;", StrictPieces(a), "");
      r := r + " strict;";
    }
    assert ps + [] == ps;
    ghost var qs := ps + StrictPieces(a);
    RenderTail(qs, "", "\n");
    r := r + "\n";
    if a.comment.Some? {
      r := PrintString(r, qs, "comment", a.comment.value);
    }
    assert qs + [] == qs;
    qs := qs + CommentPieces(a);
    if a.expand != Default {
      r := PrintString(r, qs, "expand", EncodeExpand(a.expand));
    }
    assert qs + [] == qs;
  }

  // --------------------------------------------------------------------- deltas

  method PrintDate(out: string, ghost ps: seq<Piece>, space: string, h: Header) returns (r: string)
    requires out == Render(ps, space)
    ensures r == Render(ps + DatePieces(space, h), "")
  {
    ghost var p, f, g := Piece(space, Id(h.rev)), Field("\n", "date", "\t", Id(h.date)),
              Field("\t", "author", " ", Id(h.author));
    Render1(p, "\n");
    FieldLine("\n", "date", "\t", Id(h.date), "");
    FieldLine("\t", "author", " ", Id(h.author), "");
    hide Render, Field;
    assert space + (h.rev + "\n") == space + h.rev + "\n";
    Adds(ps, space, h.rev + "\n", [p], "\n");
    r := out + (h.rev + "\n");
    var x := "date" + "\t" + h.date + (";" + "");
    Adds(ps + [p], "\n", x, f, "");
    r := r + x;
    var y := "\t" + ("author" + " " + h.author + (";" + ""));
    assert "" + y == y;
    Adds(ps + [p] + f, "", y, g, "");
    r := r + y;
    Regroup(ps, [p], f);
    Regroup(ps, [p] + f, g);
  }

  lemma {:induction false} StateText(h: Header)
    ensures "" + ("\t" + "state" + (if h.state.Some? then " " + h.state.value else "")) == Render(StatePieces(h), "")
  {
    if h.state.Some? {
      Render2(Piece("\t", Id("state")), Piece(" ", Id(h.state.value)), "");
      assert StatePieces(h) == [Piece("\t", Id("state")), Piece(" ", Id(h.state.value))];
    } else {
      Render1(Piece("\t", Id("state")), "");
      assert StatePieces(h) == [Piece("\t", Id("state"))];
    }
  }

  lemma {:induction false} NextText(h: Header)
    ensures "" + ("\t" + (if h.next.Some? then h.next.value else "") + ";\n\n") == Render(NextPieces(h), "\n\n")
  {
    if h.next.Some? {
      Render2(Piece("\t", Id(h.next.value)), Piece("", Semi), "\n\n");
    } else {
      Render1(Piece("\t", Semi), "\n\n");
    }
  }

  lemma {:induction false} FixedDelta()
    ensures "" + ";\nbranches" == Render(BRANCHES, "") && "" + ";\nnext" == Render(NEXT, "")
  {
    Render2(BRANCHES[0], BRANCHES[1], "");
    Render2(NEXT[0], NEXT[1], "");
  }

  method PrintBranches(out: string, ghost ps: seq<Piece>, nums: seq<string>) returns (r: string)
    requires out == Render(ps, "")
    ensures r == Render(ps + NumPieces(nums), "")
  {
    r := out;
    var i := 0;
    assert nums[..0] == [] && NumPieces([]) == [] && ps + [] == ps;
    hide Render, NumPieces;
    while i < |nums|
      invariant i <= |nums| && r == Render(ps + NumPieces(nums[..i]), "")
    {
      var x := "\n" + "\t" + nums[i];
      ghost var p := Piece("\n\t", Id(nums[i]));
      NumsSnoc(nums, i);
      NumText(nums[i]);
      Adds(ps + NumPieces(nums[..i]), "", x, [p], "");
      Regroup(ps, NumPieces(nums[..i]), [p]);
      r := r + x;
      i := i + 1;
    }
    assert nums[..|nums|] == nums;
  }

  lemma {:induction false} NumText(num: string)
    ensures "" + ("\n" + "\t" + num) == Render([Piece("\n\t", Id(num))], "")
  {
    Render1(Piece("\n\t", Id(num)), "");
  }

  lemma {:induction false} NumsPlus(a: seq<string>, b: seq<string>)
    ensures NumPieces(a + b) == NumPieces(a) + NumPieces(b)
  {
    if a == [] {
      assert a + b == b;
    } else {
      assert (a + b)[1..] == a[1..] + b;
      NumsPlus(a[1..], b);
    }
  }

  lemma {:induction false} NumsSnoc(nums: seq<string>, i: nat)
    requires i < |nums|
    ensures NumPieces(nums[..i + 1]) == NumPieces(nums[..i]) + [Piece("\n\t", Id(nums[i]))]
  {
    assert nums[..i + 1] == nums[..i] + [nums[i]];
    NumsPlus(nums[..i], [nums[i]]);
    assert [nums[i]][1..] == [];
  }

  /** One delta's header. */
  method PrintHeader(out: string, ghost ps: seq<Piece>, space: string, h: Header) returns (r: string)
    requires out == Render(ps, space)
    ensures r == Render(ps + HeaderPieces(space, h), "\n\n")
  {
    StateText(h);
    NextText(h);
    FixedDelta();
    hide Render, DatePieces, StatePieces, NumPieces, NextPieces;
    r := PrintDate(out, ps, space, h);
    ghost var qs := ps + DatePieces(space, h);
    var x := "\t" + "state" + (if h.state.Some? then " " + h.state.value else "");
    Adds(qs, "", x, StatePieces(h), "");
    r, qs := r + x, qs + StatePieces(h);
    Adds(qs, "", ";\nbranches", BRANCHES, "");
    r, qs := r + ";\nbranches", qs + BRANCHES;
    r := PrintBranches(r, qs, h.branches);
    qs := qs + NumPieces(h.branches);
    Adds(qs, "", ";\nnext", NEXT, "");
    r, qs := r + ";\nnext", qs + NEXT;
    var y := "\t" + (if h.next.Some? then h.next.value else "") + ";\n\n";
    Adds(qs, "", y, NextPieces(h), "\n\n");
    r := r + y;
    SixParts(ps, DatePieces(space, h), StatePieces(h), BRANCHES, NumPieces(h.branches), NEXT, NextPieces(h));
  }

  lemma {:induction false} SixParts(p: seq<Piece>, a: seq<Piece>, b: seq<Piece>, c: seq<Piece>, d: seq<Piece>,
      e: seq<Piece>, f: seq<Piece>)
    ensures p + a + b + c + d + e + f == p + (a + b + c + d + e + f)
  {
    Regroup(p, a, b);
    Regroup(p, a + b, c);
    Regroup(p, a + b + c, d);
    Regroup(p, a + b + c + d, e);
    Regroup(p, a + b + c + d + e, f);
  }

  function SpaceAt(i: nat): string { if i == 0 then "\n\n\n" else "\n\n" }

  /** All headers, the first behind three line ends. */
  method PrintHeaders(out: string, ghost ps: seq<Piece>, hs: seq<Header>) returns (r: string)
    requires hs != [] && out == Render(ps, "\n\n\n")
    ensures r == Render(ps + HeadersPieces("\n\n\n", hs), "\n\n")
  {
    r := out;
    var i := 0;
    assert hs[..0] == [] && HeadersPieces("\n\n\n", []) == [] && ps + [] == ps;
    hide Render, HeadersPieces, HeaderPieces;
    while i < |hs|
      invariant i <= |hs| && r == Render(ps + HeadersPieces("\n\n\n", hs[..i]), SpaceAt(i))
    {
      HeadersSnoc(hs, i);
      Regroup(ps, HeadersPieces("\n\n\n", hs[..i]), HeaderPieces(SpaceAt(i), hs[i]));
      r := PrintHeader(r, ps + HeadersPieces("\n\n\n", hs[..i]), SpaceAt(i), hs[i]);
      i := i + 1;
    }
    assert hs[..|hs|] == hs;
  }

  lemma {:induction false} HeadersPlus(space: string, a: seq<Header>, h: Header)
    ensures HeadersPieces(space, a + [h]) ==
            HeadersPieces(space, a) + HeaderPieces(if a == [] then space else "\n\n", h)
    decreases |a|
  {
    hide HeaderPieces;
    if a == [] {
      assert a + [h] == [h] && [h][1..] == [];
      assert HeaderPieces(space, h) + [] == HeaderPieces(space, h) == [] + HeaderPieces(space, h);
    } else {
      assert (a + [h])[1..] == a[1..] + [h];
      HeadersPlus("\n\n", a[1..], h);
      Regroup(HeaderPieces(space, a[0]), HeadersPieces("\n\n", a[1..]), HeaderPieces("\n\n", h));
    }
  }

  lemma {:induction false} HeadersSnoc(hs: seq<Header>, i: nat)
    requires i < |hs|
    ensures HeadersPieces("\n\n\n", hs[..i + 1]) == HeadersPieces("\n\n\n", hs[..i]) + HeaderPieces(SpaceAt(i), hs[i])
  {
    assert hs[..i + 1] == hs[..i] + [hs[i]];
    HeadersPlus("\n\n\n", hs[..i], hs[i]);
  }

  // ---------------------------------------------------------------------- texts

  /** A string behind a word of its own line. */
  lemma {:induction false} WordString(word: string, value: string, t: string)
    ensures t + "\n" + word + "\n@" + value + "@" == t + ("\n" + word + ("\n" + Text(Str(value)) + ""))
  {
    QuotedText(value);
    hide Text;
    assert "\n@" + value + "@" == "\n" + ("@" + value + "@") + "";
    assert t + "\n" + word + "\n@" + value + "@" == t + "\n" + word + ("\n@" + value + "@");
  }

  lemma {:induction false} LogText(x: DeltaText)
    ensures "" + ("\n\n\n" + x.rev + "\n" + "log" + "\n@" + x.log + "@") == Render(LogPieces(x), "")
  {
    Render3(Piece("\n\n\n", Id(x.rev)), Piece("\n", Id("log")), Piece("\n", Str(x.log)), "");
    assert Text(Id(x.rev)) == x.rev && Text(Id("log")) == "log";
    hide Render, Text;
    WordString("log", x.log, "\n\n\n" + x.rev);
  }

  lemma {:induction false} BodyText(text: string)
    ensures "" + "\n" + "text" + "\n@" + text + "@" == Render([Piece("\n", Id("text")), Piece("\n", Str(text))], "")
  {
    Render2(Piece("\n", Id("text")), Piece("\n", Str(text)), "");
    assert Text(Id("text")) == "text";
    hide Render, Text;
    WordString("text", text, "");
    assert "" + ("\n" + "text" + ("\n" + Text(Str(text)) + "")) == "\n" + "text" + ("\n" + Text(Str(text)) + "");
  }

  method PrintText(out: string, ghost ps: seq<Piece>, x: DeltaText) returns (r: string)
    requires out == Render(ps, "")
    ensures r == Render(ps + TextPieces(x), "")
  {
    LogText(x);
    BodyText(x.text);
    hide Render, LogPieces;
    ghost var body := [Piece("\n", Id("text")), Piece("\n", Str(x.text))];
    var log := "\n\n\n" + x.rev + "\n" + "log" + "\n@" + x.log + "@";
    Adds(ps, "", log, LogPieces(x), "");
    var text := "" + "\n" + "text" + "\n@" + x.text + "@";
    assert "" + text == text;
    Adds(ps + LogPieces(x), "", text, body, "");
    Regroup(ps, LogPieces(x), body);
    r := out + log + text;
  }

  method PrintTexts(out: string, ghost ps: seq<Piece>, xs: seq<DeltaText>) returns (r: string)
    requires out == Render(ps, "")
    ensures r == Render(ps + TextsPieces(xs), "")
  {
    r := out;
    var i := 0;
    assert xs[..0] == [] && TextsPieces([]) == [] && ps + [] == ps;
    hide Render, TextsPieces, TextPieces;
    while i < |xs|
      invariant i <= |xs| && r == Render(ps + TextsPieces(xs[..i]), "")
    {
      TextsSnoc(xs, i);
      Regroup(ps, TextsPieces(xs[..i]), TextPieces(xs[i]));
      r := PrintText(r, ps + TextsPieces(xs[..i]), xs[i]);
      i := i + 1;
    }
    assert xs[..|xs|] == xs;
  }

  lemma {:induction false} TextsPlus(a: seq<DeltaText>, b: seq<DeltaText>)
    ensures TextsPieces(a + b) == TextsPieces(a) + TextsPieces(b)
  {
    hide TextPieces;
    if a == [] {
      assert a + b == b;
    } else {
      assert (a + b)[1..] == a[1..] + b;
      TextsPlus(a[1..], b);
      Regroup(TextPieces(a[0]), TextsPieces(a[1..]), TextsPieces(b));
    }
  }

  lemma {:induction false} TextsSnoc(xs: seq<DeltaText>, i: nat)
    requires i < |xs|
    ensures TextsPieces(xs[..i + 1]) == TextsPieces(xs[..i]) + TextPieces(xs[i])
  {
    hide TextPieces;
    assert xs[..i + 1] == xs[..i] + [xs[i]];
    TextsPlus(xs[..i], [xs[i]]);
    assert [xs[i]][1..] == [];
    assert TextPieces(xs[i]) + [] == TextPieces(xs[i]);
  }

  lemma {:induction false} DescText(desc: string)
    ensures "\n\n" + ("\ndesc\n@" + desc + "@") == Render(DescPieces(desc), "")
  {
    assert Text(Id("desc")) == "desc" && DescPieces(desc) == [Piece("\n\n\n", Id("desc")), Piece("\n", Str(desc))];
    hide Render, Text, DescPieces;
    Render2(Piece("\n\n\n", Id("desc")), Piece("\n", Str(desc)), "");
    WordString("desc", desc, "\n\n");
    var s := Text(Str(desc));
    DescJoins(s);
    assert "\n\n" + ("\ndesc\n@" + desc + "@") == "\n\n" + "\n" + "desc" + "\n@" + desc + "@";
  }

  lemma DescJoins(s: string)
    ensures "\n\n" + ("\n" + "desc" + ("\n" + s + "")) == "\n\n\n" + "desc" + ("\n" + s + "")
  {
  }

  /** The whole file. */
  method PrintFile(d: Doc) returns (out: string)
    requires d.headers != []
    ensures out == Render(DocPieces(d), "\n")
  {
    hide Render, AdminPieces, HeadersPieces, TextsPieces, DescPieces;
    out := PrintAdmin(d.admin);
    ghost var ps := AdminPieces(d.admin);
    RenderTail(ps, "\n", "\n\n");
    assert "\n" + "\n\n" == "\n\n\n";
    out := out + "\n\n";
    out := PrintHeaders(out, ps, d.headers);
    ps := ps + HeadersPieces("\n\n\n", d.headers);
    DescText(d.desc);
    Adds(ps, "\n\n", "\ndesc\n@" + d.desc + "@", DescPieces(d.desc), "");
    out := out + ("\ndesc\n@" + d.desc + "@");
    ps := ps + DescPieces(d.desc);
    out := PrintTexts(out, ps, d.texts);
    ps := ps + TextsPieces(d.texts);
    RenderTail(ps, "", "\n");
    assert "" + "\n" == "\n";
    out := out + "\n";
  }
}
