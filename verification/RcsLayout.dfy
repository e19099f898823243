/** The bytes of a printed RCS file, written out. */
module RcsLayout {
  import opened Lines
  import opened RcsLex
  import opened RcsText
  import opened RcsPrint

  function TagLines(tags: seq<Tag>): string {
    if tags == [] then "" else "\n\t" + tags[0].name + ":" + tags[0].rev + TagLines(tags[1..])
  }

  function AdminText(a: Admin): string {
    "head\t" + a.head + ";"
    + (if a.branch.Some? then "\nbranch\t" + a.branch.value + ";" else "")
    + "\naccess;\nsymbols"
    + TagLines(a.tags)
    + ";\nlocks;"
    + (if a.strict then " strict;" else "")
    + (if a.comment.Some? then "\ncomment\t@" + a.comment.value + "@;" else "")
    + (if a.expand != Default then "\nexpand\t@" + EncodeExpand(a.expand) + "@;" else "")
  }

  function NumLines(nums: seq<string>): string {
    if nums == [] then "" else "\n\t" + nums[0] + NumLines(nums[1..])
  }

  function HeaderText(h: Header): string {
    h.rev + "\ndate\t" + h.date + ";\tauthor " + h.author + ";"
    + ("\tstate" + (if h.state.Some? then " " + h.state.value else ""))
    + ";\nbranches"
    + NumLines(h.branches)
    + ";\nnext"
    + ("\t" + (if h.next.Some? then h.next.value else "") + ";")
  }

  function HeadersText(hs: seq<Header>): string {
    if hs == [] then "" else "\n\n" + HeaderText(hs[0]) + HeadersText(hs[1..])
  }

  function BodiesText(xs: seq<DeltaText>): string {
    if xs == [] then ""
    else "\n\n\n" + xs[0].rev + "\nlog\n@" + xs[0].log + "@\ntext\n@" + xs[0].text + "@" + BodiesText(xs[1..])
  }

  function FileText(d: Doc): string {
    AdminText(d.admin) + "\n" + HeadersText(d.headers) + "\n\n\ndesc\n@" + d.desc + "@" + BodiesText(d.texts) + "\n"
  }

  // -------------------------------------------------------------------- the proof

  /** The bytes of pieces without what comes behind. */
  function Bytes(ps: seq<Piece>): string { Render(ps, "") }

  lemma {:induction false} BytesPlus(a: seq<Piece>, b: seq<Piece>)
    ensures Bytes(a + b) == Bytes(a) + Bytes(b)
  {
    RenderPlus(a, b, "");
    RenderTail(a, "", Bytes(b));
    assert "" + Bytes(b) == Bytes(b);
  }

  lemma {:induction false} FieldBytes(space: string, word: string, part: string, value: Tok)
    ensures Bytes(Field(space, word, part, value)) == space + word + part + Text(value) + ";"
  {
    FieldLine(space, word, part, value, "");
    hide Text, Render, Field;
    assert ";" + "" == ";";
    assert space + (word + part + Text(value) + ";") == space + word + part + Text(value) + ";";
  }

  lemma {:induction false} TagsBytes(tags: seq<Tag>)
    ensures Bytes(TagPieces(tags)) == TagLines(tags)
  {
    if tags != [] {
      TagText(tags[0]);
      TagsBytes(tags[1..]);
      BytesPlus(OneTag(tags[0]), TagPieces(tags[1..]));
      hide Render, OneTag;
    }
  }

  lemma {:induction false} NumsBytes(nums: seq<string>)
    ensures Bytes(NumPieces(nums)) == NumLines(nums)
  {
    if nums != [] {
      var p := Piece("\n\t", Id(nums[0]));
      NumText(nums[0]);
      NumsBytes(nums[1..]);
      BytesPlus([p], NumPieces(nums[1..]));
      hide Render;
    }
  }

  lemma {:induction false} OptionBytes(a: Admin)
    ensures Bytes(BranchPieces(a)) == if a.branch.Some? then "\nbranch\t" + a.branch.value + ";" else ""
    ensures Bytes(StrictPieces(a)) == if a.strict then " strict;" else ""
  {
    Fixed();
    if a.branch.Some? {
      FieldBytes("\n", "branch", "\t", Id(a.branch.value));
      assert "\n" + "branch" + "\t" == "\nbranch\t";
    }
  }

  lemma {:induction false} StringBytes(a: Admin)
    ensures Bytes(CommentPieces(a)) == if a.comment.Some? then "\ncomment\t@" + a.comment.value + "@;" else ""
    ensures Bytes(ExpandPieces(a)) == if a.expand != Default then "\nexpand\t@" + EncodeExpand(a.expand) + "@;" else ""
  {
    hide EncodeExpand, Field;
    if a.comment.Some? {
      QuotedField("comment", a.comment.value);
      assert "\n" + "comment" + "\t@" == "\ncomment\t@";
    }
    if a.expand != Default {
      QuotedField("expand", EncodeExpand(a.expand));
      assert "\n" + "expand" + "\t@" == "\nexpand\t@";
    }
  }

  lemma {:induction false} QuotedField(word: string, value: string)
    ensures Bytes(Field("\n", word, "\t", Str(value))) == "\n" + word + "\t@" + value + "@;"
  {
    FieldBytes("\n", word, "\t", Str(value));
    QuotedText(value);
    hide Text, Render, Field;
    assert "\n" + word + "\t" + ("@" + value + "@") + ";" == "\n" + word + "\t@" + value + "@;";
  }

  lemma {:induction false} AdminBytes(a: Admin)
    ensures Bytes(AdminPieces(a)) == AdminText(a)
  {
    var head := Field("", "head", "\t", Id(a.head));
    FieldBytes("", "head", "\t", Id(a.head));
    Fixed();
    OptionBytes(a);
    StringBytes(a);
    TagsBytes(a.tags);
    hide Render, TagPieces, TagLines, EncodeExpand, Field, BranchPieces, StrictPieces, CommentPieces, ExpandPieces;
    assert Bytes(head) == "head\t" + a.head + ";" by { assert "" + "head" + "\t" == "head\t"; }
    assert "\n" + ("access" + ";\n" + "symbols") == "\naccess;\nsymbols" && "" + ";\nlocks;" == ";\nlocks;";
    hide Bytes;
    var p1 := head + BranchPieces(a);
    BytesPlus(head, BranchPieces(a));
    BytesPlus(p1, ACCESS);
    BytesPlus(p1 + ACCESS, TagPieces(a.tags));
    BytesPlus(p1 + ACCESS + TagPieces(a.tags), LOCKS);
    var p2 := p1 + ACCESS + TagPieces(a.tags) + LOCKS;
    BytesPlus(p2, StrictPieces(a));
    BytesPlus(p2 + StrictPieces(a), CommentPieces(a));
    BytesPlus(p2 + StrictPieces(a) + CommentPieces(a), ExpandPieces(a));
  }

  lemma {:induction false} DateBytes(space: string, h: Header)
    ensures Bytes(DatePieces(space, h)) == space + (h.rev + "\ndate\t" + h.date + ";\tauthor " + h.author + ";")
  {
    var p, f, g := Piece(space, Id(h.rev)), Field("\n", "date", "\t", Id(h.date)),
        Field("\t", "author", " ", Id(h.author));
    Render1(p, "");
    FieldBytes("\n", "date", "\t", Id(h.date));
    FieldBytes("\t", "author", " ", Id(h.author));
    hide Render, Field;
    BytesPlus([p], f);
    BytesPlus([p] + f, g);
    assert "\n" + "date" + "\t" == "\ndate\t" && "\t" + "author" + " " == "\tauthor ";
    DateJoins(space + h.rev, h.date, h.author);
    assert space + h.rev + "\ndate\t" + h.date + ";\tauthor " + h.author + ";" ==
           space + (h.rev + "\ndate\t" + h.date + ";\tauthor " + h.author + ";");
  }

  lemma DateJoins(r: string, d: string, a: string)
    ensures r + "" + ("\ndate\t" + d + ";") + ("\tauthor " + a + ";") == r + "\ndate\t" + d + ";\tauthor " + a + ";"
  {
  }

  lemma {:induction false} NextBytes(h: Header)
    ensures Bytes(NextPieces(h)) == "\t" + (if h.next.Some? then h.next.value else "") + ";"
  {
    if h.next.Some? {
      Render2(Piece("\t", Id(h.next.value)), Piece("", Semi), "");
    } else {
      Render1(Piece("\t", Semi), "");
    }
  }

  lemma {:induction false} HeaderBytes(space: string, h: Header)
    ensures Bytes(HeaderPieces(space, h)) == space + HeaderText(h)
  {
    DateBytes(space, h);
    StateText(h);
    FixedDelta();
    NumsBytes(h.branches);
    NextBytes(h);
    hide Render, DatePieces, StatePieces, NumPieces, NumLines, NextPieces;
    var date := DatePieces(space, h);
    var state := date + StatePieces(h);
    var nums := state + BRANCHES + NumPieces(h.branches);
    assert "" + ("\tstate" + (if h.state.Some? then " " + h.state.value else "")) ==
           "\tstate" + (if h.state.Some? then " " + h.state.value else "");
    assert "\t" + "state" == "\tstate" && "" + ";\nbranches" == ";\nbranches" && "" + ";\nnext" == ";\nnext";
    hide Bytes;
    BytesPlus(date, StatePieces(h));
    BytesPlus(state, BRANCHES);
    BytesPlus(state + BRANCHES, NumPieces(h.branches));
    BytesPlus(nums, NEXT);
    BytesPlus(nums + NEXT, NextPieces(h));
    SixJoins(space, h.rev + "\ndate\t" + h.date + ";\tauthor " + h.author + ";", Bytes(StatePieces(h)), ";\nbranches",
        NumLines(h.branches), ";\nnext", Bytes(NextPieces(h)));
  }

  lemma {:induction false} SixJoins(s: string, a: string, b: string, c: string, d: string, e: string, f: string)
    ensures (s + a) + b + c + d + e + f == s + (a + b + c + d + e + f)
  {
    Join(s, a, b);
    Join(s, a + b, c);
    Join(s, a + b + c, d);
    Join(s, a + b + c + d, e);
    Join(s, a + b + c + d + e, f);
  }

  lemma {:induction false} HeadersBytes(space: string, hs: seq<Header>)
    ensures hs != [] ==> Bytes(HeadersPieces(space, hs)) == space + HeaderText(hs[0]) + HeadersText(hs[1..])
    ensures Bytes(HeadersPieces(space, [])) == ""
    decreases |hs|
  {
    if hs != [] {
      HeaderBytes(space, hs[0]);
      HeadersBytes("\n\n", hs[1..]);
      BytesPlus(HeaderPieces(space, hs[0]), HeadersPieces("\n\n", hs[1..]));
      hide Render, HeaderPieces, HeaderText;
    }
  }

  lemma {:induction false} BodyBytes(x: DeltaText)
    ensures Bytes(TextPieces(x)) == "\n\n\n" + x.rev + "\nlog\n@" + x.log + "@\ntext\n@" + x.text + "@"
  {
    LogText(x);
    BodyText(x.text);
    var body := [Piece("\n", Id("text")), Piece("\n", Str(x.text))];
    BytesPlus(LogPieces(x), body);
    hide Render, LogPieces;
    BodyJoins(x);
  }

  lemma BodyJoins(x: DeltaText)
    ensures "" + ("\n\n\n" + x.rev + "\n" + "log" + "\n@" + x.log + "@")
            + ("" + "\n" + "text" + "\n@" + x.text + "@")
            == "\n\n\n" + x.rev + "\nlog\n@" + x.log + "@\ntext\n@" + x.text + "@"
  {
  }

  lemma {:induction false} BodiesBytes(xs: seq<DeltaText>)
    ensures Bytes(TextsPieces(xs)) == BodiesText(xs)
  {
    if xs != [] {
      BodyBytes(xs[0]);
      BodiesBytes(xs[1..]);
      BytesPlus(TextPieces(xs[0]), TextsPieces(xs[1..]));
      hide Render, TextPieces;
    }
  }

  lemma {:induction false} DescBytes(desc: string)
    ensures Bytes(DescPieces(desc)) == "\n\n\ndesc\n@" + desc + "@"
  {
    DescText(desc);
    hide Render, DescPieces;
    assert "\n\n" + ("\ndesc\n@" + desc + "@") == "\n\n\ndesc\n@" + desc + "@";
  }

  /** A printed file, byte by byte. */
  lemma {:induction false} FileLayout(d: Doc)
    requires d.headers != []
    ensures Render(DocPieces(d), "\n") == FileText(d)
  {
    var a, h, e := AdminPieces(d.admin), HeadersPieces("\n\n\n", d.headers), DescPieces(d.desc);
    AdminBytes(d.admin);
    HeadersBytes("\n\n\n", d.headers);
    DescBytes(d.desc);
    BodiesBytes(d.texts);
    BytesPlus(a, h);
    BytesPlus(a + h, e);
    BytesPlus(a + h + e, TextsPieces(d.texts));
    RenderTail(DocPieces(d), "", "\n");
    hide Render, AdminPieces, HeadersPieces, DescPieces, TextsPieces, AdminText, HeaderText, BodiesText;
    var t, u := HeaderText(d.headers[0]), HeadersText(d.headers[1..]);
    assert "" + "\n" == "\n" && HeadersText(d.headers) == "\n\n" + t + u;
    assert "\n\n\n" + t + u == "\n" + ("\n\n" + t + u);
    Join(AdminText(d.admin), "\n", HeadersText(d.headers));
    Join(AdminText(d.admin) + "\n" + HeadersText(d.headers), "\n\n\ndesc\n@" + d.desc, "@");
    Join(AdminText(d.admin) + "\n" + HeadersText(d.headers), "\n\n\ndesc\n@", d.desc);
  }
}
