/** The text of an RCS file: what it says, and how it is printed. */
module RcsText {
  import opened Lines
  import opened RcsLex

  datatype Expand = Default | KeyValue | KeyValueLocker | Key | Old | Binary | Value

  function EncodeExpand(e: Expand): string {
    match e
    case Default => "."
    case KeyValue => "kv"
    case KeyValueLocker => "kvl"
    case Key => "k"
    case Old => "o"
    case Binary => "b"
    case Value => "v"
  }

  /** A token's value as a C string. */
  function UpToNul(s: string): string {
    if s == "" || s[0] == '\0' then "" else [s[0]] + UpToNul(s[1..])
  }

  function DecodeExpand(text: string): Option<Expand> {
    var s := UpToNul(text);
    if s == "." then Some(Default)
    else if s == "kv" then Some(KeyValue)
    else if s == "kvl" then Some(KeyValueLocker)
    else if s == "k" then Some(Key)
    else if s == "o" then Some(Old)
    else if s == "b" then Some(Binary)
    else if s == "v" then Some(Value)
    else None
  }

  lemma {:induction false} ExpandReadsBack(e: Expand)
    ensures DecodeExpand(EncodeExpand(e)) == Some(e) && Doubled(EncodeExpand(e))
  {
    var s := EncodeExpand(e);
    NoNul(s);
    assert s[1..] == "" || s[1..] == "v" || s[1..] == "vl";
    assert "v"[1..] == "" && "vl"[1..] == "l" && "l"[1..] == "";
  }

  lemma {:induction false} NoNul(s: string)
    requires forall i :: 0 <= i < |s| ==> s[i] != '\0'
    ensures UpToNul(s) == s
  {
    if s != "" {
      NoNul(s[1..]);
    }
  }

  datatype Tag = Tag(name: string, rev: string)

  datatype Admin = Admin(
    head: string, branch: Option<string>, tags: seq<Tag>, strict: bool,
    comment: Option<string>, expand: Expand)

  datatype Header = Header(
    rev: string, date: string, author: string, state: Option<string>, branches: seq<string>, next: Option<string>)

  datatype DeltaText = DeltaText(rev: string, log: string, text: string)

  datatype Doc = Doc(admin: Admin, headers: seq<Header>, desc: string, texts: seq<DeltaText>)

  // --------------------------------------------------------------- valid tokens

  predicate IsDigit(c: char) { '0' <= c <= '9' }

  predicate IsPrint(c: char) { 32 <= c as int < 127 }

  /** The check for revision numbers and dates. */
  predicate ValidNum(s: string) {
    forall i :: 0 <= i < |s| ==> IsDigit(s[i]) || s[i] == '.'
  }

  /** The check for names: printable, nothing special, and not just a number. */
  predicate ValidId(s: string) {
    && (forall i :: 0 <= i < |s| ==> s[i] !in {'$', ',', ':', ';', '@'} && IsPrint(s[i]))
    && exists i :: 0 <= i < |s| && !IsDigit(s[i]) && s[i] != '.'
  }

  method ValidateNum(t: Tok) returns (ok: bool)
    ensures ok <==> t.Id? && ValidNum(t.text)
  {
    if !t.Id? {
      return false;
    }
    var i := 0;
    while i < |t.text|
      invariant i <= |t.text| && forall k :: 0 <= k < i ==> IsDigit(t.text[k]) || t.text[k] == '.'
    {
      if !IsDigit(t.text[i]) && t.text[i] != '.' {
        return false;
      }
      i := i + 1;
    }
    ok := true;
  }

  method ValidateId(t: Tok) returns (ok: bool)
    ensures ok <==> t.Id? && ValidId(t.text)
  {
    if !t.Id? {
      return false;
    }
    var i, idchar := 0, false;
    while i < |t.text|
      invariant i <= |t.text|
      invariant forall k :: 0 <= k < i ==> t.text[k] !in {'$', ',', ':', ';', '@'} && IsPrint(t.text[k])
      invariant idchar <==> exists k :: 0 <= k < i && !IsDigit(t.text[k]) && t.text[k] != '.'
    {
      var c := t.text[i];
      if c in {'$', ',', ':', ';', '@'} || !IsPrint(c) {
        return false;
      }
      if !idchar && !IsDigit(c) && c != '.' {
        idchar := true;
      }
      i := i + 1;
    }
    ok := idchar;
  }

  /** A number, or a name, as the lexer delivers it. */
  predicate IsNum(s: string) { IsSymbol(s) && ValidNum(s) }

  predicate IsId(s: string) { IsSymbol(s) && ValidId(s) }

  /** What can be printed and read back. */
  predicate GoodAdmin(a: Admin) {
    && IsNum(a.head) && (a.branch.Some? ==> IsNum(a.branch.value))
    && (forall i :: 0 <= i < |a.tags| ==> IsSymbol(a.tags[i].name) && IsNum(a.tags[i].rev))
    && (a.comment.Some? ==> Doubled(a.comment.value))
  }

  predicate GoodHeader(h: Header) {
    && IsNum(h.rev) && IsNum(h.date) && IsId(h.author) && (h.state.Some? ==> IsId(h.state.value))
    && (forall i :: 0 <= i < |h.branches| ==> IsNum(h.branches[i])) && (h.next.Some? ==> IsNum(h.next.value))
  }

  predicate GoodText(x: DeltaText) {
    IsNum(x.rev) && Doubled(x.log) && Doubled(x.text)
  }

  predicate GoodDoc(d: Doc) {
    && GoodAdmin(d.admin) && d.headers != [] && Doubled(d.desc)
    && (forall i :: 0 <= i < |d.headers| ==> GoodHeader(d.headers[i]))
    && (forall i :: 0 <= i < |d.texts| ==> GoodText(d.texts[i]) && Known(d.headers, d.texts[i].rev))
  }

  /** A delta is known by its header or, as a placeholder, as the next of another. */
  predicate Known(hs: seq<Header>, rev: string) {
    exists i :: 0 <= i < |hs| && (hs[i].rev == rev || hs[i].next == Some(rev))
  }

  // ------------------------------------------------------------ a file in pieces

  /** A word and a value, ended by a semicolon. */
  function Field(space: string, word: string, part: string, value: Tok): seq<Piece> {
    [Piece(space, Id(word)), Piece(part, value), Piece("", Semi)]
  }

  function BranchPieces(a: Admin): seq<Piece> {
    if a.branch.Some? then Field("\n", "branch", "\t", Id(a.branch.value)) else []
  }

  const ACCESS := [Piece("\n", Id("access")), Piece("", Semi), Piece("\n", Id("symbols"))]

  const LOCKS := [Piece("", Semi), Piece("\n", Id("locks")), Piece("", Semi)]

  function OneTag(t: Tag): seq<Piece> {
    [Piece("\n\t", Id(t.name)), Piece("", Colon), Piece("", Id(t.rev))]
  }

  function TagPieces(tags: seq<Tag>): seq<Piece> {
    if tags == [] then [] else OneTag(tags[0]) + TagPieces(tags[1..])
  }

  function StrictPieces(a: Admin): seq<Piece> {
    if a.strict then [Piece(" ", Id("strict")), Piece("", Semi)] else []
  }

  function CommentPieces(a: Admin): seq<Piece> {
    if a.comment.Some? then Field("\n", "comment", "\t", Str(a.comment.value)) else []
  }

  function ExpandPieces(a: Admin): seq<Piece> {
    if a.expand != Default then Field("\n", "expand", "\t", Str(EncodeExpand(a.expand))) else []
  }

  function AdminPieces(a: Admin): seq<Piece> {
    Field("", "head", "\t", Id(a.head)) + BranchPieces(a) + ACCESS + TagPieces(a.tags) + LOCKS +
    StrictPieces(a) + CommentPieces(a) + ExpandPieces(a)
  }

  function NumPieces(nums: seq<string>): seq<Piece> {
    if nums == [] then [] else [Piece("\n\t", Id(nums[0]))] + NumPieces(nums[1..])
  }

  /** A delta's number, date and author; `space` is what parts it from what comes
      before. */
  function DatePieces(space: string, h: Header): seq<Piece> {
    [Piece(space, Id(h.rev))] + Field("\n", "date", "\t", Id(h.date)) + Field("\t", "author", " ", Id(h.author))
  }

  function StatePieces(h: Header): seq<Piece> {
    [Piece("\t", Id("state"))] + (if h.state.Some? then [Piece(" ", Id(h.state.value))] else [])
  }

  const BRANCHES := [Piece("", Semi), Piece("\n", Id("branches"))]

  const NEXT := [Piece("", Semi), Piece("\n", Id("next"))]

  function NextPieces(h: Header): seq<Piece> {
    if h.next.Some? then [Piece("\t", Id(h.next.value)), Piece("", Semi)] else [Piece("\t", Semi)]
  }

  function HeaderPieces(space: string, h: Header): seq<Piece> {
    DatePieces(space, h) + StatePieces(h) + BRANCHES + NumPieces(h.branches) + NEXT + NextPieces(h)
  }

  function HeadersPieces(space: string, hs: seq<Header>): seq<Piece>
    decreases |hs|
  {
    if hs == [] then [] else HeaderPieces(space, hs[0]) + HeadersPieces("\n\n", hs[1..])
  }

  function DescPieces(desc: string): seq<Piece> {
    [Piece("\n\n\n", Id("desc")), Piece("\n", Str(desc))]
  }

  function LogPieces(x: DeltaText): seq<Piece> {
    [Piece("\n\n\n", Id(x.rev)), Piece("\n", Id("log")), Piece("\n", Str(x.log))]
  }

  function TextPieces(x: DeltaText): seq<Piece> {
    LogPieces(x) + [Piece("\n", Id("text")), Piece("\n", Str(x.text))]
  }

  function TextsPieces(xs: seq<DeltaText>): seq<Piece> {
    if xs == [] then [] else TextPieces(xs[0]) + TextsPieces(xs[1..])
  }

  function DocPieces(d: Doc): seq<Piece> {
    AdminPieces(d.admin) + HeadersPieces("\n\n\n", d.headers) + DescPieces(d.desc) + TextsPieces(d.texts)
  }

  // ------------------------------------------------------------------- printing

  lemma {:induction false} RenderPlus(a: seq<Piece>, b: seq<Piece>, tail: string)
    ensures Render(a + b, tail) == Render(a, Render(b, tail))
  {
    if a == [] {
      assert a + b == b;
    } else {
      assert (a + b)[1..] == a[1..] + b;
      RenderPlus(a[1..], b, tail);
    }
  }

  lemma {:induction false} RenderTail(a: seq<Piece>, t: string, x: string)
    ensures Render(a, t) + x == Render(a, t + x)
  {
    if a != [] {
      RenderTail(a[1..], t, x);
      var p := a[0].space + Text(a[0].tok);
      assert p + Render(a[1..], t) + x == p + (Render(a[1..], t) + x);
    }
  }
}
