/** A revision tree written to a file and read back from its bytes. */
module RcsBytes {
  import opened Lines
  import C = CNumbers
  import opened EditScript
  import opened Reverse
  import opened RcsNum
  import opened RcsTree
  import opened RcsMeaning
  import opened RcsWalk
  import opened RcsFile
  import opened RcsImport
  import opened RcsRewrite
  import opened RcsUpdate
  import L = RcsLex
  import T = RcsText
  import P = RcsParse
  import D = RcsDisk
  import Q = DiffDoubled
  import Y = RcsLayout

  // ------------------------------------------------------ texts keep their quotes

  /** Logs and texts are kept with every quote doubled. */
  ghost predicate TreeDoubled(t: Tree) {
    forall r :: r in t.nodes ==> L.Doubled(t.nodes[r].log) && L.Doubled(t.nodes[r].text)
  }

  lemma {:induction false} DeltaTextDoubled(t: Tree, r: Rev, fuel: nat)
    requires TreeDoubled(t) && RcsMeaning.DeltaText(t, r, fuel).Some?
    ensures L.Doubled(RcsMeaning.DeltaText(t, r, fuel).value)
    decreases fuel
  {
    hide Apply, SplitLines, L.Doubled;
    var d := t.nodes[r];
    if d.diffbase.Some? {
      DeltaTextDoubled(t, d.diffbase.value, fuel - 1);
      Q.ApplyDoubled(d.text, RcsMeaning.DeltaText(t, d.diffbase.value, fuel - 1).value);
    }
  }

  lemma {:induction false} PutTextDoubled(t: Tree, r: Rev, prev: Option<Rev>, fuel: nat)
    requires TreeDoubled(t) && r in t.nodes && (prev.Some? ==> prev.value in t.nodes)
    requires RcsMeaning.PutText(t, r, prev, fuel).Some?
    ensures L.Doubled(RcsMeaning.PutText(t, r, prev, fuel).value)
  {
    hide Apply, SplitLines, Reversed;
    if t.nodes[r].diffbase != prev && (prev.None? || t.nodes[prev.value].diffbase == Some(r)) {
      DeltaTextDoubled(t, r, fuel);
      if prev.Some? {
        Q.ReversedDoubled(SplitLines(t.nodes[prev.value].text), RcsMeaning.DeltaText(t, r, fuel).value);
      }
    }
  }

  // ------------------------------------------------------------ records as printed

  function ShowAll(l: seq<Rev>): (s: seq<string>)
    ensures |s| == |l| && forall i :: 0 <= i < |l| ==> s[i] == Show(l[i])
  {
    if l == [] then [] else [Show(l[0])] + ShowAll(l[1..])
  }

  function ShowHeader(h: HeaderRec): T.Header {
    T.Header(Show(h.rev), h.date, h.author, h.state, ShowAll(h.branches),
             if h.next.Some? then Some(Show(h.next.value)) else None)
  }

  function ShowHeaders(hs: seq<HeaderRec>): (s: seq<T.Header>)
    ensures |s| == |hs| && forall i :: 0 <= i < |hs| ==> s[i] == ShowHeader(hs[i])
  {
    if hs == [] then [] else [ShowHeader(hs[0])] + ShowHeaders(hs[1..])
  }

  function ShowText(x: TextRec): T.DeltaText {
    T.DeltaText(Show(x.rev), x.log, x.text)
  }

  function ShowTexts(xs: seq<TextRec>): (s: seq<T.DeltaText>)
    ensures |s| == |xs| && forall i :: 0 <= i < |xs| ==> s[i] == ShowText(xs[i])
  {
    if xs == [] then [] else [ShowText(xs[0])] + ShowTexts(xs[1..])
  }

  /** The file that the two passes over a tree print, below the head and the fields
      of `a`. */
  function Printed(head: Rev, a: T.Admin, hs: seq<HeaderRec>, desc: string, xs: seq<TextRec>): T.Doc {
    T.Doc(a.(head := Show(head)), ShowHeaders(hs), desc, ShowTexts(xs))
  }

  /** A document that spells these records; the branches listed with a delta do not
      matter to the reader. */
  ghost predicate Spells(d: T.Doc, head: Rev, hs: seq<HeaderRec>, xs: seq<TextRec>) {
    && d.admin.head == Show(head) && |d.headers| == |hs| && |d.texts| == |xs|
    && (forall i :: 0 <= i < |hs| ==> d.headers[i].(branches := []) == ShowHeader(hs[i]).(branches := []))
    && (forall i :: 0 <= i < |xs| ==> d.texts[i] == ShowText(xs[i]))
  }

  // ------------------------------------------------------------------ printable

  lemma {:induction false} DigitsAre(s: string, rest: string)
    requires (forall i :: 0 <= i < |s| ==> C.IsDigit(s[i]) || s[i] == '.') && s != ""
    ensures T.IsNum(s)
  {
    forall i | 0 <= i < |s| ensures !L.Stops(s[i]) {
    }
  }

  lemma {:induction false} ShowChars(x: Rev)
    ensures forall i :: 0 <= i < |Show(x)| ==> C.IsDigit(Show(x)[i]) || Show(x)[i] == '.'
  {
    if |x| > 1 {
      ShowChars(x[1..]);
      var a, b := C.Digits(x[0]), Show(x[1..]);
      assert Show(x) == a + ("." + b);
    }
  }

  /** A printed revision number is one for the parser. */
  lemma {:induction false} ShowIsNum(x: Rev)
    requires x != []
    ensures T.IsNum(Show(x))
  {
    ShowChars(x);
    ShowParts(x);
    DigitsAre(Show(x), "");
  }

  /** Dates, authors and states that the lexer takes for numbers and names. */
  ghost predicate Lexical(t: Tree) {
    forall r :: r in t.nodes ==>
      var d := t.nodes[r];
      T.IsNum(d.date) && T.IsId(d.author) && (d.state.Some? ==> T.IsId(d.state.value))
  }

  lemma {:induction false} RecordRevs(t: Tree, r: Rev)
    requires Complete(t) && r in t.nodes && Listed(t, r)
    ensures var h := RecordOf(t, r);
            && h.rev != [] && (h.next.Some? ==> h.next.value != [])
            && forall i :: 0 <= i < |h.branches| ==> h.branches[i] != []
  {
    hide IndexOf;
    assert Placed(t, r);
    PlacedListed(t, r);
    FirstsPlaced(t, r);
    var h := RecordOf(t, r);
    ReversalElements(Firsts(t, BranchesOf(t, r)));
    forall i | 0 <= i < |h.branches| ensures h.branches[i] != [] {
      assert h.branches[i] in Reversal(Firsts(t, BranchesOf(t, r)));
      assert IsRev(h.branches[i]);
    }
    if h.next.Some? {
      ListedPlaced(t, r, h.next.value);
      PlacedListed(t, h.next.value);
    }
  }

  lemma {:induction false} HeaderGood(t: Tree, r: Rev)
    requires Complete(t) && Lexical(t) && r in t.nodes && Listed(t, r)
    ensures T.GoodHeader(ShowHeader(RecordOf(t, r)))
  {
    RecordRevs(t, r);
    var h := RecordOf(t, r);
    hide Complete, WellFormed, T.IsNum, T.IsId;
    ShowIsNum(h.rev);
    forall i | 0 <= i < |h.branches| ensures T.IsNum(ShowAll(h.branches)[i]) {
      ShowIsNum(h.branches[i]);
    }
    if h.next.Some? { ShowIsNum(h.next.value); }
  }

  lemma {:induction false} TextGood(t: Tree, x: TextRec, hs: seq<HeaderRec>, fuel: nat)
    requires TreeDoubled(t) && Written(t, x, fuel) && x.rev in HeaderRevs(hs) && x.rev != []
    ensures T.GoodText(ShowText(x)) && T.Known(ShowHeaders(hs), Show(x.rev))
  {
    PutTextDoubled(t, x.rev, Pred(t, x.rev), fuel);
    ShowIsNum(x.rev);
    var i :| 0 <= i < |hs| && HeaderRevs(hs)[i] == x.rev;
    assert ShowHeaders(hs)[i].rev == Show(x.rev);
  }

  /** What the two passes over a complete tree print can be read back. */
  lemma {:induction false} PrintedGood(t: Tree, a: T.Admin, hs: seq<HeaderRec>, desc: string, xs: seq<TextRec>,
      fuel: nat)
    requires HeadersOf(t, hs) && TextsOf(t, xs, fuel) && Lexical(t) && TreeDoubled(t)
    requires T.GoodAdmin(a.(head := Show(t.trunk[0]))) && L.Doubled(desc)
    ensures T.GoodDoc(Printed(t.trunk[0], a, hs, desc, xs))
  {
    SomeHeader(t, hs);
    hide HeadersOf, TextsOf, T.GoodAdmin, T.GoodHeader, T.GoodText, T.Known, L.Doubled, Lexical, TreeDoubled, Show;
    HeadersGood(t, hs);
    TextsGood(t, hs, xs, fuel);
  }

  lemma {:induction false} SomeHeader(t: Tree, hs: seq<HeaderRec>)
    requires HeadersOf(t, hs)
    ensures hs != [] && t.trunk != []
  {
    hide Visits, Listed, IsRev;
    assert t.trunk[0] in t.trunk;
    assert t.trunk[0] in HeaderRevs(hs);
  }

  lemma {:induction false} HeadersGood(t: Tree, hs: seq<HeaderRec>)
    requires HeadersOf(t, hs) && Lexical(t)
    ensures forall i :: 0 <= i < |hs| ==> T.GoodHeader(ShowHeaders(hs)[i])
  {
    hide WellFormed, T.GoodHeader, Visits, Listed, Lexical;
    forall i | 0 <= i < |hs| ensures T.GoodHeader(ShowHeaders(hs)[i]) {
      assert hs[i] in hs;
      HeaderGood(t, hs[i].rev);
    }
  }

  lemma {:induction false} TextsGood(t: Tree, hs: seq<HeaderRec>, xs: seq<TextRec>, fuel: nat)
    requires HeadersOf(t, hs) && TextsOf(t, xs, fuel) && TreeDoubled(t)
    ensures forall i :: 0 <= i < |xs| ==>
            T.GoodText(ShowTexts(xs)[i]) && T.Known(ShowHeaders(hs), ShowTexts(xs)[i].rev)
  {
    hide WellFormed, T.GoodText, T.Known, L.Doubled, Written, Visits, TreeDoubled;
    forall i | 0 <= i < |xs|
      ensures T.GoodText(ShowTexts(xs)[i]) && T.Known(ShowHeaders(hs), ShowTexts(xs)[i].rev)
    {
      assert xs[i] in xs;
      WrittenRev(t, xs[i], fuel);
      TextGood(t, xs[i], hs, fuel);
    }
  }

  lemma {:induction false} WrittenRev(t: Tree, x: TextRec, fuel: nat)
    requires Complete(t) && Written(t, x, fuel)
    ensures x.rev in t.nodes && x.rev != []
  {
  }

  // ------------------------------------------------------------- what is read back

  /** Two lists of records that differ in the branches only. */
  ghost predicate SameHeaders(hs: seq<HeaderRec>, ks: seq<HeaderRec>) {
    |hs| == |ks| && forall i :: 0 <= i < |hs| ==> hs[i].(branches := []) == ks[i].(branches := [])
  }

  lemma {:induction false} ImportSame(s: Tree, hs: seq<HeaderRec>, ks: seq<HeaderRec>)
    requires SameHeaders(hs, ks) && forall h :: h in hs ==> IsRev(h.rev)
    ensures forall h :: h in ks ==> IsRev(h.rev)
    ensures ImportAll(s, hs) == ImportAll(s, ks)
    decreases |hs|
  {
    forall h | h in ks ensures IsRev(h.rev) {
      var i :| 0 <= i < |ks| && ks[i] == h;
      assert hs[i] in hs;
    }
    if hs != [] {
      assert hs[0] in hs && ks[0] in ks;
      assert ImportHeader(s, hs[0]) == ImportHeader(s, ks[0]);
      ImportSame(ImportHeader(s, hs[0]), hs[1..], ks[1..]);
    }
  }

  lemma {:induction false} SpellsOnce(d: T.Doc, head: Rev, hs: seq<HeaderRec>, xs: seq<TextRec>,
                                      head2: Rev, ks: seq<HeaderRec>, ys: seq<TextRec>)
    requires Spells(d, head, hs, xs) && Spells(d, head2, ks, ys)
    ensures head == head2 && SameHeaders(hs, ks) && xs == ys
  {
    ShowInjective(head, head2);
    forall i | 0 <= i < |hs| ensures hs[i].(branches := []) == ks[i].(branches := []) {
      ShowInjective(hs[i].rev, ks[i].rev);
      assert ShowHeader(hs[i]).(branches := []) == ShowHeader(ks[i]).(branches := []);
      if hs[i].next.Some? { ShowInjective(hs[i].next.value, ks[i].next.value); }
    }
    forall i | 0 <= i < |xs| ensures xs[i] == ys[i] {
      ShowInjective(xs[i].rev, ys[i].rev);
    }
  }

  lemma {:induction false} PrintedSpells(head: Rev, a: T.Admin, hs: seq<HeaderRec>, desc: string, xs: seq<TextRec>)
    ensures var d := Printed(head, a, hs, desc, xs);
            Spells(d.(headers := P.ReadAll(d.headers)), head, hs, xs)
  {
    var d := Printed(head, a, hs, desc, xs);
    forall i | 0 <= i < |hs|
      ensures |P.ReadAll(d.headers)| == |hs| && P.ReadAll(d.headers)[i] == P.Read(ShowHeader(hs[i]))
    {
      P.ReadAllAt(d.headers, i);
    }
    ReadAllLength(d.headers);
  }

  lemma {:induction false} ReadAllLength(hs: seq<T.Header>)
    ensures |P.ReadAll(hs)| == |hs|
  {
    if hs != [] {
      ReadAllLength(hs[1..]);
    }
  }

  /** The bytes of the file that is written for a tree. */
  function FileBytes(head: Rev, a: T.Admin, hs: seq<HeaderRec>, desc: string, xs: seq<TextRec>): string {
    L.Render(T.DocPieces(Printed(head, a, hs, desc, xs)), "\n")
  }

  /** These are the bytes of the layout, and each header in it names the branches of
      its delta and the delta behind it by their numbers. */
  lemma {:induction false} PrintedNames(t: Tree, a: T.Admin, hs: seq<HeaderRec>, desc: string, xs: seq<TextRec>, i: nat)
    requires HeadersOf(t, hs) && i < |hs|
    ensures t.trunk != []
    ensures var d, h := Printed(t.trunk[0], a, hs, desc, xs), hs[i];
            && FileBytes(t.trunk[0], a, hs, desc, xs) == Y.FileText(d)
            && HeaderSays(t, h) && |d.headers| == |hs| && d.headers[i].rev == Show(h.rev)
            && d.headers[i].date == h.date && d.headers[i].author == h.author && d.headers[i].state == h.state
            && |d.headers[i].branches| == |h.branches|
            && (forall j :: 0 <= j < |h.branches| ==> d.headers[i].branches[j] == Show(h.branches[j]))
            && d.headers[i].next == if h.next.Some? then Some(Show(h.next.value)) else None
  {
    hide WellFormed, HeaderSays, RecordOf, Visits, Show, Y.FileText, T.DocPieces, L.Render;
    SomeHeader(t, hs);
    Y.FileLayout(Printed(t.trunk[0], a, hs, desc, xs));
    assert hs[i] in hs && Placed(t, hs[i].rev);
    RecordSays(t, hs[i].rev);
  }

  /** The tree `t2` has the deltas of `t` in the same lists; revision `r` has the same
      date, author, state and log, and the same text. */
  ghost predicate Recovered(t: Tree, t2: Tree, r: Rev, fuel: nat)
    requires WellFormed(t) && Placed(t, r)
  {
    && Complete(t2) && SameShape(t, t2) && r in t2.nodes
    && Same(t2.nodes[r], t.nodes[r]) && t2.nodes[r].log == t.nodes[r].log
    && RcsMeaning.DeltaText(t2, r, Depth(t, r) + 1) == RcsMeaning.DeltaText(t, r, fuel)
  }

  /** The bytes parse, and spell what was written. */
  lemma {:induction false} WrittenSpells(
      t: Tree, a: T.Admin, hs: seq<HeaderRec>, desc: string, xs: seq<TextRec>, fuel: nat)
    requires HeadersOf(t, hs) && TextsOf(t, xs, fuel)
    requires Lexical(t) && TreeDoubled(t) && T.GoodAdmin(a.(head := Show(t.trunk[0]))) && L.Doubled(desc)
    ensures var bytes := FileBytes(t.trunk[0], a, hs, desc, xs);
            var d := P.ParseFile(L.Tokens(bytes, 0).0, L.Tokens(bytes, 0).1);
            && d.Some? && d.value.admin == a.(head := Show(t.trunk[0])) && d.value.desc == desc
            && Spells(d.value, t.trunk[0], hs, xs)
  {
    var d := Printed(t.trunk[0], a, hs, desc, xs);
    PrintedGood(t, a, hs, desc, xs, fuel);
    PrintedSpells(t.trunk[0], a, hs, desc, xs);
    hide Lexical, TreeDoubled, T.GoodAdmin, T.GoodDoc, T.DocPieces, P.ParseFile, L.Tokens, L.Render, L.Doubled;
    D.FileReadsBack(d);
  }

  /** From a tree to bytes and back: the file that the two passes over a rewritable
      tree print parses, all its fields are read back, and whatever records it
      spells, the tree that they are imported into has the text of every revision. */
  lemma {:induction false} FileRoundTrip(
      t: Tree, a: T.Admin, hs: seq<HeaderRec>, desc: string, xs: seq<TextRec>, fuel: nat,
      head2: Rev, ks: seq<HeaderRec>, ys: seq<TextRec>, r: Rev)
    requires Rewritable(t, fuel) && HeadersOf(t, hs) && TextsOf(t, xs, fuel)
    requires Lexical(t) && TreeDoubled(t) && T.GoodAdmin(a.(head := Show(t.trunk[0]))) && L.Doubled(desc)
    ensures var bytes := FileBytes(t.trunk[0], a, hs, desc, xs);
            var d := P.ParseFile(L.Tokens(bytes, 0).0, L.Tokens(bytes, 0).1);
            && d.Some? && d.value.admin == a.(head := Show(t.trunk[0])) && d.value.desc == desc
            && Spells(d.value, t.trunk[0], hs, xs)
            && (Spells(d.value, head2, ks, ys) && r in t.nodes ==>
                  (forall h :: h in ks ==> IsRev(h.rev)) && Recovered(t, Reread(head2, ks, ys), r, fuel))
  {
    hide Lexical, TreeDoubled, T.GoodAdmin, P.ParseFile, L.Tokens, L.Doubled, FileBytes, Spells, Rewritable, HeadersOf,
         TextsOf, Recovered, Reread;
    SomeHeader(t, hs);
    WrittenSpells(t, a, hs, desc, xs, fuel);
    var bytes := FileBytes(t.trunk[0], a, hs, desc, xs);
    var d2 := P.ParseFile(L.Tokens(bytes, 0).0, L.Tokens(bytes, 0).1).value;
    if Spells(d2, head2, ks, ys) && r in t.nodes {
      SpellsOnce(d2, t.trunk[0], hs, xs, head2, ks, ys);
      ReadTwice(t, hs, xs, ks, fuel, r);
    }
  }

  lemma {:induction false} ReadTwice(t: Tree, hs: seq<HeaderRec>, xs: seq<TextRec>, ks: seq<HeaderRec>, fuel: nat,
      r: Rev)
    requires Rewritable(t, fuel) && HeadersOf(t, hs) && TextsOf(t, xs, fuel) && SameHeaders(hs, ks) && r in t.nodes
    ensures forall h :: h in ks ==> IsRev(h.rev)
    ensures Recovered(t, Reread(t.trunk[0], ks, xs), r, fuel)
  {
    hide HeadersOf, TextsOf, Rewritable, ImportAll, AddTexts, Recovered;
    PlacedThere(t, hs, r);
    ReadOnce(t, hs, xs, fuel, r);
    ImportSame(EMPTY, hs, ks);
  }

  lemma {:induction false} PlacedThere(t: Tree, hs: seq<HeaderRec>, r: Rev)
    requires HeadersOf(t, hs) && r in t.nodes
    ensures WellFormed(t) && Placed(t, r) && t.trunk != []
  {
  }

  lemma {:induction false} ReadOnce(t: Tree, hs: seq<HeaderRec>, xs: seq<TextRec>, fuel: nat, r: Rev)
    requires Rewritable(t, fuel) && HeadersOf(t, hs) && TextsOf(t, xs, fuel) && r in t.nodes
    requires WellFormed(t) && Placed(t, r)
    ensures forall h :: h in hs ==> IsRev(h.rev)
    ensures Recovered(t, Reread(t.trunk[0], hs, xs), r, fuel)
  {
    hide WellFormed, Pred, Linked, Listed, HeadersOf, TextsOf, RcsMeaning.DeltaText, Reread, SameShape, Same,
         Rewritten, IsRev;
    RewriteRoundTrip(t, hs, xs, fuel, r);
    ReadBack(t, hs, xs, fuel);
    var t2 := Reread(t.trunk[0], hs, xs);
    assert r in t2.nodes by { RereadHas(t, t2, fuel, r); }
  }

  lemma {:induction false} RereadHas(t: Tree, t2: Tree, fuel: nat, r: Rev)
    requires Complete(t) && Rewritten(t, t2, fuel) && r in t.nodes
    ensures r in t2.nodes
  {
  }
}
