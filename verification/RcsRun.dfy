/** Any number of updates to an RCS file and of rewrites of it, in any order. */
module RcsRun {
  import opened Lines
  import opened EditScript
  import opened Reverse
  import opened RcsNum
  import opened RcsTree
  import opened RcsMeaning
  import opened RcsFile
  import opened RcsImport
  import opened RcsRewrite
  import opened RcsUpdate
  import L = RcsLex
  import T = RcsText
  import P = RcsParse
  import B = RcsBytes

  /** A delta that the server sends: its number, date, author, diff base and script. */
  datatype Update = Update(rev: Rev, date: string, author: string, base: Rev, text: string)

  /** What happens to a file: a delta is added, or it is written out, with the head's
      fields `a`, the records `hs` and `xs` of the two passes and the description
      `desc`, and the file is read again as the records `ks` and `ys`. */
  datatype Work =
    | Add(u: Update)
    | Rewrite(a: T.Admin, hs: seq<HeaderRec>, desc: string, xs: seq<TextRec>,
              head: Rev, ks: seq<HeaderRec>, ys: seq<TextRec>)

  /** A new head of the trunk, as a script against the old head that can be turned
      round, or a new tip of a branch, as a script against what comes before it. */
  ghost predicate Allowed(t: Tree, u: Update) {
    var fuel := Enough(t);
    && IsRev(u.rev) && u.rev !in t.nodes && t.trunk != [] && u.base in t.nodes
    && T.IsNum(u.date) && T.IsId(u.author) && L.Doubled(u.text)
    && DeltaText(t, u.base, fuel).Some?
    && Apply(SplitLines(u.text), SplitLines(DeltaText(t, u.base, fuel).value), false).Some?
    && if IsTrunk(u.rev) then
         && u.base == t.trunk[0] && Lex(u.rev, t.trunk[0]) >= 0
         && Turnable(u.text, DeltaText(t, u.base, fuel).value)
         && Separated(ScriptHunks(SplitLines(u.text)))
       else
         var l := DeltasOf(t, Prefix(u.rev));
         && Prefix(Prefix(u.rev)) in t.nodes && (forall x :: x in l ==> Lex(u.rev, x) >= 0)
         && u.base == (if l == [] then Prefix(Prefix(u.rev)) else l[|l| - 1])
  }

  function Grown(t: Tree, u: Update): Tree
    requires IsRev(u.rev) && u.rev !in t.nodes
  {
    Added(t, u.rev, u.date, u.author, u.base, u.text)
  }

  /** The records are those of the tree, and what is read from the bytes that they
      are printed as is spelt by the records read. */
  ghost predicate Rewrites(t: Tree, w: Work)
    requires w.Rewrite?
  {
    && HeadersOf(t, w.hs) && TextsOf(t, w.xs, Enough(t))
    && T.GoodAdmin(w.a.(head := Show(t.trunk[0]))) && L.Doubled(w.desc)
    && SpelltBy(B.FileBytes(t.trunk[0], w.a, w.hs, w.desc, w.xs), w.head, w.ks, w.ys)
  }

  ghost predicate SpelltBy(bytes: string, head: Rev, ks: seq<HeaderRec>, ys: seq<TextRec>) {
    var d := P.ParseFile(L.Tokens(bytes, 0).0, L.Tokens(bytes, 0).1);
    d.Some? && B.Spells(d.value, head, ks, ys) && forall h :: h in ks ==> IsRev(h.rev)
  }

  /** Updates and rewrites each of which may happen when its turn comes. */
  ghost predicate Run(t: Tree, ws: seq<Work>, s: Tree)
    decreases |ws|
  {
    if ws == [] then s == t
    else
      match ws[0]
      case Add(u) => Allowed(t, u) && Run(Grown(t, u), ws[1..], s)
      case Rewrite(_, _, _, _, head, ks, ys) => Rewrites(t, ws[0]) && Run(Reread(head, ks, ys), ws[1..], s)
  }

  /** The state of a file that updates and rewrites keep. */
  ghost predicate Sound(t: Tree) {
    Rewritable(t, Enough(t)) && B.Lexical(t) && B.TreeDoubled(t)
  }

  /** Every revision of `t` is in `s`, with the same text. */
  ghost predicate Keeps(t: Tree, s: Tree) {
    forall r :: r in t.nodes ==> r in s.nodes && DeltaText(s, r, Enough(s)) == DeltaText(t, r, Enough(t))
  }

  // ----------------------------------------------------------------- one update

  lemma {:induction false} LinkedEnough(t: Tree, r: Rev, fuel: nat)
    requires r in t.nodes && Listed(t, r) && Pred(t, r).Some? && Pred(t, r).value in t.nodes && Linked(t, r, fuel)
    ensures Linked(t, r, Enough(t))
  {
    hide Pred, Listed, Turnable, Separated, DeltaText, Enough;
    if t.nodes[r].diffbase != Pred(t, r) {
      FuelEnough(t, r, fuel);
    }
  }

  lemma {:induction false} RewritableEnough(t: Tree, fuel: nat)
    requires Rewritable(t, fuel)
    ensures Rewritable(t, Enough(t))
    ensures forall r :: r in t.nodes ==> DeltaText(t, r, Enough(t)) == DeltaText(t, r, fuel)
  {
    hide Complete, Pred, Listed, Linked, DeltaText, Enough;
    forall r | r in t.nodes
      ensures DeltaText(t, r, Enough(t)) == DeltaText(t, r, fuel)
      ensures Pred(t, r).Some? ==> Linked(t, r, Enough(t))
    {
      FuelEnough(t, r, fuel);
      if Pred(t, r).Some? { LinkedEnough(t, r, fuel); }
    }
  }

  lemma {:induction false} OneUpdate(t: Tree, u: Update, fuel: nat)
    requires Rewritable(t, fuel) && Allowed(t, u) && fuel == Enough(t)
    ensures var s := Grown(t, u);
            && Rewritable(s, fuel + 1) && Extends(s, t) && u.rev in s.nodes
            && s.nodes == t.nodes[u.rev := Delta(u.date, u.author, None, "", u.text, Some(u.base), false)]
            && DeltaText(s, u.rev, fuel + 1)
               == Apply(SplitLines(u.text), SplitLines(DeltaText(t, u.base, fuel).value), false)
  {
    hide Rewritable, Turnable, Separated, SplitLines, ScriptHunks, Apply, DeltaText, Lex, Enough, T.IsNum, T.IsId,
         L.Doubled, Complete, Extends, Insert;
    RewritableHas(t, fuel);
    AddedFacts(t, u.rev, u.date, u.author, u.base, u.text);
    if IsTrunk(u.rev) {
      NewHead(t, u.rev, u.date, u.author, u.text, fuel);
    } else {
      NewTip(t, u.rev, u.date, u.author, u.base, u.text, fuel);
    }
  }

  /** A tree that is extended keeps its texts. */
  lemma {:induction false} GrownKeeps(t: Tree, s: Tree, fuel: nat)
    requires Rewritable(t, fuel) && Rewritable(s, fuel + 1) && Extends(s, t) && fuel == Enough(t)
    ensures Rewritable(s, Enough(s)) && Keeps(t, s)
    ensures forall r :: r in s.nodes ==> DeltaText(s, r, Enough(s)) == DeltaText(s, r, fuel + 1)
  {
    hide Rewritable, DeltaText, Enough;
    RewritableEnough(s, fuel + 1);
    forall r | r in t.nodes ensures r in s.nodes && DeltaText(s, r, Enough(s)) == DeltaText(t, r, fuel) {
      TextThere(t, r, fuel);
      TextKept(t, s, r, fuel, fuel + 1);
    }
  }

  lemma {:induction false} RewritableHas(t: Tree, fuel: nat)
    requires Rewritable(t, fuel)
    ensures Complete(t)
  {
  }

  lemma {:induction false} TextThere(t: Tree, r: Rev, fuel: nat)
    requires Rewritable(t, fuel) && r in t.nodes
    ensures DeltaText(t, r, fuel).Some?
  {
  }

  /** An update keeps the texts there are, and the new revision has the text that
      the server's script makes of its base. */
  lemma {:induction false} AddSound(t: Tree, u: Update)
    requires Sound(t) && Allowed(t, u)
    ensures Sound(Grown(t, u)) && Keeps(t, Grown(t, u)) && u.rev in Grown(t, u).nodes
    ensures DeltaText(Grown(t, u), u.rev, Enough(Grown(t, u)))
            == Apply(SplitLines(u.text), SplitLines(DeltaText(t, u.base, Enough(t)).value), false)
  {
    hide Rewritable, Keeps, Extends, Turnable, Separated, SplitLines, Apply, DeltaText, Grown, Complete, Pred, Listed,
         B.Lexical, B.TreeDoubled, Lex, T.IsNum, T.IsId, L.Doubled, Enough;
    OneUpdate(t, u, Enough(t));
    GrownKeeps(t, Grown(t, u), Enough(t));
    NewDoubled(t, Grown(t, u), u);
  }

  lemma {:induction false} NewDoubled(t: Tree, s: Tree, u: Update)
    requires B.Lexical(t) && B.TreeDoubled(t) && T.IsNum(u.date) && T.IsId(u.author) && L.Doubled(u.text)
    requires s.nodes == t.nodes[u.rev := Delta(u.date, u.author, None, "", u.text, Some(u.base), false)]
    ensures B.Lexical(s) && B.TreeDoubled(s)
  {
    assert L.Doubled("");
    hide T.IsNum, T.IsId, L.Doubled;
  }

  // ---------------------------------------------------------------- one rewrite

  lemma {:induction false} TextBack(t: Tree, t2: Tree, r: Rev, fuel: nat)
    requires Rewritable(t, fuel) && Rewritten(t, t2, fuel) && r in t.nodes
    ensures DeltaText(t2, r, Enough(t2)).Some? && DeltaText(t2, r, Enough(t2)) == DeltaText(t, r, fuel)
  {
    hide WellFormed, Pred, Listed, Linked, PutText, DeltaText, Enough;
    RewriteKeepsTexts(t, t2, r, fuel);
    FuelEnough(t2, r, Depth(t, r) + 1);
  }

  /** A file read back has the predecessors for diff bases, so that it can be written
      again as it is. */
  lemma {:induction false} BackRewritable(t: Tree, t2: Tree, fuel: nat)
    requires Rewritable(t, fuel) && Rewritten(t, t2, fuel) && Complete(t2) && SameShape(t, t2)
    ensures Rewritable(t2, Enough(t2))
    ensures forall r :: r in t.nodes ==> r in t2.nodes && DeltaText(t2, r, Enough(t2)) == DeltaText(t, r, fuel)
  {
    hide Rewritable, WellFormed, Pred, Listed, PutText, DeltaText, Enough, Placed, SameShape;
    RewritableHas(t, fuel);
    forall r | r in t2.nodes
      ensures r in t.nodes && Listed(t2, r) && DeltaText(t2, r, Enough(t2)).Some?
      ensures DeltaText(t2, r, Enough(t2)) == DeltaText(t, r, fuel)
      ensures Pred(t2, r).Some? ==> Pred(t2, r).value in t2.nodes && Linked(t2, r, Enough(t2))
    {
      BaseIsPred(t, t2, r, fuel);
      SameShapePred(t, t2, r);
      TextBack(t, t2, r, fuel);
    }
    MakeRewritable(t2, Enough(t2));
  }

  lemma {:induction false} MakeRewritable(t: Tree, fuel: nat)
    requires Complete(t)
    requires forall r :: r in t.nodes ==> Listed(t, r) && DeltaText(t, r, fuel).Some?
    requires forall r :: r in t.nodes && Pred(t, r).Some? ==> Pred(t, r).value in t.nodes && Linked(t, r, fuel)
    ensures Rewritable(t, fuel)
  {
  }

  lemma {:induction false} BackDoubled(t: Tree, t2: Tree, fuel: nat)
    requires B.TreeDoubled(t) && B.Lexical(t) && Complete(t) && Rewritten(t, t2, fuel)
    requires forall r :: r in t.nodes ==> Same(t2.nodes[r], t.nodes[r]) && t2.nodes[r].log == t.nodes[r].log
    ensures B.TreeDoubled(t2) && B.Lexical(t2)
  {
    hide WellFormed, Pred, Listed, PutText, Placed, L.Doubled, T.IsNum, T.IsId;
    forall r | r in t2.nodes ensures L.Doubled(t2.nodes[r].log) && L.Doubled(t2.nodes[r].text) {
      B.PutTextDoubled(t, r, Pred(t, r), fuel);
    }
  }

  lemma {:induction false} RewriteSound(t: Tree, w: Work)
    requires Sound(t) && w.Rewrite? && Rewrites(t, w) && forall h :: h in w.ks ==> IsRev(h.rev)
    ensures Sound(Reread(w.head, w.ks, w.ys)) && Keeps(t, Reread(w.head, w.ks, w.ys))
  {
    hide Rewritable, HeadersOf, TextsOf, Reread, Rewritten, SameShape, Complete, Enough, DeltaText, IsRev, Same,
         B.Lexical, B.TreeDoubled, SpelltBy;
    RewritableHas(t, Enough(t));
    ReadBack(t, w.hs, w.xs, Enough(t));
    ReadAsWritten(t, w);
    var t2 := Reread(w.head, w.ks, w.ys);
    BackRewritable(t, t2, Enough(t));
    BackDoubled(t, t2, Enough(t));
  }

  /** The records that are read are those written, up to the branches they list. */
  lemma {:induction false} ReadAsWritten(t: Tree, w: Work)
    requires Sound(t) && w.Rewrite? && Rewrites(t, w) && forall h :: h in w.ks ==> IsRev(h.rev)
    requires forall h :: h in w.hs ==> IsRev(h.rev)
    ensures t.trunk != [] && Reread(w.head, w.ks, w.ys) == Reread(t.trunk[0], w.hs, w.xs)
  {
    hide Rewritable, HeadersOf, TextsOf, ImportAll, AddTexts, Enough, DeltaText, IsRev, B.Lexical, B.TreeDoubled,
         B.Spells, P.ParseFile, L.Tokens, B.FileBytes, T.GoodAdmin, L.Doubled;
    B.SomeHeader(t, w.hs);
    B.WrittenSpells(t, w.a, w.hs, w.desc, w.xs, Enough(t));
    var d := P.ParseFile(L.Tokens(B.FileBytes(t.trunk[0], w.a, w.hs, w.desc, w.xs), 0).0,
                         L.Tokens(B.FileBytes(t.trunk[0], w.a, w.hs, w.desc, w.xs), 0).1).value;
    B.SpellsOnce(d, t.trunk[0], w.hs, w.xs, w.head, w.ks, w.ys);
    B.ImportSame(EMPTY, w.hs, w.ks);
  }

  // ----------------------------------------------------------------------- runs

  lemma {:induction false} KeepsOn(t: Tree, t1: Tree, s: Tree)
    requires Keeps(t, t1) && Keeps(t1, s)
    ensures Keeps(t, s)
  {
    hide DeltaText;
  }

  lemma {:induction false} KeepsSame(t: Tree)
    ensures Keeps(t, t)
  {
  }

  lemma {:induction false} RunNone(t: Tree, s: Tree)
    requires Run(t, [], s)
    ensures s == t
  {
  }

  /** The first thing that happens. */
  lemma {:induction false} RunFirst(t: Tree, ws: seq<Work>, s: Tree) returns (t1: Tree)
    requires Run(t, ws, s) && ws != [] && Sound(t)
    ensures Sound(t1) && Keeps(t, t1) && Run(t1, ws[1..], s)
  {
    hide Sound, Allowed, Rewrites, Keeps, Grown, Reread, IsRev;
    match ws[0]
    case Add(u) =>
      AllowedNew(t, u);
      t1 := Grown(t, u);
      AddSound(t, u);
    case Rewrite(_, _, _, _, head, ks, ys) =>
      RewritesRevs(t, ws[0]);
      t1 := Reread(head, ks, ys);
      RewriteSound(t, ws[0]);
  }

  lemma {:induction false} AllowedNew(t: Tree, u: Update)
    requires Allowed(t, u)
    ensures IsRev(u.rev) && u.rev !in t.nodes
  {
  }

  lemma {:induction false} RewritesRevs(t: Tree, w: Work)
    requires w.Rewrite? && Rewrites(t, w)
    ensures forall h :: h in w.ks ==> IsRev(h.rev)
  {
    hide HeadersOf, TextsOf, B.Spells, P.ParseFile, L.Tokens, B.FileBytes, T.GoodAdmin, L.Doubled;
  }

  /** After any number of updates and rewrites every revision that the file had has
      the text it had; the file can be rewritten, and the chains of diff bases end. */
  lemma {:induction false} RunKeeps(t: Tree, ws: seq<Work>, s: Tree)
    requires Sound(t) && Run(t, ws, s)
    ensures Sound(s) && Keeps(t, s)
    ensures forall r :: r in s.nodes ==> Grounded(s, r, Enough(s))
    decreases |ws|
  {
    hide Sound, Keeps, Run, Grounded, Enough;
    if ws == [] {
      RunNone(t, s);
      KeepsSame(t);
    } else {
      var t1 := RunFirst(t, ws, s);
      RunKeeps(t1, ws[1..], s);
      KeepsOn(t, t1, s);
    }
    forall r | r in s.nodes ensures Grounded(s, r, Enough(s)) {
      assert DeltaText(s, r, Enough(s)).Some? by { SoundHas(s); TextThere(s, r, Enough(s)); }
      TextGrounded(s, r, Enough(s));
    }
  }

  lemma {:induction false} SoundHas(t: Tree)
    requires Sound(t)
    ensures Rewritable(t, Enough(t)) && B.Lexical(t) && B.TreeDoubled(t)
  {
  }

  lemma {:induction false} TextGrounded(t: Tree, r: Rev, fuel: nat)
    requires DeltaText(t, r, fuel).Some?
    ensures Grounded(t, r, fuel)
    decreases fuel
  {
    hide Apply, SplitLines;
    var d := t.nodes[r];
    if d.diffbase.Some? {
      TextGrounded(t, d.diffbase.value, fuel - 1);
    }
  }

  /** Writing the file after any number of updates and rewrites, and reading its
      bytes: they parse, and every revision has its text, in particular every old one
      the text it had at the start. */
  lemma {:induction false} RunRoundTrip(t: Tree, ws: seq<Work>, s: Tree, w: Work, r: Rev)
    requires Sound(t) && Run(t, ws, s) && w.Rewrite? && r in s.nodes
    requires HeadersOf(s, w.hs) && TextsOf(s, w.xs, Enough(s))
    requires T.GoodAdmin(w.a.(head := Show(s.trunk[0]))) && L.Doubled(w.desc)
    ensures var bytes := B.FileBytes(s.trunk[0], w.a, w.hs, w.desc, w.xs);
            var d := P.ParseFile(L.Tokens(bytes, 0).0, L.Tokens(bytes, 0).1);
            && d.Some? && d.value.admin == w.a.(head := Show(s.trunk[0])) && d.value.desc == w.desc
            && (B.Spells(d.value, w.head, w.ks, w.ys) ==>
                  && (forall h :: h in w.ks ==> IsRev(h.rev))
                  && var s2 := Reread(w.head, w.ks, w.ys);
                     && Sound(s2) && r in s2.nodes && DeltaText(s2, r, Enough(s2)) == DeltaText(s, r, Enough(s))
                     && (r in t.nodes ==> DeltaText(s2, r, Enough(s2)) == DeltaText(t, r, Enough(t))))
  {
    hide Sound, Keeps, Run, HeadersOf, TextsOf, Grounded, Enough, Reread, DeltaText, B.Recovered, B.Spells, IsRev,
         P.ParseFile, L.Tokens, B.FileBytes, T.GoodAdmin, L.Doubled, Rewritable, B.Lexical, B.TreeDoubled;
    RunKeeps(t, ws, s);
    SoundHas(s);
    B.SomeHeader(s, w.hs);
    B.FileRoundTrip(s, w.a, w.hs, w.desc, w.xs, Enough(s), w.head, w.ks, w.ys, r);
    var bytes := B.FileBytes(s.trunk[0], w.a, w.hs, w.desc, w.xs);
    var d := P.ParseFile(L.Tokens(bytes, 0).0, L.Tokens(bytes, 0).1);
    if B.Spells(d.value, w.head, w.ks, w.ys) {
      assert Rewrites(s, w);
      RewriteSound(s, w);
      KeepsAt(s, Reread(w.head, w.ks, w.ys), r);
      if r in t.nodes { KeepsAt(t, s, r); }
    }
  }

  lemma {:induction false} KeepsAt(t: Tree, s: Tree, r: Rev)
    requires Keeps(t, s) && r in t.nodes
    ensures r in s.nodes && DeltaText(s, r, Enough(s)) == DeltaText(t, r, Enough(t))
  {
  }
}
