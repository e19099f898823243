/** Which white space the digest of an RCS file is fed, byte by byte. */
module Md5Blanks {
  import opened RcsLex
  import opened Md5Rcs
  import T = RcsText

  /** Bytes that are fed as they are outside of strings. */
  predicate Inked(s: string) {
    s != "" && forall i :: 0 <= i < |s| ==>
      s[i] !in {' ', '\t', '\n', '\r', 8 as char, 11 as char, 12 as char, '@'}
  }

  predicate Blank(w: string) {
    w != "" && forall i :: 0 <= i < |w| ==> w[i] in {' ', '\t', '\n', '\r', 8 as char, 11 as char, 12 as char}
  }

  lemma {:induction false} InkFed(x: Scan, a: string)
    requires Inked(a) && Between(x)
    ensures Run(x, a) == (Scan(Print, a[|a| - 1]), a)
  {
    OverPlain(x, a);
  }

  lemma {:induction false} BlankPassed(x: Scan, w: string)
    requires Blank(w) && !x.state.InString?
    ensures Run(x, w) == (Scan(White, Before(x)), "")
  {
    OverWhite(x, w);
  }

  /** Behind white space: one blank at most, whatever there was. */
  lemma {:induction false} InkBehind(l: char, b: string)
    requires Inked(b)
    ensures Run(Scan(White, l), b) ==
            (Scan(Print, b[|b| - 1]),
             (if l == '$' || l == ',' || l == ':' || l == ';' || l == '@'
                 || b[0] == '$' || b[0] == ',' || b[0] == ':' || b[0] == ';' || b[0] == '@' then "" else " ") + b)
  {
    InkFed(Scan(Print, l), b);
    LeadStep(l, b);
    hide Run;
  }

  /** Between two stretches of other bytes that white space parts, one blank is fed if
      and only if neither the byte before nor the byte behind is one of five. */
  lemma {:induction false} OneBlank(x: Scan, a: string, w: string, b: string)
    requires Between(x) && Inked(a) && Blank(w) && Inked(b)
    ensures var l, f := a[|a| - 1], b[0];
            Run(x, a + w + b) ==
            (Scan(Print, b[|b| - 1]),
             a + (if l == '$' || l == ',' || l == ':' || l == ';' || l == '@'
                     || f == '$' || f == ',' || f == ':' || f == ';' || f == '@' then "" else " ") + b)
  {
    hide Run, Inked, Blank;
    assert b != "" && a != "" by { NotEmpty(a); NotEmpty(b); }
    RunThree(x, a, w, b);
    InkFed(x, a);
    BlankPassed(Scan(Print, a[|a| - 1]), w);
    InkBehind(a[|a| - 1], b);
    assert a + "" == a;
    Regroup(a, "", b);
    Regroup(a, " ", b);
  }

  lemma NotEmpty(s: string)
    requires Inked(s)
    ensures s != ""
  {
  }

  /** Around strings: a blank only between two of them. */
  lemma {:induction false} StringBlanks(x: Scan, s: string, w: string, a: string)
    requires Between(x) && Doubled(s) && Blank(w) && Inked(a) && !x.state.Seen?
    ensures Run(x, "@" + s + "@" + w + a).1 == "@" + s + "@" + a
    ensures Run(x, "@" + s + "@" + w + "@").1 == "@" + s + "@ @"
    ensures Run(x, a + w + "@").1 == a + "@"
  {
    var quoted := "@" + s + "@";
    StringFed(x, s);
    hide Run, Inked, Blank, Doubled;
    assert a != "" by { NotEmpty(a); }
    RunThree(x, quoted, w, a);
    RunThree(x, quoted, w, "@");
    RunThree(x, a, w, "@");
    InkFed(x, a);
    BlankPassed(Run(x, quoted).0, w);
    BlankPassed(Scan(Print, a[|a| - 1]), w);
    InkBehind('@', a);
    QuoteStep(White, '@');
    QuoteStep(White, a[|a| - 1]);
    RunOne(Scan(White, '@'), '@');
    RunOne(Scan(White, a[|a| - 1]), '@');
    assert a[|a| - 1] != '@' by { LastInk(a); }
    assert quoted + "" == quoted && a + "" == a && "" + a == a && quoted + " @" == "@" + s + "@ @";
  }

  lemma LastInk(a: string)
    requires Inked(a)
    ensures a[|a| - 1] != '@'
  {
  }

  lemma {:induction false} StringFed(x: Scan, s: string)
    requires Between(x) && Doubled(s) && !x.state.Seen?
    ensures Run(x, "@" + s + "@").1 == "@" + s + "@" && Run(x, "@" + s + "@").0.state.Seen?
    ensures Before(Run(x, "@" + s + "@").0) == '@'
  {
    OverText(x, Str(s));
  }

  lemma {:induction false} WordIsInk(s: string)
    requires T.IsNum(s) || T.IsId(s)
    ensures Inked(s)
    ensures forall i :: 0 <= i < |s| ==> s[i] !in {'$', ',', ':', ';', '@'}
  {
  }

  /** A number or a name that the parser accepts is always parted from the next one by
      one blank. */
  lemma {:induction false} WordsParted(x: Scan, a: string, w: string, b: string)
    requires Between(x) && Blank(w)
    requires (T.IsNum(a) || T.IsId(a)) && (T.IsNum(b) || T.IsId(b))
    ensures Run(x, a + w + b).1 == a + " " + b
  {
    WordIsInk(a);
    WordIsInk(b);
    OneBlank(x, a, w, b);
    hide Run;
  }
}
