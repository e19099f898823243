/** How patterns are spelt: for every list of items there are patterns that mean it. */
module FnmatchForms {
  import opened Lines
  import opened Fnmatch

  /** What means something else than itself: outside of brackets, and in them. */
  const SIGNS: set<char> := {'?', '*', '[', '\\'}
  const BRACKET_SIGNS: set<char> := {'\\', ']', '-', '!', '^'}

  /** A character is quoted if it has to be, or if it is in `quote`. */
  function SpellChar(c: char, signs: set<char>, quote: set<char>): string {
    if c in signs || c in quote then "\\" + [c] else [c]
  }

  function SpellRange(r: (char, char), quote: set<char>): string {
    var lo, hi := SpellChar(r.0, BRACKET_SIGNS, quote), SpellChar(r.1, BRACKET_SIGNS, quote);
    if r.0 == r.1 then lo else lo + "-" + hi
  }

  function SpellRanges(rs: seq<(char, char)>, quote: set<char>): string {
    if rs == [] then "" else SpellRange(rs[0], quote) + SpellRanges(rs[1..], quote)
  }

  /** An item; `bar` is what negates a bracket. */
  function SpellOne(x: Item, bar: char, quote: set<char>): string
    requires !x.Unclosed?
  {
    match x
    case Lit(c) => SpellChar(c, SIGNS, quote)
    case Any => "?"
    case Star => "*"
    case Class(negate, ranges) => "[" + (if negate then [bar] else "") + SpellRanges(ranges, quote) + "]"
  }

  function Spell(items: seq<Item>, bar: char, quote: set<char>): string
    requires forall i :: 0 <= i < |items| ==> !items[i].Unclosed?
  {
    if items == [] then "" else SpellOne(items[0], bar, quote) + Spell(items[1..], bar, quote)
  }

  // --------------------------------------------------------------------- brackets

  lemma {:induction false} CharRead(p: string, i: nat, c: char, quote: set<char>, rest: string)
    requires i <= |p| && p[i..] == SpellChar(c, BRACKET_SIGNS, quote) + rest
    ensures var end := i + |SpellChar(c, BRACKET_SIGNS, quote)|;
            end <= |p| && p[end..] == rest && ClassChar(p, i) == Some((c, end))
    ensures i < |p| && p[i] !in {']', '-', '!', '^'}
  {
    assert p[i] == p[i..][0] && p[i + 1..] == p[i..][1..];
    if c in BRACKET_SIGNS || c in quote {
      assert p[i + 1] == p[i..][1] && p[i + 2..] == p[i..][2..];
    }
  }

  lemma {:induction false} SingleRead(p: string, i: nat, c: char, quote: set<char>, rest: string)
    requires i <= |p| && p[i..] == SpellChar(c, BRACKET_SIGNS, quote) + rest && rest != "" && rest[0] != '-'
    ensures var end := i + |SpellChar(c, BRACKET_SIGNS, quote)|;
            end <= |p| && p[end..] == rest && Ranges(p, i) == PrefixRange((c, c), Ranges(p, end))
  {
    hide SpellChar, ClassChar;
    CharRead(p, i, c, quote, rest);
    var end := i + |SpellChar(c, BRACKET_SIGNS, quote)|;
    assert p[end] == p[end..][0];
  }

  lemma {:induction false} Hyphened(a: string, b: string, rest: string)
    ensures a + "-" + b + rest == a + ("-" + (b + rest))
  {
  }

  /** A range that is read in its three parts. */
  lemma {:induction false} RangeStep(p: string, i: nat, lo: char, j: nat, hi: char, end: nat)
    requires i < |p| && p[i] != ']' && ClassChar(p, i) == Some((lo, j))
    requires j + 1 < |p| && p[j] == '-' && p[j + 1] != ']' && ClassChar(p, j + 1) == Some((hi, end))
    ensures Ranges(p, i) == PrefixRange((lo, hi), Ranges(p, end))
  {
    hide ClassChar, PrefixRange;
  }

  lemma {:induction false} HyphenRead(p: string, j: nat, rest: string)
    requires j <= |p| && p[j..] == "-" + rest
    ensures j < |p| && p[j] == '-' && p[j + 1..] == rest
  {
    assert p[j] == p[j..][0] && p[j + 1..] == p[j..][1..];
  }

  lemma {:induction false} PairRead(p: string, i: nat, lo: char, hi: char, quote: set<char>, rest: string)
    requires i <= |p|
    requires p[i..] == SpellChar(lo, BRACKET_SIGNS, quote) + "-" + SpellChar(hi, BRACKET_SIGNS, quote) + rest
    ensures var end := i + |SpellChar(lo, BRACKET_SIGNS, quote)| + 1 + |SpellChar(hi, BRACKET_SIGNS, quote)|;
            end <= |p| && p[end..] == rest && Ranges(p, i) == PrefixRange((lo, hi), Ranges(p, end))
  {
    hide SpellChar, ClassChar, Ranges, PrefixRange;
    var a, b := SpellChar(lo, BRACKET_SIGNS, quote), SpellChar(hi, BRACKET_SIGNS, quote);
    Hyphened(a, b, rest);
    CharRead(p, i, lo, quote, "-" + (b + rest));
    HyphenRead(p, i + |a|, b + rest);
    CharRead(p, i + |a| + 1, hi, quote, rest);
    RangeStep(p, i, lo, i + |a|, hi, i + |a| + 1 + |b|);
  }

  lemma {:induction false} RangeRead(p: string, i: nat, r: (char, char), quote: set<char>, rest: string)
    requires i <= |p| && p[i..] == SpellRange(r, quote) + rest && rest != "" && rest[0] != '-'
    ensures var end := i + |SpellRange(r, quote)|;
            end <= |p| && p[end..] == rest && Ranges(p, i) == PrefixRange(r, Ranges(p, end))
  {
    hide SpellChar, Ranges, PrefixRange;
    if r.0 == r.1 {
      SingleRead(p, i, r.0, quote, rest);
    } else {
      PairRead(p, i, r.0, r.1, quote, rest);
    }
  }

  lemma {:induction false} SpellFirst(rs: seq<(char, char)>, quote: set<char>)
    requires rs != []
    ensures SpellRanges(rs, quote) == SpellRange(rs[0], quote) + SpellRanges(rs[1..], quote)
  {
  }

  lemma {:induction false} NoRanges(quote: set<char>)
    ensures SpellRanges([], quote) == ""
  {
  }

  /** The brackets end with the bracket that closes them. */
  lemma {:induction false} RangesClosed(p: string, i: nat, rest: string)
    requires i <= |p| && p[i..] == "]" + rest
    ensures i + 1 <= |p| && p[i + 1..] == rest && Ranges(p, i) == Some(([], i + 1))
  {
    assert p[i] == p[i..][0] && p[i + 1..] == p[i..][1..] == rest;
  }

  lemma {:induction false} Regroup(one: string, more: string, rest: string)
    ensures one + more + "]" + rest == one + (more + "]" + rest)
  {
  }

  /** What begins the ranges is no sign but the end or a quote. */
  lemma {:induction false} RangesStart(rs: seq<(char, char)>, quote: set<char>, rest: string)
    ensures var s := SpellRanges(rs, quote) + "]" + rest; s[0] !in {'-', '!', '^'}
  {
    if rs == [] {
      assert (SpellRanges(rs, quote) + "]" + rest)[0] == ']';
    } else {
      var c := SpellChar(rs[0].0, BRACKET_SIGNS, quote);
      SpellFirst(rs, quote);
      hide SpellRanges;
      assert SpellRange(rs[0], quote)[0] == c[0];
      assert (SpellRanges(rs, quote) + "]" + rest)[0] == c[0];
    }
  }

  lemma {:induction false} RangesRead(p: string, i: nat, rs: seq<(char, char)>, quote: set<char>, rest: string)
    requires i <= |p| && p[i..] == SpellRanges(rs, quote) + "]" + rest
    ensures var end := i + |SpellRanges(rs, quote)| + 1;
            end <= |p| && p[end..] == rest && Ranges(p, i) == Some((rs, end))
    decreases |rs|
  {
    hide Ranges, SpellRanges, SpellRange;
    if rs == [] {
      NoRanges(quote);
      RangesClosed(p, i, rest);
    } else {
      var one, more := SpellRange(rs[0], quote), SpellRanges(rs[1..], quote);
      SpellFirst(rs, quote);
      Regroup(one, more, rest);
      RangesStart(rs[1..], quote, rest);
      RangeRead(p, i, rs[0], quote, more + "]" + rest);
      RangesRead(p, i + |one|, rs[1..], quote, rest);
      assert [rs[0]] + rs[1..] == rs;
    }
  }

  lemma {:induction false} BracketRead(p: string, i: nat, negate: bool, bar: char, rs: seq<(char, char)>,
      quote: set<char>, rest: string)
    requires (bar == '!' || bar == '^') && i <= |p|
    requires p[i..] == (if negate then [bar] else "") + SpellRanges(rs, quote) + "]" + rest
    ensures var end := i + (if negate then 1 else 0) + |SpellRanges(rs, quote)| + 1;
            end <= |p| && p[end..] == rest && Bracket(p, i) == (Class(negate, rs), end)
  {
    var body := SpellRanges(rs, quote) + "]" + rest;
    RangesStart(rs, quote, rest);
    hide Ranges, SpellRanges;
    if negate {
      assert [bar] + SpellRanges(rs, quote) + "]" + rest == [bar] + body;
      assert p[i] == p[i..][0] && p[i + 1..] == p[i..][1..] == body;
      RangesRead(p, i + 1, rs, quote, rest);
    } else {
      assert "" + SpellRanges(rs, quote) + "]" + rest == body;
      assert p[i] == p[i..][0];
      RangesRead(p, i, rs, quote, rest);
    }
  }

  // ------------------------------------------------------------------------ items

  /** `x` stands at `i` and `rest` behind it. */
  ghost predicate Stands(p: string, i: nat, x: Item, n: nat, rest: string) {
    0 < n && i + n <= |p| && p[i + n..] == rest && ItemAt(p, i) == (x, i + n)
  }

  lemma {:induction false} LitRead(p: string, i: nat, c: char, quote: set<char>, rest: string)
    requires i <= |p| && p[i..] == SpellChar(c, SIGNS, quote) + rest
    ensures Stands(p, i, Lit(c), |SpellChar(c, SIGNS, quote)|, rest)
  {
    hide Bracket;
    assert p[i] == p[i..][0] && p[i + 1..] == p[i..][1..];
    if c in SIGNS || c in quote {
      assert p[i + 1] == p[i..][1] && p[i + 2..] == p[i..][2..];
    }
  }

  lemma {:induction false} SignRead(p: string, i: nat, sign: char, rest: string)
    requires (sign == '?' || sign == '*') && i <= |p| && p[i..] == [sign] + rest
    ensures Stands(p, i, if sign == '?' then Any else Star, 1, rest)
  {
    hide Bracket;
    assert p[i] == p[i..][0] && p[i + 1..] == p[i..][1..] == rest;
  }

  lemma {:induction false} ClassRead(p: string, i: nat, negate: bool, bar: char, rs: seq<(char, char)>,
      quote: set<char>, rest: string)
    requires (bar == '!' || bar == '^') && i <= |p|
    requires p[i..] == "[" + (if negate then [bar] else "") + SpellRanges(rs, quote) + "]" + rest
    ensures Stands(p, i, Class(negate, rs), |SpellRanges(rs, quote)| + if negate then 3 else 2, rest)
  {
    hide Bracket, SpellRanges;
    var body := (if negate then [bar] else "") + SpellRanges(rs, quote) + "]" + rest;
    assert p[i..] == "[" + body;
    assert p[i] == p[i..][0] && p[i + 1..] == p[i..][1..] == body;
    BracketRead(p, i + 1, negate, bar, rs, quote, rest);
  }

  lemma {:induction false} ItemRead(p: string, i: nat, x: Item, bar: char, quote: set<char>, rest: string)
    requires (bar == '!' || bar == '^') && !x.Unclosed? && i <= |p| && p[i..] == SpellOne(x, bar, quote) + rest
    ensures Stands(p, i, x, |SpellOne(x, bar, quote)|, rest)
  {
    hide Stands, SpellRanges, SpellChar;
    match x
    case Lit(c) => LitRead(p, i, c, quote, rest);
    case Any => SignRead(p, i, '?', rest);
    case Star => SignRead(p, i, '*', rest);
    case Class(negate, rs) => ClassRead(p, i, negate, bar, rs, quote, rest);
  }

  lemma {:induction false} OneItem(p: string, i: nat, x: Item, n: nat, rest: string)
    requires Stands(p, i, x, n, rest)
    ensures i + n <= |p| && p[i + n..] == rest && Items(p, i) == [x] + Items(p, i + n)
  {
    hide ItemAt;
  }

  lemma {:induction false} SpellItem(items: seq<Item>, bar: char, quote: set<char>)
    requires items != [] && forall k :: 0 <= k < |items| ==> !items[k].Unclosed?
    ensures Spell(items, bar, quote) == SpellOne(items[0], bar, quote) + Spell(items[1..], bar, quote)
  {
    hide SpellOne;
  }

  lemma {:induction false} NoItems(p: string, i: nat, bar: char, quote: set<char>)
    requires i <= |p| && p[i..] == Spell([], bar, quote)
    ensures Items(p, i) == []
  {
  }

  lemma {:induction false} ItemsRead(p: string, i: nat, items: seq<Item>, bar: char, quote: set<char>)
    requires bar == '!' || bar == '^'
    requires (forall k :: 0 <= k < |items| ==> !items[k].Unclosed?) && i <= |p| && p[i..] == Spell(items, bar, quote)
    ensures Items(p, i) == items
    decreases |items|
  {
    hide Items, Spell, SpellOne, Stands;
    if items == [] {
      NoItems(p, i, bar, quote);
    } else {
      var n, rest := |SpellOne(items[0], bar, quote)|, Spell(items[1..], bar, quote);
      SpellItem(items, bar, quote);
      ItemRead(p, i, items[0], bar, quote, rest);
      OneItem(p, i, items[0], n, rest);
      ItemsRead(p, i + n, items[1..], bar, quote);
      assert [items[0]] + items[1..] == items;
    }
  }

  /** A pattern spelt from items is read as these items: a character stands for itself,
      behind a backslash at least if it is a sign; `?` and `*` stand for a character and
      for any text; a bracket lists characters and ranges, and one with `!` or `^` is
      negated. */
  lemma {:induction false} Spelt(items: seq<Item>, bar: char, quote: set<char>)
    requires (bar == '!' || bar == '^') && forall k :: 0 <= k < |items| ==> !items[k].Unclosed?
    ensures Items(Spell(items, bar, quote), 0) == items
  {
    var p := Spell(items, bar, quote);
    assert p[0..] == p;
    ItemsRead(p, 0, items, bar, quote);
  }
}
