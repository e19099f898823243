/** Glob patterns: what a pattern means, and the matcher that decides it. */
module Fnmatch {
  import opened Lines

  /** The flags of a match that are modelled. */
  datatype Flags = Flags(pathname: bool, leadingDir: bool)

  /** A pattern is a list of items; a bracket that is not closed matches nothing. */
  datatype Item = Lit(c: char) | Any | Star | Class(negate: bool, ranges: seq<(char, char)>) | Unclosed

  // ------------------------------------------------------------ reading a pattern

  /** A character of a bracket expression, perhaps quoted, and the place behind it. */
  function ClassChar(p: string, i: nat): (r: Option<(char, nat)>)
    ensures r.Some? ==> i < r.value.1 <= |p|
  {
    if i >= |p| then None
    else if p[i] != '\\' then Some((p[i], i + 1))
    else if i + 1 >= |p| then None
    else Some((p[i + 1], i + 2))
  }

  /** The ranges of a bracket expression and the place behind its end.  It ends at the
      first bracket that is not quoted, even the one it begins with: `[]a]` is a class of
      no characters and then two literals, where other matchers read a class of two. */
  function Ranges(p: string, i: nat): (r: Option<(seq<(char, char)>, nat)>)
    ensures r.Some? ==> i < r.value.1 <= |p|
    decreases |p| - i
  {
    if i < |p| && p[i] == ']' then Some(([], i + 1))
    else
      match ClassChar(p, i)
      case None => None
      case Some((c, j)) =>
        if IsRange(p, j) then
          match ClassChar(p, j + 1)
          case None => None
          case Some((c2, k)) => PrefixRange((c, c2), Ranges(p, k))
        else PrefixRange((c, c), Ranges(p, j))
  }

  /** A hyphen that has an upper end. */
  predicate IsRange(p: string, j: nat) { j + 1 < |p| && p[j] == '-' && p[j + 1] != ']' }

  function PrefixRange(x: (char, char), r: Option<(seq<(char, char)>, nat)>): (q: Option<(seq<(char, char)>, nat)>) {
    if r.Some? then Some(([x] + r.value.0, r.value.1)) else None
  }

  /** A bracket expression, of which `i` is behind the bracket. */
  function Bracket(p: string, i: nat): (r: (Item, nat))
    requires i <= |p|
    ensures i <= r.1 <= |p| && (r.0.Class? || r.0.Unclosed?)
  {
    var negate := i < |p| && (p[i] == '!' || p[i] == '^');
    match Ranges(p, if negate then i + 1 else i)
    case None => (Unclosed, |p|)
    case Some((ranges, end)) => (Class(negate, ranges), end)
  }

  function ItemAt(p: string, i: nat): (r: (Item, nat))
    requires i < |p|
    ensures i < r.1 <= |p|
  {
    if p[i] == '?' then (Any, i + 1)
    else if p[i] == '*' then (Star, i + 1)
    else if p[i] == '[' then Bracket(p, i + 1)
    else if p[i] == '\\' && i + 1 < |p| then (Lit(p[i + 1]), i + 2)
    else (Lit(p[i]), i + 1)
  }

  /** The items of a pattern from `i` on.  The glob relation below is about these items,
      so it takes over this reading of brackets. */
  function Items(p: string, i: nat): seq<Item>
    requires i <= |p|
    decreases |p| - i
  {
    if i == |p| then [] else var (x, end) := ItemAt(p, i); [x] + Items(p, end)
  }

  // -------------------------------------------------------- what a pattern means

  predicate InRanges(c: char, ranges: seq<(char, char)>) {
    exists i :: 0 <= i < |ranges| && ranges[i].0 <= c <= ranges[i].1
  }

  predicate HasSlash(s: string) { '/' in s }

  /** What an item may stand for.  Under `pathname` only a slash stands for a slash. */
  predicate Stands(x: Item, piece: string, f: Flags) {
    match x
    case Lit(c) => piece == [c]
    case Any => |piece| == 1 && !(f.pathname && piece == "/")
    case Class(negate, ranges) =>
      |piece| == 1 && !(f.pathname && piece == "/") && InRanges(piece[0], ranges) != negate
    case Star => f.pathname ==> !HasSlash(piece)
    case Unclosed => false
  }

  function Joined(pieces: seq<string>): string {
    if pieces == [] then "" else pieces[0] + Joined(pieces[1..])
  }

  /** What may follow what the pattern stands for. */
  predicate Tail(s: string, f: Flags) { s == "" || (f.leadingDir && s[0] == '/') }

  /** A string cut up along the items of a pattern. */
  ghost predicate Cut(items: seq<Item>, pieces: seq<string>, tail: string, s: string, f: Flags) {
    && |pieces| == |items| && s == Joined(pieces) + tail && Tail(tail, f)
    && forall i :: 0 <= i < |items| ==> Stands(items[i], pieces[i], f)
  }

  /** The glob relation: a string can be cut into a piece for each item. */
  ghost predicate Globs(items: seq<Item>, s: string, f: Flags) {
    exists pieces: seq<string>, tail: string :: Cut(items, pieces, tail, s, f)
  }

  /** The same from left to right. */
  predicate Match(items: seq<Item>, s: string, f: Flags)
    decreases |items|
  {
    if items == [] then Tail(s, f)
    else if items[0].Star? then exists k: nat :: k <= |s| && Stands(Star, s[..k], f) && Match(items[1..], s[k..], f)
    else s != "" && Stands(items[0], s[..1], f) && Match(items[1..], s[1..], f)
  }

  lemma {:induction false} CutMatches(items: seq<Item>, pieces: seq<string>, tail: string, s: string, f: Flags)
    requires Cut(items, pieces, tail, s, f)
    ensures Match(items, s, f)
    decreases |items|
  {
    if items == [] {
      assert s == tail;
    } else {
      var k := |pieces[0]|;
      assert s == pieces[0] + (Joined(pieces[1..]) + tail);
      assert s[..k] == pieces[0] && s[k..] == Joined(pieces[1..]) + tail;
      assert Stands(items[0], pieces[0], f);
      CutMatches(items[1..], pieces[1..], tail, s[k..], f);
    }
  }

  lemma {:induction false} CutCons(
      items: seq<Item>, piece: string, more: seq<string>, tail: string, s: string, f: Flags)
    requires items != [] && Stands(items[0], piece, f) && Cut(items[1..], more, tail, s, f)
    ensures Cut(items, [piece] + more, tail, piece + s, f)
  {
    var pieces := [piece] + more;
    assert pieces[1..] == more;
    assert piece + (Joined(more) + tail) == piece + Joined(more) + tail;
    forall i | 0 <= i < |items| ensures Stands(items[i], pieces[i], f) {
      assert i > 0 ==> items[i] == items[1..][i - 1] && pieces[i] == more[i - 1];
    }
  }

  lemma {:induction false} MatchCuts(items: seq<Item>, s: string, f: Flags)
      returns (pieces: seq<string>, tail: string)
    requires Match(items, s, f)
    ensures Cut(items, pieces, tail, s, f)
    decreases |items|
  {
    if items == [] {
      pieces, tail := [], s;
    } else {
      var k: nat := 1;
      if items[0].Star? {
        k :| k <= |s| && Stands(Star, s[..k], f) && Match(items[1..], s[k..], f);
      }
      assert Stands(items[0], s[..k], f);
      hide Stands, Tail;
      var more;
      more, tail := MatchCuts(items[1..], s[k..], f);
      pieces := [s[..k]] + more;
      CutCons(items, s[..k], more, tail, s[k..], f);
      assert s == s[..k] + s[k..];
    }
  }

  /** Matching from left to right is the glob relation. */
  lemma {:induction false} MatchIsGlobs(items: seq<Item>, s: string, f: Flags)
    ensures Match(items, s, f) <==> Globs(items, s, f)
  {
    if Match(items, s, f) {
      var pieces, tail := MatchCuts(items, s, f);
    }
    if Globs(items, s, f) {
      var pieces, tail :| Cut(items, pieces, tail, s, f);
      CutMatches(items, pieces, tail, s, f);
    }
  }

  function Slashes(s: string): nat {
    if s == "" then 0 else (if s[0] == '/' then 1 else 0) + Slashes(s[1..])
  }

  function SlashItems(items: seq<Item>): nat {
    if items == [] then 0 else (if items[0] == Lit('/') then 1 else 0) + SlashItems(items[1..])
  }

  lemma {:induction false} SlashesPlus(a: string, b: string)
    ensures Slashes(a + b) == Slashes(a) + Slashes(b)
  {
    if a == "" {
      assert a + b == b;
    } else {
      assert (a + b)[1..] == a[1..] + b;
      SlashesPlus(a[1..], b);
    }
  }

  lemma {:induction false} NoSlashes(s: string)
    requires !HasSlash(s)
    ensures Slashes(s) == 0
  {
    if s != "" {
      assert s == [s[0]] + s[1..];
      NoSlashes(s[1..]);
    }
  }

  lemma {:induction false} OneSlash(c: char)
    ensures Slashes([c]) == if c == '/' then 1 else 0
  {
    assert [c][1..] == "";
  }

  /** Under `pathname` slashes only match slashes: a string has as many of them as
      its pattern. */
  lemma {:induction false} SlashesAgree(items: seq<Item>, s: string, f: Flags)
    requires f.pathname && !f.leadingDir && Globs(items, s, f)
    ensures Slashes(s) == SlashItems(items)
  {
    var pieces, tail :| Cut(items, pieces, tail, s, f);
    assert s == Joined(pieces);
    PiecesAgree(items, pieces, f);
  }

  lemma {:induction false} PiecesAgree(items: seq<Item>, pieces: seq<string>, f: Flags)
    requires f.pathname && |pieces| == |items| && forall i :: 0 <= i < |items| ==> Stands(items[i], pieces[i], f)
    ensures Slashes(Joined(pieces)) == SlashItems(items)
    decreases |items|
  {
    if items != [] {
      assert Stands(items[0], pieces[0], f);
      SlashesPlus(pieces[0], Joined(pieces[1..]));
      PiecesAgree(items[1..], pieces[1..], f);
      if items[0].Star? {
        NoSlashes(pieces[0]);
      } else {
        assert pieces[0] == [pieces[0][0]];
        OneSlash(pieces[0][0]);
      }
    }
  }

  /** With `leadingDir` a pattern also matches everything below what it matches. */
  lemma {:induction false} LeadingDirs(items: seq<Item>, s: string, f: Flags)
    requires f.leadingDir
    ensures Globs(items, s, f) <==>
            exists k: nat :: k <= |s| && Tail(s[k..], f) && Globs(items, s[..k], f.(leadingDir := false))
  {
    var g := f.(leadingDir := false);
    if Globs(items, s, f) {
      var pieces, tail :| Cut(items, pieces, tail, s, f);
      var k := |Joined(pieces)|;
      assert s[..k] == Joined(pieces) + "" && s[k..] == tail;
      StandsAlike(items, pieces, f, g);
      assert Cut(items, pieces, "", s[..k], g);
    }
    if k: nat :| k <= |s| && Tail(s[k..], f) && Globs(items, s[..k], g) {
      var pieces, tail :| Cut(items, pieces, tail, s[..k], g);
      assert s == s[..k] + s[k..] && Joined(pieces) + "" == Joined(pieces);
      StandsAlike(items, pieces, g, f);
      assert Cut(items, pieces, s[k..], s, f);
    }
  }

  lemma {:induction false} StandsAlike(items: seq<Item>, pieces: seq<string>, f: Flags, g: Flags)
    requires f.pathname == g.pathname && |pieces| == |items|
    requires forall i :: 0 <= i < |items| ==> Stands(items[i], pieces[i], f)
    ensures forall i :: 0 <= i < |items| ==> Stands(items[i], pieces[i], g)
  {
  }

  // -------------------------------------------------------- the matcher's shortcuts

  /** A star and whatever is behind it, at some place of the string. */
  ghost predicate StarAt(rest: seq<Item>, s: string, k: nat, f: Flags) {
    k <= |s| && Stands(Star, s[..k], f) && Match(rest, s[k..], f)
  }

  lemma {:induction false} StarMatches(rest: seq<Item>, s: string, f: Flags)
    ensures Match([Star] + rest, s, f) <==> exists k: nat :: StarAt(rest, s, k, f)
  {
    assert ([Star] + rest)[1..] == rest;
    if Match([Star] + rest, s, f) {
      var k: nat :| k <= |s| && Stands(Star, s[..k], f) && Match(rest, s[k..], f);
      assert StarAt(rest, s, k, f);
    }
    if k: nat :| StarAt(rest, s, k, f) {
      assert k <= |s| && Stands(Star, s[..k], f) && Match(rest, s[k..], f);
    }
  }

  /** Stars in a row are one star. */
  lemma {:induction false} StarStar(rest: seq<Item>, s: string, f: Flags)
    ensures Match([Star] + ([Star] + rest), s, f) <==> Match([Star] + rest, s, f)
  {
    StarMatches([Star] + rest, s, f);
    StarMatches(rest, s, f);
    if k: nat :| StarAt([Star] + rest, s, k, f) {
      StarMatches(rest, s[k..], f);
      var m: nat :| StarAt(rest, s[k..], m, f);
      assert s[..k + m] == s[..k] + s[k..][..m] && s[k + m..] == s[k..][m..];
      assert StarAt(rest, s, k + m, f);
    }
    if Match([Star] + rest, s, f) {
      assert s[..0] == "" && s[0..] == s;
      assert StarAt([Star] + rest, s, 0, f);
    }
  }

  /** A star at the end of the pattern. */
  lemma {:induction false} StarAtEnd(s: string, f: Flags)
    ensures Match([Star], s, f) <==> !f.pathname || f.leadingDir || !HasSlash(s)
  {
    assert [Star] + [] == [Star];
    StarMatches([], s, f);
    if !f.pathname || !HasSlash(s) {
      assert s[..|s|] == s && s[|s|..] == "";
      assert StarAt([], s, |s|, f);
    } else {
      var k := FirstSlash(s);
      if f.leadingDir {
        assert StarAt([], s, k, f);
      }
      assert s[..|s|] == s;
    }
  }

  lemma {:induction false} FirstSlash(s: string) returns (k: nat)
    requires HasSlash(s)
    ensures k < |s| && s[k] == '/' && !HasSlash(s[..k])
  {
    if s[0] == '/' {
      k := 0;
    } else {
      assert s == [s[0]] + s[1..];
      k := FirstSlash(s[1..]);
      assert s[..k + 1] == [s[0]] + s[1..][..k];
      k := k + 1;
    }
  }

  lemma {:induction false} SlashBefore(s: string, m: nat, k: nat)
    ensures k < m <= |s| && s[k] == '/' ==> HasSlash(s[..m])
  {
    if k < m <= |s| {
      assert s[..m][k] == s[k];
    }
  }

  /** Under `pathname`, a star before a slash ends at the first slash of the string. */
  lemma {:induction false} StarSlash(rest: seq<Item>, s: string, k: nat, f: Flags)
    requires f.pathname && rest != [] && rest[0] == Lit('/')
    ensures !HasSlash(s) ==> !Match([Star] + rest, s, f)
    ensures k < |s| && s[k] == '/' && !HasSlash(s[..k]) ==> (Match([Star] + rest, s, f) <==> Match(rest, s[k..], f))
  {
    StarMatches(rest, s, f);
    if m: nat :| StarAt(rest, s, m, f) {
      assert s[m..][..1] == [s[m]] && s[m] == '/';
      SlashBefore(s, k, m);
      SlashBefore(s, m, k);
    }
    if k < |s| && s[k] == '/' && !HasSlash(s[..k]) && Match(rest, s[k..], f) {
      assert StarAt(rest, s, k, f);
    }
  }

  /** Behind a star, a pattern that goes on with something else needs a character. */
  lemma {:induction false} NotAtEnd(rest: seq<Item>, f: Flags)
    requires rest != [] && !rest[0].Star?
    ensures !Match(rest, "", f)
  {
  }

  /** What is known when the places before `k` have been tried: a match, if any, is
      at a later place that a star reaches. */
  lemma {:induction false} StarTried(rest: seq<Item>, s: string, k: nat, f: Flags)
    requires rest != [] && !rest[0].Star? && k <= |s|
    requires forall m: nat :: m < k ==> !Match(rest, s[m..], f)
    requires k == |s| || (f.pathname && k > 0 && s[k - 1] == '/')
    ensures !Match([Star] + rest, s, f)
  {
    StarMatches(rest, s, f);
    forall m: nat ensures !StarAt(rest, s, m, f) {
      TriedAt(rest, s, k, m, f);
    }
  }

  lemma {:induction false} TriedAt(rest: seq<Item>, s: string, k: nat, m: nat, f: Flags)
    requires rest != [] && !rest[0].Star? && k <= |s|
    requires m < k ==> !Match(rest, s[m..], f)
    requires k == |s| || (f.pathname && k > 0 && s[k - 1] == '/')
    ensures !StarAt(rest, s, m, f)
  {
    NotAtEnd(rest, f);
    assert s[|s|..] == "";
    if m >= k && k > 0 {
      SlashBefore(s, m, k - 1);
    }
  }

  // ------------------------------------------------------------------- the code

  /** One character or range of a bracket expression, whether the character is in
      it, and the place behind it; nothing when the pattern ends. */
  method NextRange(p: string, from: nat, test: char) returns (i: Option<nat>, hit: bool, ghost x: (char, char))
    requires from < |p| && p[from] != ']'
    ensures i.None? ==> Ranges(p, from) == None
    ensures i.Some? ==> from < i.value <= |p| && Ranges(p, from) == PrefixRange(x, Ranges(p, i.value))
    ensures hit <==> x.0 <= test <= x.1
  {
    RangesStep(p, from);
    hide Ranges, PrefixRange;
    var at, c := from + 1, p[from];
    hit, x := false, ('b', 'a');
    if c == '\\' {
      if at == |p| {
        return None, hit, x;
      }
      c, at := p[at], at + 1;
    }
    if at + 1 < |p| && p[at] == '-' && p[at + 1] != ']' {
      var c2 := p[at + 1];
      at := at + 2;
      if c2 == '\\' {
        if at == |p| {
          return None, hit, x;
        }
        c2, at := p[at], at + 1;
      }
      hit, x := c <= test <= c2, (c, c2);
    } else {
      hit, x := c == test, (c, c);
    }
    i := Some(at);
  }

  /** Whether a character is in a bracket expression that begins at `from`: the
      place behind the expression if so, and nothing if not, or if it does not end. */
  method RangeMatch(p: string, from: nat, test: char) returns (end: Option<nat>)
    requires from <= |p|
    ensures Bracket(p, from).0.Unclosed? ==> end == None
    ensures Bracket(p, from).0.Class? ==>
              var (x, e) := Bracket(p, from);
              end == if InRanges(test, x.ranges) != x.negate then Some(e) else None
  {
    hide Ranges, PrefixRange, Append, InRanges;
    var i: nat := from;
    var negate := i < |p| && (p[i] == '!' || p[i] == '^');
    if negate {
      i := i + 1;
    }
    ghost var start, seen := i, [];
    assert BracketIs(p, from, negate, Ranges(p, start));
    hide Bracket, BracketIs;
    var ok := false;
    AppendNothing([], Ranges(p, i));
    InNone(test);
    while i < |p| && p[i] != ']'
      invariant start <= i <= |p|
      invariant Ranges(p, start) == Append(seen, Ranges(p, i))
      invariant ok <==> InRanges(test, seen)
    {
      AppendNothing(seen, None);
      ghost var x;
      var next, hit;
      next, hit, x := NextRange(p, i, test);
      if next == None {
        BracketEnds(p, from, negate, Ranges(p, start));
        return None;
      }
      if hit {
        ok := true;
      }
      AppendTwice(seen, x, Ranges(p, next.value));
      InOneMore(test, seen, x);
      i, seen := next.value, seen + [x];
    }
    RangesEnd(p, i);
    AppendNothing(seen, Ranges(p, i));
    AppendNothing(seen, None);
    BracketEnds(p, from, negate, Ranges(p, start));
    if i == |p| {
      return None;
    }
    end := if ok == negate then None else Some(i + 1);
  }

  ghost predicate BracketIs(p: string, from: nat, negate: bool, r: Option<(seq<(char, char)>, nat)>)
    requires from <= |p|
  {
    Bracket(p, from) == if r.Some? then (Class(negate, r.value.0), r.value.1) else (Unclosed, |p|)
  }

  lemma {:induction false} BracketEnds(p: string, from: nat, negate: bool, r: Option<(seq<(char, char)>, nat)>)
    requires from <= |p| && BracketIs(p, from, negate, r)
    ensures r == None ==> Bracket(p, from).0.Unclosed?
    ensures r.Some? ==> Bracket(p, from) == (Class(negate, r.value.0), r.value.1)
  {
  }

  ghost function Append(seen: seq<(char, char)>, r: Option<(seq<(char, char)>, nat)>)
      : Option<(seq<(char, char)>, nat)>
  {
    if r.Some? then Some((seen + r.value.0, r.value.1)) else None
  }

  lemma {:induction false} AppendNothing(seen: seq<(char, char)>, r: Option<(seq<(char, char)>, nat)>)
    ensures Append([], r) == r && Append(seen, None) == None
    ensures r.Some? && r.value.0 == [] ==> Append(seen, r) == Some((seen, r.value.1))
  {
    assert r.Some? ==> [] + r.value.0 == r.value.0;
    assert seen + [] == seen;
  }

  lemma {:induction false} RangesEnd(p: string, i: nat)
    requires i <= |p| && (i < |p| ==> p[i] == ']')
    ensures Ranges(p, i) == if i < |p| then Some(([], i + 1)) else None
  {
  }

  lemma {:induction false} RangesStep(p: string, i: nat)
    requires i < |p| && p[i] != ']'
    ensures Ranges(p, i) ==
            match ClassChar(p, i)
            case None => None
            case Some((c, j)) =>
              if IsRange(p, j) then
                match ClassChar(p, j + 1)
                case None => None
                case Some((c2, k)) => PrefixRange((c, c2), Ranges(p, k))
              else PrefixRange((c, c), Ranges(p, j))
  {
  }

  lemma {:induction false} InNone(c: char)
    ensures !InRanges(c, [])
  {
  }

  lemma {:induction false} AppendTwice(seen: seq<(char, char)>, x: (char, char), r: Option<(seq<(char, char)>, nat)>)
    ensures Append(seen, PrefixRange(x, r)) == Append(seen + [x], r)
  {
    assert r.Some? ==> seen + ([x] + r.value.0) == seen + [x] + r.value.0;
  }

  lemma {:induction false} InOneMore(c: char, seen: seq<(char, char)>, x: (char, char))
    ensures InRanges(c, seen + [x]) <==> InRanges(c, seen) || x.0 <= c <= x.1
  {
    var more := seen + [x];
    if i :| 0 <= i < |seen| && seen[i].0 <= c <= seen[i].1 {
      assert more[i] == seen[i];
    }
    assert more[|seen|] == x;
  }

  /** The first slash from `i` on. */
  method StrChrSlash(s: string, i: nat) returns (k: Option<nat>)
    requires i <= |s|
    ensures k.None? ==> !HasSlash(s[i..])
    ensures k.Some? ==> i <= k.value < |s| && s[k.value] == '/' && !HasSlash(s[i..k.value])
  {
    var j := i;
    while j < |s|
      invariant i <= j <= |s| && !HasSlash(s[i..j])
    {
      if s[j] == '/' {
        return Some(j);
      }
      assert s[i..j + 1] == s[i..j] + [s[j]];
      j := j + 1;
    }
    assert s[i..j] == s[i..];
    k := None;
  }

  /** One item that stands for one character. */
  lemma {:induction false} OneStep(p: string, i: nat, s: string, j: nat, f: Flags)
    requires i < |p| && j <= |s|
    ensures !ItemAt(p, i).0.Star? ==>
              (Match(Items(p, i), s[j..], f) <==>
               j < |s| && Stands(ItemAt(p, i).0, [s[j]], f) && Match(Items(p, ItemAt(p, i).1), s[j + 1..], f))
    ensures ItemAt(p, i).0.Star? ==> Items(p, i) == [Star] + Items(p, i + 1)
  {
    var (x, end) := ItemAt(p, i);
    assert ([x] + Items(p, end))[1..] == Items(p, end);
    if j < |s| {
      assert s[j..][..1] == [s[j]] && s[j..][1..] == s[j + 1..];
    }
  }

  /** Whether the string from `j0` on matches the pattern from `i0` on. */
  method FnmatchFrom(p: string, i0: nat, s: string, j0: nat, f: Flags) returns (found: bool)
    requires i0 <= |p| && j0 <= |s|
    ensures found <==> Match(Items(p, i0), s[j0..], f)
    decreases |p| - i0, 0
  {
    hide Match, Bracket, InRanges;
    var i: nat, j: nat := i0, j0;
    while i < |p|
      invariant i0 <= i <= |p| && j <= |s|
      invariant Match(Items(p, i0), s[j0..], f) <==> Match(Items(p, i), s[j..], f)
    {
      OneStep(p, i, s, j, f);
      var c := p[i];
      i := i + 1;
      if c == '?' {
        if j == |s| {
          return false;
        }
        if s[j] == '/' && f.pathname {
          return false;
        }
        j := j + 1;
      } else if c == '*' {
        var done, r;
        done, r, i, j := AfterStar(p, i, s, j, f);
        if done {
          return r;
        }
      } else if c == '[' {
        if j == |s| {
          return false;
        }
        if s[j] == '/' && f.pathname {
          return false;
        }
        var end := RangeMatch(p, i, s[j]);
        if end == None {
          return false;
        }
        i, j := end.value, j + 1;
      } else {
        if c == '\\' && i < |p| {
          c := p[i];
          i := i + 1;
        }
        if j == |s| || c != s[j] {
          return false;
        }
        j := j + 1;
      }
    }
    AtEnd(p, s, j, f);
    found := j == |s| || (f.leadingDir && s[j] == '/');
  }

  lemma {:induction false} AtEnd(p: string, s: string, j: nat, f: Flags)
    requires j <= |s|
    ensures Match(Items(p, |p|), s[j..], f) <==> j == |s| || (f.leadingDir && s[j] == '/')
  {
  }

  /** What is done behind a star that has just been read: either the match is
      decided, or it goes on from the returned places. */
  method AfterStar(p: string, i0: nat, s: string, j: nat, f: Flags) returns (done: bool, found: bool, i: nat, k: nat)
    requires i0 <= |p| && j <= |s|
    ensures i0 <= i <= |p| && k <= |s|
    ensures Match([Star] + Items(p, i0), s[j..], f) <==> if done then found else Match(Items(p, i), s[k..], f)
    decreases |p| - i0, 2
  {
    hide Match, Bracket;
    i, k := i0, j;
    done, found := true, false;
    while i < |p| && p[i] == '*'
      invariant i0 <= i <= |p|
      invariant Match([Star] + Items(p, i0), s[j..], f) <==> Match([Star] + Items(p, i), s[j..], f)
    {
      OneStep(p, i, s, j, f);
      StarStar(Items(p, i + 1), s[j..], f);
      i := i + 1;
    }
    if i == |p| {
      StarAtEnd(s[j..], f);
      assert [Star] + Items(p, i) == [Star];
      if f.pathname {
        var slash := StrChrSlash(s, j);
        if slash.Some? {
          assert s[j..][slash.value - j] == '/';
        }
        found := f.leadingDir || slash == None;
      } else {
        found := true;
      }
      return;
    }
    assert Items(p, i) == [ItemAt(p, i).0] + Items(p, ItemAt(p, i).1);
    if p[i] == '/' && f.pathname {
      var slash := StrChrSlash(s, j);
      StarSlash(Items(p, i), s[j..], if slash.Some? then slash.value - j else 0, f);
      if slash == None {
        return;
      }
      assert s[j..slash.value] == s[j..][..slash.value - j] && s[slash.value..] == s[j..][slash.value - j..];
      return false, false, i, slash.value;
    }
    found := TryEach(p, i, s, j, f);
  }

  /** The general case: the rest of the pattern is tried from each place the star
      may reach, but not from the end of the string. */
  method TryEach(p: string, i: nat, s: string, j: nat, f: Flags) returns (found: bool)
    requires i < |p| && j <= |s| && p[i] != '*'
    ensures found <==> Match([Star] + Items(p, i), s[j..], f)
    decreases |p| - i, 1
  {
    hide Match, Bracket;
    ghost var rest := Items(p, i);
    var k := j;
    while k < |s|
      invariant j <= k <= |s| && rest == Items(p, i)
      invariant forall m: nat :: m < k - j ==> !Match(rest, s[j..][m..], f)
      invariant f.pathname ==> !HasSlash(s[j..k])
    {
      found := FnmatchFrom(p, i, s, k, f);
      assert s[j..][k - j..] == s[k..];
      if found {
        StarMatches(rest, s[j..], f);
        assert s[j..][..k - j] == s[j..k];
        assert StarAt(rest, s[j..], k - j, f);
        return;
      }
      assert s[j..k + 1] == s[j..k] + [s[k]];
      k := k + 1;
      if s[k - 1] == '/' && f.pathname {
        break;
      }
    }
    StarTried(rest, s[j..], k - j, f);
    found := false;
  }

  /** The matcher accepts exactly the strings of the glob relation. */
  method Fnmatch(pattern: string, s: string, f: Flags) returns (found: bool)
    ensures found <==> Globs(Items(pattern, 0), s, f)
  {
    MatchIsGlobs(Items(pattern, 0), s, f);
    assert s[0..] == s;
    found := FnmatchFrom(pattern, 0, s, 0, f);
  }
}
