/** Keywords in a line: `$Key$` and `$Key: value $`, expanded or collapsed. */
module Keyword {
  import opened Lines

  datatype Mode = KeyValue | KeyOnly | ValueOnly | Old

  /** A keyword with the value it has for the revision at hand, if any. */
  datatype Tag = Tag(ident: string, value: Option<string>)

  /** The enabled keywords, and the lengths of the shortest and the longest default
      keyword. */
  datatype Keywords = Keywords(tags: seq<Tag>, minlen: nat, maxlen: nat)

  /** The first `c` in a string, or its end. */
  function Index(s: string, c: char): (n: nat)
    ensures n <= |s| && (n < |s| ==> s[n] == c) && forall i :: 0 <= i < n ==> s[i] != c
  {
    if s == "" || s[0] == c then 0 else 1 + Index(s[1..], c)
  }

  predicate Lacks(s: string, c: char) {
    forall i :: 0 <= i < |s| ==> s[i] != c
  }

  function Lookup(tags: seq<Tag>, key: string): Option<Tag> {
    if tags == [] then None else if tags[0].ident == key then Some(tags[0]) else Lookup(tags[1..], key)
  }

  // ------------------------------------------------------------- one keyword

  /** What stands at the first dollar sign of a string: nothing more to look at, text
      to be passed over up to a place, or a keyword that ends before a place. */
  datatype At = Nothing | Pass(end: nat) | Key(start: nat, key: string, tag: Tag, end: nat)

  /** The word behind the dollar sign: up to a colon, or the next dollar sign. */
  function Word(body: string): string { body[..Index(body, ':')] }

  function Look(k: Keywords, s: string): (a: At)
    ensures a.Pass? ==> 0 < a.end <= |s|
    ensures a.Key? ==> a.start < a.end <= |s|
  {
    var i := Index(s, '$');
    if i == |s| then Nothing
    else
      var j := Index(s[i + 1..], '$');
      if i + 1 + j == |s| then Nothing
      else
        Decide(k, i, j, Word(s[i + 1..i + 1 + j]))
  }

  /** The word between two dollar signs, the first at `i` and the other `j` further
      on: an enabled keyword, or something to be passed over. */
  function Decide(k: Keywords, i: nat, j: nat, word: string): (a: At)
    ensures !a.Nothing? && (a.Pass? ==> a.end == i + 1 + j)
    ensures a.Key? ==>
              && a.start == i && a.end == i + 1 + j + 1 && a.key == word != ""
              && k.minlen <= |word| <= k.maxlen && Lookup(k.tags, word) == Some(a.tag)
  {
    if word == "" || |word| < k.minlen || |word| > k.maxlen then Pass(i + 1 + j)
    else
      match Lookup(k.tags, word)
      case None => Pass(i + 1 + j)
      case Some(tag) => Key(i, word, tag, i + 1 + j + 1)
  }

  function Value(tag: Tag): string { if tag.value.Some? then tag.value.value else "" }

  function Replacement(mode: Mode, key: string, tag: Tag): string {
    match mode
    case KeyOnly => "$" + key + "$"
    case ValueOnly => Value(tag)
    case _ => "$" + key + ": " + Value(tag) + " $"
  }

  /** The expansion of a line. */
  function Scan(k: Keywords, mode: Mode, s: string): string
    decreases |s|
  {
    match Look(k, s)
    case Nothing => s
    case Pass(end) => s[..end] + Scan(k, mode, s[end..])
    case Key(start, key, tag, end) => s[..start] + (Replacement(mode, key, tag) + Scan(k, mode, s[end..]))
  }

  /** Whether a line has anything to expand. */
  predicate HasKey(k: Keywords, s: string)
    decreases |s|
  {
    match Look(k, s)
    case Nothing => false
    case Pass(end) => HasKey(k, s[end..])
    case Key(_, _, _, _) => true
  }

  function Expand(k: Keywords, mode: Mode, line: string): string {
    if mode == Old then line else Scan(k, mode, line)
  }

  // ------------------------------------------------------------------- the code

  /** The first `c` at or behind `from`. */
  method MemChr(s: string, from: nat, c: char) returns (p: Option<nat>)
    requires from <= |s|
    ensures var n := Index(s[from..], c); p == if from + n == |s| then None else Some(from + n)
  {
    var i := from;
    while i < |s|
      invariant from <= i <= |s| && from + Index(s[from..], c) == i + Index(s[i..], c)
    {
      if s[i] == c {
        return Some(i);
      }
      assert s[i..][1..] == s[i + 1..];
      i := i + 1;
    }
    p := None;
  }

  method Find(tags: seq<Tag>, key: string) returns (tag: Option<Tag>)
    ensures tag == Lookup(tags, key)
  {
    var i := 0;
    assert tags[0..] == tags;
    while i < |tags|
      invariant i <= |tags| && Lookup(tags, key) == Lookup(tags[i..], key)
    {
      if tags[i].ident == key {
        return Some(tags[i]);
      }
      assert tags[i..][1..] == tags[i + 1..];
      i := i + 1;
    }
    tag := None;
  }

  lemma {:induction false} IndexWithin(s: string, j: nat, c: char, d: char)
    requires c != d && j == Index(s, c)
    ensures Index(s[..j], d) == if Index(s, d) < j then Index(s, d) else j
    decreases |s|
  {
    if s != "" && s[0] != c && s[0] != d {
      assert s[..j][1..] == s[1..][..j - 1];
      IndexWithin(s[1..], j - 1, c, d);
    } else if s != "" && s[0] != c {
      assert s[..j][0] == s[0];
    }
  }

  lemma {:induction false} NoDollar(k: Keywords, s: string)
    requires var i := Index(s, '$'); i == |s| || i + 1 + Index(s[i + 1..], '$') == |s|
    ensures Look(k, s).Nothing?
  {
    hide Index, Decide, Word;
  }

  lemma {:induction false} LookAs(k: Keywords, s: string, i: nat, j: nat)
    requires i == Index(s, '$') < |s| && j == Index(s[i + 1..], '$') && i + 1 + j < |s|
    ensures Look(k, s) == Decide(k, i, j, Word(s[i + 1..i + 1 + j]))
  {
    hide Index, Decide, Word;
  }

  /** The word ends at the first colon of the line, if that is before the dollar sign. */
  lemma {:induction false} WordCut(line: string, cp: nat, keystart: nat, j: nat)
    requires cp <= keystart <= |line| && j == Index(line[keystart..], '$') && keystart + j <= |line|
    ensures var colon := Index(line[keystart..], ':');
            Word(line[cp..][keystart - cp..keystart - cp + j]) ==
            line[keystart..keystart + if colon < j then colon else j]
  {
    hide Index, Lacks;
    var t := line[keystart..];
    IndexWithin(t, j, '$', ':');
    assert line[cp..][keystart - cp..keystart - cp + j] == t[..j];
    var n := Index(t[..j], ':');
    assert t[..j][..n] == line[keystart..keystart + n];
  }

  /** The word between two dollar signs, taken up and looked for. */
  method DecideAt(k: Keywords, line: string, i: nat, keystart: nat, vallim: nat) returns (a: At)
    requires keystart <= vallim <= |line|
    ensures var j, colon := vallim - keystart, Index(line[keystart..], ':');
            a == Decide(k, i, j, line[keystart..keystart + if colon < j then colon else j])
  {
    hide Index, Lookup;
    var pass := Pass(i + 1 + (vallim - keystart));
    if vallim == keystart {
      return pass;
    }
    var colon := MemChr(line, keystart, ':');
    if colon == Some(keystart) {
      return pass;
    }
    var valstart := if colon == None || colon.value > vallim then vallim else colon.value;
    if valstart < keystart + k.minlen || valstart > keystart + k.maxlen {
      return pass;
    }
    var tag := Find(k.tags, line[keystart..valstart]);
    if tag == None {
      return pass;
    }
    a := Key(i, line[keystart..valstart], tag.value, i + 1 + (vallim - keystart) + 1);
  }

  /** What stands at the next dollar sign behind `cp`, found as the code does. */
  method LookAt(k: Keywords, line: string, cp: nat) returns (a: At)
    requires cp <= |line|
    ensures a == Look(k, line[cp..])
  {
    hide Index, Lookup, Word, Look, Decide;
    ghost var s := line[cp..];
    var dollar := MemChr(line, cp, '$');
    if dollar == None {
      NoDollar(k, s);
      return Nothing;
    }
    var keystart := dollar.value + 1;
    assert s[keystart - cp..] == line[keystart..];
    var vallim := MemChr(line, keystart, '$');
    if vallim == None {
      NoDollar(k, s);
      return Nothing;
    }
    LookAs(k, s, dollar.value - cp, vallim.value - keystart);
    WordCut(line, cp, keystart, vallim.value - keystart);
    a := DecideAt(k, line, dollar.value - cp, keystart, vallim.value);
  }

  lemma {:induction false} Moved(line: string, cp: nat, end: nat, rest: string)
    requires cp + end <= |line|
    ensures line[..cp] + (line[cp..][..end] + rest) == line[..cp + end] + rest && line[cp..][end..] == line[cp + end..]
  {
    assert line[..cp + end] == line[..cp] + line[cp..][..end];
  }

  lemma {:induction false} HasKeyIs(k: Keywords, line: string, cp: nat)
    requires cp <= |line|
    ensures var a := Look(k, line[cp..]);
            HasKey(k, line[cp..]) <==> a.Key? || (a.Pass? && HasKey(k, line[cp + a.end..]))
  {
    hide Look;
    var a := Look(k, line[cp..]);
    if a.Pass? {
      assert line[cp..][a.end..] == line[cp + a.end..];
    }
  }

  /** What `found` says about the line, when `newline` is left from `cp` on. */
  ghost predicate Told(k: Keywords, line: string, newline: string, cp: nat, found: bool, more: bool)
    requires cp <= |newline|
  {
    if found then HasKey(k, line) else newline == line && (HasKey(k, line) <==> more && HasKey(k, newline[cp..]))
  }

  lemma {:induction false} Tell(k: Keywords, line: string, newline: string, cp: nat, found: bool, next: string, to: nat)
    requires cp <= |newline| && to <= |next| && Told(k, line, newline, cp, found, true)
    requires !Look(k, newline[cp..]).Key? ==> next == newline
    requires Look(k, newline[cp..]).Pass? ==> to == cp + Look(k, newline[cp..]).end
    ensures var a := Look(k, newline[cp..]); Told(k, line, next, to, found || a.Key?, !a.Nothing?)
  {
    hide Look, HasKey;
    HasKeyIs(k, newline, cp);
  }

  /** Expands the keywords of a line; says whether there were any. */
  method KeywordExpand(k: Keywords, mode: Mode, line: string) returns (found: bool, newline: string)
    ensures newline == Expand(k, mode, line)
    ensures found <==> mode != Old && HasKey(k, line)
    ensures !found ==> newline == line
  {
    found, newline := false, line;
    if mode == Old {
      return;
    }
    var cp: nat := 0;
    Begin(k, mode, line);
    var more := true;
    assert Told(k, line, newline, cp, found, more) by { assert line[0..] == line; }
    hide Done, Scan, Told, Look, HasKey;
    while more
      invariant cp <= |newline| && if more then Done(k, mode, line, newline, cp) else newline == Scan(k, mode, line)
      invariant Told(k, line, newline, cp, found, more)
      decreases more, |newline| - cp
    {
      var a := LookAt(k, newline, cp);
      ghost var before, at, had := newline, cp, found;
      if a.Key? {
        found := true;
      }
      more, newline, cp := Advance(k, mode, line, newline, cp, a);
      Tell(k, line, before, at, had, newline, cp);
    }
    ToldLast(k, line, newline, cp, found);
  }

  lemma {:induction false} ToldLast(k: Keywords, line: string, newline: string, cp: nat, found: bool)
    requires cp <= |newline| && Told(k, line, newline, cp, found, false)
    ensures (found <==> HasKey(k, line)) && (!found ==> newline == line)
  {
    hide HasKey;
  }

  /** One step along the line. */
  method Advance(k: Keywords, mode: Mode, ghost line: string, old_line: string, at: nat, a: At)
      returns (more: bool, newline: string, cp: nat)
    requires at <= |old_line| && a == Look(k, old_line[at..]) && Done(k, mode, line, old_line, at)
    ensures cp <= |newline| && (!a.Key? ==> newline == old_line) && (more <==> !a.Nothing?)
    ensures a.Pass? ==> cp == at + a.end
    ensures if more then |newline| - cp < |old_line| - at && Done(k, mode, line, newline, cp)
            else newline == Scan(k, mode, line)
  {
    hide Done, Look, Scan, Index, Lookup, Decide, Word, Replacement;
    more, newline, cp := true, old_line, at;
    match a
    case Nothing =>
      End(k, mode, line, newline, cp);
      more := false;
    case Pass(end) =>
      PassStep(k, mode, line, newline, cp);
      cp := cp + end;
    case Key(_, _, _, _) =>
      newline, cp := Replace(k, mode, line, newline, cp, a);
  }

  /** The line with a keyword replaced, and the place behind it. */
  method Replace(k: Keywords, mode: Mode, ghost line: string, old_line: string, at: nat, a: At)
      returns (newline: string, cp: nat)
    requires at <= |old_line| && a == Look(k, old_line[at..]) && a.Key? && Done(k, mode, line, old_line, at)
    ensures cp <= |newline| && |newline| - cp < |old_line| - at && Done(k, mode, line, newline, cp)
  {
    hide Done, Look, Replacement, Scan, Index, Lookup, Decide, Word;
    KeyStep(k, mode, line, old_line, at);
    var head := old_line[..at + a.start] + Replacement(mode, a.key, a.tag);
    newline, cp := head + old_line[at + a.end..], |head|;
  }

  /** What is before `cp` has been dealt with. */
  ghost predicate Done(k: Keywords, mode: Mode, line: string, newline: string, cp: nat)
    requires cp <= |newline|
  {
    Scan(k, mode, line) == newline[..cp] + Scan(k, mode, newline[cp..])
  }

  lemma {:induction false} Begin(k: Keywords, mode: Mode, line: string)
    ensures Done(k, mode, line, line, 0)
  {
    assert line[0..] == line && line[..0] + Scan(k, mode, line) == Scan(k, mode, line);
  }

  lemma {:induction false} End(k: Keywords, mode: Mode, line: string, newline: string, cp: nat)
    requires cp <= |newline| && Done(k, mode, line, newline, cp) && Look(k, newline[cp..]).Nothing?
    ensures Scan(k, mode, line) == newline
  {
    ScanIs(k, mode, newline[cp..]);
    assert newline[..cp] + newline[cp..] == newline;
  }

  lemma {:induction false} PassStep(k: Keywords, mode: Mode, line: string, newline: string, cp: nat)
    requires cp <= |newline| && Done(k, mode, line, newline, cp) && Look(k, newline[cp..]).Pass?
    ensures Done(k, mode, line, newline, cp + Look(k, newline[cp..]).end)
  {
    hide Look, Scan, Index, Lookup, Decide, Word, Replacement;
    var s := newline[cp..];
    ScanIs(k, mode, s);
    Moved(newline, cp, Look(k, s).end, Scan(k, mode, s[Look(k, s).end..]));
  }

  lemma {:induction false} KeyStep(k: Keywords, mode: Mode, line: string, newline: string, cp: nat)
    requires cp <= |newline| && Done(k, mode, line, newline, cp) && Look(k, newline[cp..]).Key?
    ensures var a := Look(k, newline[cp..]);
            var head := newline[..cp + a.start] + Replacement(mode, a.key, a.tag);
            Done(k, mode, line, head + newline[cp + a.end..], |head|)
  {
    hide Look, Scan, Replacement, Index, Lookup, Decide, Word, Done;
    var s, a := newline[cp..], Look(k, newline[cp..]);
    var text, rest := Replacement(mode, a.key, a.tag), Scan(k, mode, s[a.end..]);
    ScanIs(k, mode, s);
    KeyMoved(newline, cp, a.start, a.end, text, rest);
    DoneIs(k, mode, line, newline, cp);
    var head := newline[..cp + a.start] + text;
    assert Scan(k, mode, line) == head + rest;
    DoneIs(k, mode, line, head + newline[cp + a.end..], |head|);
  }

  lemma {:induction false} DoneIs(k: Keywords, mode: Mode, line: string, newline: string, cp: nat)
    requires cp <= |newline|
    ensures Done(k, mode, line, newline, cp) <==>
            Scan(k, mode, line) == newline[..cp] + Scan(k, mode, newline[cp..])
  {
    hide Scan;
  }

  lemma {:induction false} ScanIs(k: Keywords, mode: Mode, s: string)
    ensures Scan(k, mode, s) ==
            match Look(k, s)
            case Nothing => s
            case Pass(end) => s[..end] + Scan(k, mode, s[end..])
            case Key(start, key, tag, end) => s[..start] + (Replacement(mode, key, tag) + Scan(k, mode, s[end..]))
  {
    hide Look, Replacement;
  }

  lemma {:induction false} KeyMoved(line: string, cp: nat, start: nat, end: nat, text: string, rest: string)
    requires start < end && cp + end <= |line|
    ensures line[cp..][end..] == line[cp + end..]
    ensures line[..cp] + (line[cp..][..start] + (text + rest)) == line[..cp + start] + text + rest
    ensures var head := line[..cp + start] + text;
            (head + line[cp + end..])[..|head|] == head && (head + line[cp + end..])[|head|..] == line[cp + end..]
  {
    assert line[..cp + start] == line[..cp] + line[cp..][..start];
  }

  // ---------------------------------------------------------------------- laws

  lemma {:induction false} IndexPlus(a: string, b: string, c: char)
    requires Lacks(a, c)
    ensures Index(a + b, c) == |a| + Index(b, c)
  {
    if a == "" {
      assert a + b == b;
    } else {
      assert (a + b)[1..] == a[1..] + b;
      IndexPlus(a[1..], b, c);
    }
  }

  /** A line in parts: no dollar sign, one, no dollar sign, and what comes from the
      second one on. */
  function Whole(p: string, body: string, rest: string): string {
    p + ("$" + (body + rest))
  }

  predicate Parts(p: string, body: string, rest: string) {
    Lacks(p, '$') && Lacks(body, '$') && rest != "" && rest[0] == '$'
  }

  lemma {:induction false} WholeCut(p: string, body: string, rest: string)
    requires rest != ""
    ensures var s, n := Whole(p, body, rest), |p| + 1 + |body|;
            && |s| == n + |rest| && s[|p|] == '$' && s[|p| + 1..] == body + rest && s[|p| + 1..n] == body
            && s[..|p|] == p && s[..n] == p + ("$" + body) && s[n..] == rest && s[n + 1..] == rest[1..]
    ensures p + ("$" + body) + rest == Whole(p, body, rest)
  {
  }

  lemma {:induction false} LookWhole(k: Keywords, p: string, body: string, rest: string)
    requires Parts(p, body, rest)
    ensures Look(k, Whole(p, body, rest)) == Decide(k, |p|, |body|, Word(body))
  {
    hide Look, Decide, Word, Lacks, Index, Whole, Lookup;
    IndexWhole(p, body, rest);
    WholeCut(p, body, rest);
    LookAs(k, Whole(p, body, rest), |p|, |body|);
  }

  lemma {:induction false} IndexWhole(p: string, body: string, rest: string)
    requires Parts(p, body, rest)
    ensures Index(Whole(p, body, rest), '$') == |p| && Index(body + rest, '$') == |body|
  {
    WholeIs(p, body, rest);
    IndexPlus(p, "$" + (body + rest), '$');
    IndexPlus(body, rest, '$');
    hide Lacks, Whole;
  }

  lemma {:induction false} WholeIs(p: string, body: string, rest: string)
    ensures Whole(p, body, rest) == p + ("$" + (body + rest)) && ("$" + (body + rest))[0] == '$'
  {
  }

  lemma {:induction false} ScanWhole(k: Keywords, mode: Mode, p: string, body: string, rest: string)
    requires Parts(p, body, rest)
    ensures var d := Decide(k, |p|, |body|, Word(body));
            Scan(k, mode, Whole(p, body, rest)) ==
            if d.Pass? then p + ("$" + body) + Scan(k, mode, rest)
            else p + (Replacement(mode, d.key, d.tag) + Scan(k, mode, rest[1..]))
  {
    hide Look, Decide, Word, Lacks, Replacement, Whole, Scan, Index, Lookup;
    LookWhole(k, p, body, rest);
    WholeCut(p, body, rest);
    ScanIs(k, mode, Whole(p, body, rest));
  }

  /** A line with two dollar signs, cut at them. */
  lemma {:induction false} Cut(k: Keywords, s: string) returns (p: string, body: string, rest: string)
    requires !Look(k, s).Nothing?
    ensures Parts(p, body, rest) && s == Whole(p, body, rest) && |rest| < |s|
  {
    hide Index, Decide, Word, Whole;
    var i := Index(s, '$');
    var t := s[i + 1..];
    var j := Index(t, '$');
    assert i < |s| && j < |t|;
    CutWhole(s, i, j);
    p, body, rest := s[..i], t[..j], t[j..];
  }

  lemma {:induction false} CutWhole(s: string, i: nat, j: nat)
    requires i < |s| && s[i] == '$' && i + 1 + j <= |s|
    ensures s == Whole(s[..i], s[i + 1..][..j], s[i + 1..][j..])
  {
    var t := s[i + 1..];
    assert t == t[..j] + t[j..] && s[i..] == "$" + t && s == s[..i] + s[i..];
  }

  /** What is expanded or collapsed still begins with a dollar sign. */
  lemma {:induction false} DollarStays(k: Keywords, mode: Mode, s: string)
    requires s != "" && s[0] == '$' && !mode.ValueOnly?
    ensures Scan(k, mode, s) != "" && Scan(k, mode, s)[0] == '$'
  {
    assert Index(s, '$') == 0;
    hide Word;
  }

  /** What is between the dollar signs of a keyword. */
  function Body(mode: Mode, key: string, tag: Tag): string {
    if mode.KeyOnly? then key else key + (": " + Value(tag) + " ")
  }

  lemma {:induction false} BodyWord(key: string, more: string)
    requires Lacks(key, ':') && (more == "" || more[0] == ':')
    ensures Word(key + more) == key
  {
    IndexPlus(key, more, ':');
    assert (key + more)[..|key|] == key;
  }

  lemma {:induction false} LacksPlus(a: string, b: string, c: char)
    requires Lacks(a, c) && Lacks(b, c)
    ensures Lacks(a + b, c)
  {
  }

  /** What stands for a keyword is that keyword again. */
  lemma {:induction false} BodyIs(mode: Mode, key: string, tag: Tag)
    requires (mode.KeyOnly? || mode.KeyValue?) && Lacks(key, '$') && Lacks(key, ':') && Lacks(Value(tag), '$')
    ensures Lacks(Body(mode, key, tag), '$') && Word(Body(mode, key, tag)) == key
  {
    var tail := ": " + Value(tag) + " ";
    assert Lacks(": ", '$') && Lacks(" ", '$');
    hide Lacks, Word, Value, Index;
    if mode.KeyOnly? {
      assert key + "" == key;
      BodyWord(key, "");
    } else {
      LacksPlus(": ", Value(tag), '$');
      LacksPlus(": " + Value(tag), " ", '$');
      LacksPlus(key, tail, '$');
      BodyWord(key, tail);
    }
  }

  lemma {:induction false} ReplacedWhole(mode: Mode, key: string, tag: Tag, p: string, rest: string)
    requires mode.KeyOnly? || mode.KeyValue?
    ensures p + (Replacement(mode, key, tag) + rest) == Whole(p, Body(mode, key, tag), "$" + rest)
  {
    var body := Body(mode, key, tag);
    assert Replacement(mode, key, tag) == "$" + (body + "$");
    assert "$" + (body + "$") + rest == "$" + (body + ("$" + rest));
  }

  lemma {:induction false} WordClean(body: string)
    requires Lacks(body, '$')
    ensures Lacks(Word(body), '$') && Lacks(Word(body), ':')
  {
  }

  /** A keyword that a line can be expanded for. */
  predicate Enabled(k: Keywords, key: string) {
    && key != "" && k.minlen <= |key| <= k.maxlen && Lacks(key, '$') && Lacks(key, ':')
    && Lookup(k.tags, key).Some?
  }

  /** No enabled keyword has a dollar sign in its value. */
  ghost predicate CleanValues(k: Keywords) {
    forall key: string :: Enabled(k, key) ==> Lacks(Value(Lookup(k.tags, key).value), '$')
  }

  lemma {:induction false} SameDecision(k: Keywords, p: string, body: string, body2: string)
    requires Word(body) == Word(body2)
    ensures var d, d2 := Decide(k, |p|, |body|, Word(body)), Decide(k, |p|, |body2|, Word(body2));
            (d.Key? <==> d2.Key?) && (d.Key? ==> d2.key == d.key && d2.tag == d.tag)
  {
    hide Word;
  }

  /** Expanding or collapsing first makes no difference to what is done next. */
  lemma {:induction false} ScanAgain(k: Keywords, first: Mode, second: Mode, s: string)
    requires (first.KeyOnly? || first.KeyValue?) && CleanValues(k)
    ensures Scan(k, second, Scan(k, first, s)) == Scan(k, second, s)
    decreases |s|
  {
    hide Look, Decide, Word, Lookup, Replacement, Index, Whole, Lacks, Scan, Body, CleanValues, Value;
    if Look(k, s).Nothing? {
      ScanIs(k, first, s);
    } else {
      var p, body, rest := Cut(k, s);
      ScanWhole(k, first, p, body, rest);
      ScanWhole(k, second, p, body, rest);
      if Decide(k, |p|, |body|, Word(body)).Pass? {
        ScanAgain(k, first, second, rest);
        DollarStays(k, first, rest);
        WholeCut(p, body, Scan(k, first, rest));
        ScanWhole(k, second, p, body, Scan(k, first, rest));
      } else {
        ScanAgain(k, first, second, rest[1..]);
        KeyAgain(k, first, second, p, body, Scan(k, first, rest[1..]));
      }
    }
  }

  lemma {:induction false} KeyAgain(k: Keywords, first: Mode, second: Mode, p: string, body: string, rest: string)
    requires (first.KeyOnly? || first.KeyValue?) && CleanValues(k) && Lacks(p, '$') && Lacks(body, '$')
    requires Decide(k, |p|, |body|, Word(body)).Key?
    ensures var d := Decide(k, |p|, |body|, Word(body));
            Scan(k, second, p + (Replacement(first, d.key, d.tag) + rest)) ==
            p + (Replacement(second, d.key, d.tag) + Scan(k, second, rest))
  {
    var d := Decide(k, |p|, |body|, Word(body));
    WordClean(body);
    assert Enabled(k, d.key);
    hide Look, Decide, Word, Lookup, Replacement, Index, Whole, Lacks, Scan, Body, CleanValues, Value;
    var b := Body(first, d.key, d.tag);
    BodyIs(first, d.key, d.tag);
    SameDecision(k, p, body, b);
    ReplacedWhole(first, d.key, d.tag, p, rest);
    ScanWhole(k, second, p, b, "$" + rest);
    assert ("$" + rest)[1..] == rest;
  }

  /** When no value holds a dollar sign, a line may be expanded or collapsed first: that
      makes no difference to what is done next. */
  lemma {:induction false} ExpandLaws(k: Keywords, line: string)
    requires CleanValues(k)
    ensures Expand(k, KeyValue, Expand(k, KeyValue, line)) == Expand(k, KeyValue, line)
    ensures Expand(k, KeyOnly, Expand(k, KeyOnly, line)) == Expand(k, KeyOnly, line)
    ensures Expand(k, KeyOnly, Expand(k, KeyValue, line)) == Expand(k, KeyOnly, line)
    ensures Expand(k, KeyValue, Expand(k, KeyOnly, line)) == Expand(k, KeyValue, line)
    ensures Expand(k, ValueOnly, Expand(k, KeyValue, line)) == Expand(k, ValueOnly, line)
  {
    hide CleanValues, Scan;
    ScanAgain(k, KeyValue, KeyValue, line);
    ScanAgain(k, KeyOnly, KeyOnly, line);
    ScanAgain(k, KeyValue, KeyOnly, line);
    ScanAgain(k, KeyOnly, KeyValue, line);
    ScanAgain(k, KeyValue, ValueOnly, line);
  }

  lemma {:induction false} StaysNonEmpty(k: Keywords, s: string)
    requires s != ""
    ensures Scan(k, KeyValue, s) != ""
  {
    hide Scan, Look;
    ScanIs(k, KeyValue, s);
  }

  lemma {:induction false} EnabledKey(k: Keywords, key: string, body: string)
    requires Enabled(k, key) && Word(body) == key
    ensures var d := Decide(k, 0, |body|, Word(body)); d.Key? && d.key == key && d.tag == Lookup(k.tags, key).value
  {
    hide Lookup, Word, Lacks;
  }

  /** The keyword alone, between dollar signs, once expanded. */
  lemma {:induction false} ExpandedOnce(k: Keywords, key: string)
    requires Enabled(k, key)
    ensures Scan(k, KeyValue, "$" + key + "$") == Replacement(KeyValue, key, Lookup(k.tags, key).value)
  {
    assert Lacks("", '$');
    hide Lookup, Decide, Scan, Replacement, Lacks, Word;
    var tag := Lookup(k.tags, key).value;
    BodyWord(key, "");
    assert key + "" == key;
    EnabledKey(k, key, key);
    ScanWhole(k, KeyValue, "", key, "$");
    assert Whole("", key, "$") == "$" + key + "$";
    ScanIs(k, KeyValue, "");
    assert "$"[1..] == "";
    assert "" + (Replacement(KeyValue, key, tag) + "") == Replacement(KeyValue, key, tag);
  }

  /** A keyword whose value holds a dollar sign: what is behind that is taken for text
      once the keyword is expanded, so expanding again makes the line longer. */
  lemma {:induction false} ExpandedTwice(k: Keywords, key: string)
    requires Enabled(k, key) && !Lacks(Value(Lookup(k.tags, key).value), '$')
    ensures var once := Scan(k, KeyValue, "$" + key + "$"); Scan(k, KeyValue, once) != once
  {
    var tag := Lookup(k.tags, key).value;
    var v := Value(tag);
    var i := Index(v, '$');
    assert i < |v| && Lacks(v[..i], '$') && v[i] == '$' && Lacks("", '$') && Lacks(": ", '$');
    hide Lookup, Decide, Scan, Lacks, Word, Index, Value;
    ExpandedOnce(k, key);
    var tail := ": " + v[..i];
    var body, rest := key + tail, v[i..] + " $";
    LacksPlus(": ", v[..i], '$');
    LacksPlus(key, tail, '$');
    BodyWord(key, tail);
    EnabledKey(k, key, body);
    TwiceWhole(key, tag, i);
    ScanWhole(k, KeyValue, "", body, rest);
    StaysNonEmpty(k, rest[1..]);
  }

  lemma {:induction false} TwiceWhole(key: string, tag: Tag, i: nat)
    requires i < |Value(tag)|
    ensures Replacement(KeyValue, key, tag) == Whole("", key + (": " + Value(tag)[..i]), Value(tag)[i..] + " $")
  {
    hide Value;
    var v := Value(tag);
    assert v == v[..i] + v[i..];
  }

  /** Expanding is idempotent exactly when no enabled keyword has a dollar sign in its
      value. */
  lemma {:induction false} IdempotentExactly(k: Keywords)
    ensures CleanValues(k) <==>
            forall line :: Expand(k, KeyValue, Expand(k, KeyValue, line)) == Expand(k, KeyValue, line)
  {
    if CleanValues(k) {
      forall line ensures Expand(k, KeyValue, Expand(k, KeyValue, line)) == Expand(k, KeyValue, line) {
        ExpandLaws(k, line);
      }
    } else {
      hide Lookup, Lacks, Value, Scan;
      var key: string :| Enabled(k, key) && !Lacks(Value(Lookup(k.tags, key).value), '$');
      ExpandedTwice(k, key);
      var line := "$" + key + "$";
      assert Expand(k, KeyValue, Expand(k, KeyValue, line)) != Expand(k, KeyValue, line);
    }
  }
}
