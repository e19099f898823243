/** What an expanded line looks like, byte by byte. */
module KeywordForms {
  import opened Lines
  import opened Keyword

  /** `key` is the name of an enabled keyword, whose tag is the one at `t`. */
  predicate Named(k: Keywords, t: nat, key: string) {
    && t < |k.tags| && k.tags[t].ident == key && (forall u :: 0 <= u < t ==> k.tags[u].ident != key)
    && key != "" && k.minlen <= |key| <= k.maxlen && '$' !in key && ':' !in key
  }

  /** Between dollar signs stands a keyword, alone or with a colon behind it. */
  ghost predicate Names(k: Keywords, body: string) {
    exists n: nat, t: nat :: n <= |body| && Named(k, t, body[..n]) && (n < |body| ==> body[n] == ':')
  }

  /** A keyword stands between the dollar signs at `i` and `j`, with none in between. */
  ghost predicate KeywordAt(k: Keywords, s: string, i: nat, j: nat) {
    && i < j < |s| && s[i] == '$' == s[j] && '$' !in s[i + 1..j] && Names(k, s[i + 1..j])
  }

  ghost predicate NoKeyword(k: Keywords, s: string) {
    forall i: nat, j: nat :: !KeywordAt(k, s, i, j)
  }

  /** A line cut at its first keyword. */
  ghost predicate FirstAt(k: Keywords, p: string, key: string, t: nat, more: string) {
    Named(k, t, key) && '$' !in more && (more == "" || more[0] == ':') && NoKeyword(k, p + "$")
  }

  // ---------------------------------------------------------------- which words count

  lemma {:induction false} LookupAt(tags: seq<Tag>, key: string, t: nat)
    requires t < |tags| && tags[t].ident == key && forall u :: 0 <= u < t ==> tags[u].ident != key
    ensures Lookup(tags, key) == Some(tags[t])
  {
    if t > 0 {
      assert tags[0].ident != key;
      LookupAt(tags[1..], key, t - 1);
    }
  }

  lemma {:induction false} LookupFrom(tags: seq<Tag>, key: string) returns (t: nat)
    requires Lookup(tags, key).Some?
    ensures t < |tags| && tags[t].ident == key && forall u :: 0 <= u < t ==> tags[u].ident != key
  {
    if tags[0].ident == key {
      t := 0;
    } else {
      t := LookupFrom(tags[1..], key);
      t := t + 1;
    }
  }

  lemma {:induction false} NamedWord(k: Keywords, key: string, t: nat, more: string, i: nat)
    requires Named(k, t, key) && (more == "" || more[0] == ':')
    ensures Word(key + more) == key
    ensures var d := Decide(k, i, |key + more|, Word(key + more)); d.Key? && d.key == key && d.tag == k.tags[t]
  {
    LookupAt(k.tags, key, t);
    BodyWord(key, more);
    hide Lookup, Word;
  }

  lemma {:induction false} NamesDecides(k: Keywords, body: string, i: nat)
    requires '$' !in body
    ensures Names(k, body) <==> Decide(k, i, |body|, Word(body)).Key?
  {
    if Names(k, body) {
      var n: nat, t: nat :| n <= |body| && Named(k, t, body[..n]) && (n < |body| ==> body[n] == ':');
      assert body == body[..n] + body[n..];
      NamedWord(k, body[..n], t, body[n..], i);
    }
    if Decide(k, i, |body|, Word(body)).Key? {
      var n := Index(body, ':');
      var t := LookupFrom(k.tags, body[..n]);
      assert Named(k, t, body[..n]);
    }
  }

  // ----------------------------------------------------------------------- the first

  lemma {:induction false} Later(k: Keywords, s: string, n: nat)
    requires n <= |s| && NoKeyword(k, s)
    ensures NoKeyword(k, s[n..])
  {
    hide Names;
    forall i: nat, j: nat ensures !KeywordAt(k, s[n..], i, j) {
      assert !KeywordAt(k, s, n + i, n + j);
      if i < j < |s[n..]| {
        assert s[n..][i + 1..j] == s[n + i + 1..n + j];
      }
    }
  }

  lemma {:induction false} NotHere(k: Keywords, a: string, b: string, rest: string)
    requires '$' !in a && '$' !in b && rest != "" && rest[0] == '$' && NoKeyword(k, Whole(a, b, rest))
    ensures Decide(k, |a|, |b|, Word(b)).Pass?
  {
    hide Names, Decide, Word;
    NamesDecides(k, b, |a|);
    WholeCut(a, b, rest);
    assert !KeywordAt(k, Whole(a, b, rest), |a|, |a| + 1 + |b|);
  }

  lemma {:induction false} FirstHere(
      k: Keywords, mode: Mode, p: string, key: string, t: nat, more: string, rest: string)
    requires FirstAt(k, p, key, t, more) && '$' !in p
    ensures t < |k.tags|
    ensures Scan(k, mode, Whole(p, key + more, "$" + rest)) ==
            p + (Replacement(mode, key, k.tags[t]) + Scan(k, mode, rest))
  {
    KeyClean(k, t, key);
    NamedWord(k, key, t, more, |p|);
    hide Scan, Replacement, Decide, Word, Index, Named, NoKeyword, Whole;
    ScanWhole(k, mode, p, key + more, "$" + rest);
    assert ("$" + rest)[1..] == rest;
  }

  lemma Joined(a: string, b: string, c: string)
    ensures a + (b + c) == a + b + c
  {
  }

  /** Nothing before the first keyword is changed. */
  lemma {:induction false} ScanFirst(
      k: Keywords, mode: Mode, p: string, key: string, t: nat, more: string, rest: string)
    requires FirstAt(k, p, key, t, more)
    ensures t < |k.tags|
    ensures Scan(k, mode, Whole(p, key + more, "$" + rest)) ==
            p + (Replacement(mode, key, k.tags[t]) + Scan(k, mode, rest))
    decreases |p|
  {
    KeyClean(k, t, key);
    hide Scan, Replacement, Decide, Word, Index, Named, NoKeyword, Whole;
    if Index(p, '$') == |p| {
      FirstHere(k, mode, p, key, t, more, rest);
    } else {
      var a, b, p2 := Split(p);
      var tail := Whole(p2, key + more, "$" + rest);
      Apart(a, b, p2, key + more, "$" + rest);
      WholeStarts(p2, key + more, "$" + rest);
      EndsSplit(k, a, b, p2);
      ScanWhole(k, mode, a, b, tail);
      ScanFirst(k, mode, p2, key, t, more, rest);
      Joined(a + ("$" + b), p2, Replacement(mode, key, k.tags[t]) + Scan(k, mode, rest));
    }
  }

  lemma KeyClean(k: Keywords, t: nat, key: string)
    requires Named(k, t, key)
    ensures '$' !in key && t < |k.tags|
  {
  }

  /** A text with a dollar sign: what is before it, and up to the next one or the end. */
  lemma {:induction false} Split(p: string) returns (a: string, b: string, p2: string)
    requires Index(p, '$') < |p|
    ensures '$' !in a && '$' !in b && (p2 != "" ==> p2[0] == '$') && p == a + ("$" + b) + p2 && |p2| < |p|
  {
    hide Index;
    var i := Index(p, '$');
    var t := p[i + 1..];
    var j := Index(t, '$');
    a, b, p2 := p[..i], t[..j], t[j..];
    Rejoined(p, i, j);
  }

  lemma {:induction false} Rejoined(p: string, i: nat, j: nat)
    requires i < |p| && p[i] == '$' && i + 1 + j <= |p|
    ensures p == p[..i] + ("$" + p[i + 1..][..j]) + p[i + 1..][j..]
  {
    assert p[i + 1..] == p[i + 1..][..j] + p[i + 1..][j..];
    assert p == p[..i] + ("$" + p[i + 1..]);
  }

  lemma {:induction false} Apart(a: string, b: string, p2: string, body: string, rest: string)
    ensures Whole(a + ("$" + b) + p2, body, rest) == Whole(a, b, Whole(p2, body, rest))
  {
  }

  lemma {:induction false} WholeStarts(p: string, body: string, rest: string)
    requires p != "" ==> p[0] == '$'
    ensures Whole(p, body, rest) != "" && Whole(p, body, rest)[0] == '$'
  {
  }

  lemma {:induction false} EndsSplit(k: Keywords, a: string, b: string, p2: string)
    requires '$' !in a && '$' !in b && (p2 != "" ==> p2[0] == '$') && NoKeyword(k, a + ("$" + b) + p2 + "$")
    ensures Decide(k, |a|, |b|, Word(b)).Pass? && NoKeyword(k, p2 + "$")
  {
    hide KeywordAt, Decide, Word;
    var s := a + ("$" + b) + p2 + "$";
    assert s == Whole(a, b, p2 + "$");
    NotHere(k, a, b, p2 + "$");
    Later(k, s, |a| + 1 + |b|);
    assert s[|a| + 1 + |b|..] == p2 + "$";
  }

  /** A line without a keyword stays as it is. */
  lemma {:induction false} Unchanged(k: Keywords, mode: Mode, s: string)
    requires NoKeyword(k, s)
    ensures Scan(k, mode, s) == s
    decreases |s|
  {
    hide Look, Decide, Word, Lookup, Replacement, Index, Whole, Scan, NoKeyword;
    ScanIs(k, mode, s);
    if !Look(k, s).Nothing? {
      var p, body, rest := Cut(k, s);
      NotHere(k, p, body, rest);
      ScanWhole(k, mode, p, body, rest);
      WholeCut(p, body, rest);
      Later(k, s, |p| + 1 + |body|);
      Unchanged(k, mode, rest);
    }
  }

  // -------------------------------------------------------------------- the theorems

  /** What a line becomes that is cut at its first keyword: the text before stays, the
      keyword is written out with the value it has, if any, and the same goes for what is
      behind it. */
  lemma {:induction false} Forms(k: Keywords, p: string, key: string, t: nat, more: string, rest: string)
    requires FirstAt(k, p, key, t, more)
    ensures t < |k.tags|
    ensures var line, tag := p + "$" + key + more + "$" + rest, k.tags[t];
            var value := if tag.value == None then "" else tag.value.value;
            && Expand(k, KeyValue, line) == p + "$" + key + ": " + value + " $" + Expand(k, KeyValue, rest)
            && Expand(k, KeyOnly, line) == p + "$" + key + "$" + Expand(k, KeyOnly, rest)
            && Expand(k, ValueOnly, line) == p + value + Expand(k, ValueOnly, rest)
            && Expand(k, Old, line) == line
  {
    hide FirstAt, Scan, Replacement;
    assert Whole(p, key + more, "$" + rest) == p + "$" + key + more + "$" + rest;
    ScanFirst(k, KeyValue, p, key, t, more, rest);
    ScanFirst(k, KeyOnly, p, key, t, more, rest);
    ScanFirst(k, ValueOnly, p, key, t, more, rest);
    hide Whole;
    Written(k, key, k.tags[t], p);
  }

  lemma {:induction false} Written(k: Keywords, key: string, tag: Tag, p: string)
    ensures var value := if tag.value == None then "" else tag.value.value;
            forall rest: string ::
              && p + (Replacement(KeyValue, key, tag) + rest) == p + "$" + key + ": " + value + " $" + rest
              && p + (Replacement(KeyOnly, key, tag) + rest) == p + "$" + key + "$" + rest
              && p + (Replacement(ValueOnly, key, tag) + rest) == p + value + rest
  {
  }

  /** Every line with a keyword can be cut so, and one without is not changed. */
  lemma {:induction false} FirstCut(k: Keywords, line: string, i: nat, j: nat)
      returns (p: string, key: string, t: nat, more: string, rest: string)
    requires KeywordAt(k, line, i, j)
    ensures FirstAt(k, p, key, t, more) && line == p + "$" + key + more + "$" + rest
    decreases j
  {
    if !NoKeyword(k, line[..i + 1]) {
      hide Names;
      var i2: nat, j2: nat :| KeywordAt(k, line[..i + 1], i2, j2);
      assert line[..i + 1][i2 + 1..j2] == line[i2 + 1..j2];
      p, key, t, more, rest := FirstCut(k, line, i2, j2);
    } else {
      var body := line[i + 1..j];
      var n: nat;
      n, t :| n <= |body| && Named(k, t, body[..n]) && (n < |body| ==> body[n] == ':');
      p, key, more, rest := line[..i], body[..n], body[n..], line[j + 1..];
      assert line[..i + 1] == p + "$" && body == key + more;
      assert line == line[..i] + "$" + body + "$" + rest;
    }
  }

  lemma {:induction false} NoForm(k: Keywords, mode: Mode, line: string)
    requires NoKeyword(k, line)
    ensures Expand(k, mode, line) == line
  {
    hide NoKeyword, Scan;
    Unchanged(k, mode, line);
  }

  /** A line has something to expand exactly when a keyword stands in it. */
  lemma {:induction false} Found(k: Keywords, s: string)
    ensures HasKey(k, s) <==> !NoKeyword(k, s)
    decreases |s|
  {
    hide Look, Decide, Word, Lookup, Index, Whole, NoKeyword;
    HasKeyIs(k, s, 0);
    assert s[0..] == s;
    if Look(k, s).Nothing? {
      NoneAt(k, s);
    } else {
      var p, body, rest := Cut(k, s);
      LookWhole(k, p, body, rest);
      WholeCut(p, body, rest);
      var n := |p| + 1 + |body|;
      if Decide(k, |p|, |body|, Word(body)).Pass? {
        Found(k, rest);
        PassedOver(k, p, body, rest);
      } else {
        KeyHere(k, p, body, rest);
      }
    }
  }

  lemma {:induction false} NoneAt(k: Keywords, s: string)
    requires Look(k, s).Nothing?
    ensures NoKeyword(k, s)
  {
    hide Decide, Word, Names;
    var f := Index(s, '$');
    assert forall x :: f < x < |s| ==> s[x] == s[f + 1..][x - f - 1];
  }

  lemma {:induction false} KeyHere(k: Keywords, p: string, body: string, rest: string)
    requires Parts(p, body, rest) && Decide(k, |p|, |body|, Word(body)).Key?
    ensures !NoKeyword(k, Whole(p, body, rest))
  {
    hide Decide, Word, Names;
    NamesDecides(k, body, |p|);
    WholeCut(p, body, rest);
    assert KeywordAt(k, Whole(p, body, rest), |p|, |p| + 1 + |body|);
  }

  lemma {:induction false} PassedOver(k: Keywords, p: string, body: string, rest: string)
    requires Parts(p, body, rest) && Decide(k, |p|, |body|, Word(body)).Pass?
    ensures NoKeyword(k, Whole(p, body, rest)) <==> NoKeyword(k, rest)
  {
    hide Decide, Word, Names;
    var s, n := Whole(p, body, rest), |p| + 1 + |body|;
    NamesDecides(k, body, |p|);
    WholeCut(p, body, rest);
    if NoKeyword(k, s) {
      Later(k, s, n);
    }
    OutsideParts(p, body, rest);
    if NoKeyword(k, rest) {
      forall i: nat, j: nat ensures !KeywordAt(k, s, i, j) {
        if n <= i < j < |s| {
          assert !KeywordAt(k, rest, i - n, j - n);
          assert s[i + 1..j] == rest[i - n + 1..j - n];
        } else if i < n < j < |s| {
          assert s[i + 1..j][n - i - 1] == '$';
        }
      }
    }
  }

  /** The dollar signs of a line in parts. */
  lemma {:induction false} OutsideParts(p: string, body: string, rest: string)
    requires Parts(p, body, rest)
    ensures var s, n := Whole(p, body, rest), |p| + 1 + |body|;
            && |s| == n + |rest| && s[n] == '$'
            && (forall x :: 0 <= x < |p| ==> s[x] != '$') && (forall x :: |p| < x < n ==> s[x] != '$')
  {
    var s := Whole(p, body, rest);
    WholeCut(p, body, rest);
    forall x | 0 <= x < |p| ensures s[x] != '$' { assert s[x] == s[..|p|][x]; }
    forall x | |p| < x < |p| + 1 + |body| ensures s[x] != '$' {
      assert s[x] == s[|p| + 1..|p| + 1 + |body|][x - |p| - 1];
    }
  }
}
