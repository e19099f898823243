/** The parser as the code has it: loops over a lexer that moves on, or back one
    symbol, through the file. */
module RcsParser {
  import opened Lines
  import opened RcsLex
  import opened RcsText
  import opened RcsParse

  /** The tokens not yet dealt with when `tok` has been read. */
  function Now(tok: Option<Tok>, ahead: seq<Tok>): seq<Tok> {
    if tok.Some? then [tok.value] + ahead else []
  }

  /** `t` is the token that `Unget` would go back over. */
  ghost predicate Putback(lex: Lexer, t: Tok)
    reads lex
  {
    !lex.eof && lex.tok == t && TokLen(t) <= lex.offset && (!t.Str? ==> lex.CanUnget())
  }

  method WantTok(lex: Lexer, t: Tok) returns (ok: bool)
    requires lex.Valid()
    modifies lex
    ensures lex.Valid() && lex.Ahead().1 == old(lex.Ahead().1)
    ensures match Want(old(lex.Ahead().0), t)
            case None => !ok
            case Some(r) => ok && lex.Ahead().0 == r
  {
    var tok := lex.Get();
    ok := tok == Some(t);
  }

  method WantNumber(lex: Lexer) returns (num: Option<string>)
    requires lex.Valid()
    modifies lex
    ensures lex.Valid() && lex.Ahead().1 == old(lex.Ahead().1)
    ensures match WantNum(old(lex.Ahead().0))
            case None => num == None
            case Some((n, r)) => num == Some(n) && lex.Ahead().0 == r
  {
    var tok := lex.Get();
    if tok == None {
      return None;
    }
    var ok := ValidateNum(tok.value);
    return if ok then Some(tok.value.text) else None;
  }

  method WantName(lex: Lexer) returns (id: Option<string>)
    requires lex.Valid()
    modifies lex
    ensures lex.Valid() && lex.Ahead().1 == old(lex.Ahead().1)
    ensures match WantId(old(lex.Ahead().0))
            case None => id == None
            case Some((n, r)) => id == Some(n) && lex.Ahead().0 == r
  {
    var tok := lex.Get();
    if tok == None {
      return None;
    }
    var ok := ValidateId(tok.value);
    return if ok then Some(tok.value.text) else None;
  }

  method WantText(lex: Lexer) returns (s: Option<string>)
    requires lex.Valid()
    modifies lex
    ensures lex.Valid() && lex.Ahead().1 == old(lex.Ahead().1)
    ensures match WantString(old(lex.Ahead().0))
            case None => s == None
            case Some((n, r)) => s == Some(n) && lex.Ahead().0 == r
  {
    var tok := lex.Get();
    return if tok.Some? && tok.value.Str? then Some(tok.value.text) else None;
  }

  method NumberField(lex: Lexer, word: string) returns (num: Option<string>)
    requires lex.Valid()
    modifies lex
    ensures lex.Valid() && lex.Ahead().1 == old(lex.Ahead().1)
    ensures match NumField(old(lex.Ahead().0), word)
            case None => num == None
            case Some((n, r)) => num == Some(n) && lex.Ahead().0 == r
  {
    var ok := WantTok(lex, Id(word));
    if !ok {
      return None;
    }
    num := WantNumber(lex);
    if num.Some? {
      ok := WantTok(lex, Semi);
      if !ok {
        return None;
      }
    }
  }

  /** The next token, as what is now to be dealt with. */
  method Next(lex: Lexer) returns (tok: Option<Tok>)
    requires lex.Valid()
    modifies lex
    ensures lex.Valid() && lex.Ahead().1 == old(lex.Ahead().1) && lex.eof == (tok == None && lex.Ahead().1)
    ensures Now(tok, lex.Ahead().0) == old(lex.Ahead().0) && (tok == None ==> lex.Ahead().0 == [])
    ensures tok.Some? ==> Putback(lex, tok.value)
  {
    tok := lex.Get();
    hide Tokens;
  }

  // ---------------------------------------------------------- administrative part

  lemma {:induction false} IdsStep(t: Tok, ts: Rest)
    ensures SkipIds([t] + ts) == if t.Id? then SkipIds(ts) else [t] + ts
  {
    assert ([t] + ts)[1..] == ts;
  }

  lemma {:induction false} AccessIs(tok: Tok, ts: Rest)
    ensures ParseAccess([tok] + ts) == if tok == Id("access") then Want(SkipIds(ts), Semi) else None
  {
    assert ([tok] + ts)[1..] == ts;
  }

  lemma {:induction false} WantFirst(t: Tok, ts: Rest, w: Tok)
    ensures Want([t] + ts, w) == if t == w then Some(ts) else None
  {
    assert ([t] + ts)[1..] == ts;
  }

  /** The access list, whose word has been read as `first`. */
  method Access(lex: Lexer, first: Option<Tok>) returns (ok: bool)
    requires lex.Valid()
    modifies lex
    ensures lex.Valid() && lex.Ahead().1 == old(lex.Ahead().1)
    ensures match ParseAccess(Now(first, old(lex.Ahead().0)))
            case None => !ok
            case Some(r) => ok && lex.Ahead().0 == r
  {
    hide Tokens, SkipIds;
    if first == None {
      return false;
    }
    AccessIs(first.value, lex.Ahead().0);
    hide ParseAccess;
    if first != Some(Id("access")) {
      return false;
    }
    ghost var ts, clean := lex.Ahead().0, lex.Ahead().1;
    var tok := Next(lex);
    while tok.Some? && tok.value.Id?
      invariant lex.Valid() && lex.Ahead().1 == clean
      invariant SkipIds(ts) == SkipIds(Now(tok, lex.Ahead().0))
      decreases |Now(tok, lex.Ahead().0)|
    {
      IdsStep(tok.value, lex.Ahead().0);
      tok := Next(lex);
    }
    if tok == None {
      NoIds();
      return false;
    }
    IdsStep(tok.value, lex.Ahead().0);
    WantFirst(tok.value, lex.Ahead().0, Semi);
    ok := tok == Some(Semi);
  }

  lemma {:induction false} NoIds()
    ensures SkipIds([]) == [] && Want([], Semi) == None
  {
  }

  function Prefix<T>(list: seq<T>, r: Option<(seq<T>, Rest)>): Option<(seq<T>, Rest)> {
    if r.Some? then Some((list + r.value.0, r.value.1)) else None
  }

  lemma {:induction false} Prefixed<T>(list: seq<T>, r: Option<(seq<T>, Rest)>)
    ensures Prefix([], r) == r
    ensures r.Some? && r.value.0 == [] ==> Prefix(list, r) == Some((list, r.value.1))
    ensures r == None ==> Prefix(list, r) == None
  {
    assert r.Some? ==> [] + r.value.0 == r.value.0;
    assert list + [] == list;
  }

  lemma {:induction false} PrefixTwice<T>(list: seq<T>, t: T, r: Option<(seq<T>, Rest)>)
    ensures Prefix(list, Prefix([t], r)) == Prefix(list + [t], r)
  {
    assert r.Some? ==> list + ([t] + r.value.0) == list + [t] + r.value.0;
  }

  lemma {:induction false} TagsStep(t: Tok, ts: Rest)
    ensures ParseTags([t] + ts) ==
            if t.Id? then
              match Want(ts, Colon)
              case None => None
              case Some(r) =>
                match WantNum(r)
                case None => None
                case Some((num, r2)) => Prefix([Tag(t.text, num)], ParseTags(r2))
            else if t == Semi then Some(([], ts)) else None
    ensures ParseTags([]) == None
  {
    assert ([t] + ts)[1..] == ts;
  }

  method Tags(lex: Lexer) returns (tags: Option<seq<Tag>>)
    requires lex.Valid()
    modifies lex
    ensures lex.Valid() && lex.Ahead().1 == old(lex.Ahead().1)
    ensures match ParseTags(old(lex.Ahead().0))
            case None => tags == None
            case Some((t, r)) => tags == Some(t) && lex.Ahead().0 == r
  {
    hide Tokens, ParseTags, Prefix, Want, WantNum;
    ghost var ts, clean := lex.Ahead().0, lex.Ahead().1;
    var list: seq<Tag> := [];
    var tok := Next(lex);
    Prefixed([], ParseTags(ts));
    while tok.Some? && tok.value.Id?
      invariant lex.Valid() && lex.Ahead().1 == clean
      invariant ParseTags(ts) == Prefix(list, ParseTags(Now(tok, lex.Ahead().0)))
      decreases |Now(tok, lex.Ahead().0)|
    {
      TagsStep(tok.value, lex.Ahead().0);
      Prefixed(list, None);
      var colon := WantTok(lex, Colon);
      if !colon {
        return None;
      }
      var num := WantNumber(lex);
      if num == None {
        return None;
      }
      PrefixTwice(list, Tag(tok.value.text, num.value), ParseTags(lex.Ahead().0));
      list := list + [Tag(tok.value.text, num.value)];
      tok := Next(lex);
    }
    TagsStep(if tok.Some? then tok.value else Semi, lex.Ahead().0);
    Prefixed(list, ParseTags(Now(tok, lex.Ahead().0)));
    tags := if tok == Some(Semi) then Some(list) else None;
  }

  lemma {:induction false} LocksStep(t: Tok, ts: Rest)
    ensures SkipLocks([t] + ts) ==
            if t.Id? then
              match Want(ts, Colon)
              case None => None
              case Some(r) => if r != [] && r[0].Id? then SkipLocks(r[1..]) else None
            else if t == Semi then Some(ts) else None
    ensures SkipLocks([]) == None
  {
    var now := [t] + ts;
    assert now[1..] == ts;
    if |now| > 2 { assert now[3..] == ts[1..][1..]; }
  }

  method Locks(lex: Lexer) returns (ok: bool)
    requires lex.Valid()
    modifies lex
    ensures lex.Valid() && lex.Ahead().1 == old(lex.Ahead().1)
    ensures match SkipLocks(old(lex.Ahead().0))
            case None => !ok
            case Some(r) => ok && lex.Ahead().0 == r
  {
    hide Tokens, SkipLocks, Want;
    ghost var ts, clean := lex.Ahead().0, lex.Ahead().1;
    var tok := Next(lex);
    while tok.Some? && tok.value.Id?
      invariant lex.Valid() && lex.Ahead().1 == clean
      invariant SkipLocks(ts) == SkipLocks(Now(tok, lex.Ahead().0))
      decreases |Now(tok, lex.Ahead().0)|
    {
      LocksStep(tok.value, lex.Ahead().0);
      var colon := WantTok(lex, Colon);
      if !colon {
        return false;
      }
      var id := lex.Get();
      if id == None || !id.value.Id? {
        return false;
      }
      tok := Next(lex);
    }
    LocksStep(if tok.Some? then tok.value else Semi, lex.Ahead().0);
    ok := tok == Some(Semi);
  }

  lemma {:induction false} PhraseStep(t: Tok, ts: Rest)
    ensures SkipPhrase([t] + ts) == if t == Semi then Some(ts) else SkipPhrase(ts)
    ensures SkipPhrase([]) == None
  {
    assert ([t] + ts)[1..] == ts;
  }

  /** The rest of an unknown phrase. */
  method RestOfPhrase(lex: Lexer) returns (ok: bool)
    requires lex.Valid()
    modifies lex
    ensures lex.Valid() && lex.Ahead().1 == old(lex.Ahead().1)
    ensures match SkipPhrase(old(lex.Ahead().0))
            case None => !ok
            case Some(r) => ok && lex.Ahead().0 == r
  {
    hide Tokens, SkipPhrase;
    ghost var ts, clean := lex.Ahead().0, lex.Ahead().1;
    var tok := Next(lex);
    while tok.Some? && (tok.value.Id? || tok.value.Str? || tok.value.Colon?)
      invariant lex.Valid() && lex.Ahead().1 == clean
      invariant SkipPhrase(ts) == SkipPhrase(Now(tok, lex.Ahead().0))
      decreases |Now(tok, lex.Ahead().0)|
    {
      PhraseStep(tok.value, lex.Ahead().0);
      tok := Next(lex);
    }
    PhraseStep(if tok.Some? then tok.value else Semi, lex.Ahead().0);
    ok := tok == Some(Semi);
  }

  /** What reading the phrases does with the one that begins with `t`: how it goes
      on, or that it is the end. */
  lemma {:induction false} PhrasesStep(t: Tok, ts: Rest, a: Admin)
    ensures !t.Id? ==> ParsePhrases([t] + ts, a) == Some((a, ts))
    ensures t == Id("strict") ==>
              ParsePhrases([t] + ts, a) == match Want(ts, Semi)
                                           case None => None
                                           case Some(r) => ParsePhrases(r, a.(strict := true))
    ensures t == Id("comment") ==>
              ParsePhrases([t] + ts, a) == match WantString(ts)
                                           case None => None
                                           case Some((s, r)) =>
                                             match Want(r, Semi)
                                             case None => None
                                             case Some(r2) => ParsePhrases(r2, a.(comment := Some(s)))
    ensures t.Id? && t.text !in {"strict", "comment", "expand"} ==>
              ParsePhrases([t] + ts, a) == if ValidId(t.text) then
                                             match SkipPhrase(ts)
                                             case None => None
                                             case Some(r) => ParsePhrases(r, a)
                                           else Some((a, [t] + ts))
    ensures ParsePhrases([], a) == Some((a, []))
  {
    assert ([t] + ts)[1..] == ts;
  }

  lemma {:induction false} ExpandStep(ts: Rest, a: Admin)
    ensures ParsePhrases([Id("expand")] + ts, a) == match WantString(ts)
                                                    case None => None
                                                    case Some((s, r)) =>
                                                      match DecodeExpand(s)
                                                      case None => None
                                                      case Some(e) =>
                                                        match Want(r, Semi)
                                                        case None => None
                                                        case Some(r2) => ParsePhrases(r2, a.(expand := e))
  {
    assert ([Id("expand")] + ts)[1..] == ts;
  }

  /** One phrase, whose first word is `t`; None when it is in error. */
  method Phrase(lex: Lexer, t: string, a: Admin) returns (b: Option<Admin>)
    requires lex.Valid() && (t in {"strict", "comment", "expand"} || ValidId(t))
    modifies lex
    ensures lex.Valid() && lex.Ahead().1 == old(lex.Ahead().1)
    ensures ParsePhrases([Id(t)] + old(lex.Ahead().0), a) ==
            if b.Some? then ParsePhrases(lex.Ahead().0, b.value) else None
    ensures b.Some? ==> |lex.Ahead().0| < |old(lex.Ahead().0)|
  {
    hide Tokens, ParsePhrases, SkipPhrase, Want, WantString, DecodeExpand, ValidId;
    PhrasesStep(Id(t), lex.Ahead().0, a);
    ExpandStep(lex.Ahead().0, a);
    b := Some(a);
    var ok := true;
    if t == "strict" {
      b := Some(a.(strict := true));
      ok := WantTok(lex, Semi);
    } else if t == "comment" {
      var s := WantText(lex);
      if s == None {
        return None;
      }
      b := Some(a.(comment := s));
      ok := WantTok(lex, Semi);
    } else if t == "expand" {
      var s := WantText(lex);
      if s == None {
        return None;
      }
      var e := DecodeExpand(s.value);
      if e == None {
        return None;
      }
      b := Some(a.(expand := e.value));
      ok := WantTok(lex, Semi);
    } else {
      ok := RestOfPhrase(lex);
    }
    if !ok {
      return None;
    }
  }

  /** The phrases at the end of the administrative part. */
  method Phrases(lex: Lexer, a: Admin) returns (b: Option<Admin>)
    requires lex.Valid()
    modifies lex
    ensures lex.Valid() && lex.Ahead().1 == old(lex.Ahead().1)
    ensures match ParsePhrases(old(lex.Ahead().0), a)
            case None => b == None
            case Some((c, r)) => b == Some(c) && lex.Ahead().0 == r
  {
    hide Tokens, ParsePhrases, ValidId;
    ghost var ts, clean := lex.Ahead().0, lex.Ahead().1;
    b := Some(a);
    var tok := Next(lex);
    while tok.Some? && tok.value.Id?
      invariant lex.Valid() && lex.Ahead().1 == clean && b.Some? && (tok == None ==> lex.Ahead().0 == [])
      invariant tok.Some? ==> Putback(lex, tok.value)
      invariant ParsePhrases(ts, a) == ParsePhrases(Now(tok, lex.Ahead().0), b.value)
      decreases |Now(tok, lex.Ahead().0)|
    {
      var t := tok.value.text;
      var named := ValidateId(tok.value);
      if t != "strict" && t != "comment" && t != "expand" && !named {
        PhrasesStep(tok.value, lex.Ahead().0, b.value);
        lex.Unget();
        return;
      }
      ghost var more := lex.Ahead().0;
      b := Phrase(lex, t, b.value);
      if b == None {
        return;
      }
      tok := Next(lex);
    }
    PhrasesStep(if tok.Some? then tok.value else Semi, lex.Ahead().0, b.value);
  }

  // ---------------------------------------------------------------------- deltas

  lemma {:induction false} NumsStep(t: Tok, ts: Rest)
    ensures SkipNums([t] + ts) == if t.Id? && ValidNum(t.text) then SkipNums(ts) else [t] + ts
    ensures SkipNums([]) == []
  {
    assert ([t] + ts)[1..] == ts;
  }

  /** The numbers of the branches, which are forgotten; returns the token behind. */
  method Branches(lex: Lexer) returns (tok: Option<Tok>)
    requires lex.Valid()
    modifies lex
    ensures lex.Valid() && lex.Ahead().1 == old(lex.Ahead().1)
    ensures Now(tok, lex.Ahead().0) == SkipNums(old(lex.Ahead().0))
  {
    hide Tokens, SkipNums, ValidNum;
    ghost var ts, clean := lex.Ahead().0, lex.Ahead().1;
    tok := Next(lex);
    NumsStep(Semi, []);
    while tok.Some?
      invariant lex.Valid() && lex.Ahead().1 == clean
      invariant SkipNums(ts) == SkipNums(Now(tok, lex.Ahead().0))
      decreases |Now(tok, lex.Ahead().0)|
    {
      NumsStep(tok.value, lex.Ahead().0);
      var num := ValidateNum(tok.value);
      if !num {
        return;
      }
      tok := Next(lex);
    }
  }

  lemma {:induction false} OptionalStep(t: Tok, ts: Rest, ok: string -> bool)
    ensures Optional([t] + ts, ok) ==
            if t.Id? && ok(t.text) then
              match Want(ts, Semi)
              case None => None
              case Some(r) => Some((Some(t.text), r))
            else if t == Semi then Some((None, ts)) else None
    ensures Optional([], ok) == None
  {
    assert ([t] + ts)[1..] == ts;
  }

  /** The state of a delta, or its successor: a name or a number, or nothing. */
  method MaybeName(lex: Lexer, number: bool) returns (ok: bool, s: Option<string>)
    requires lex.Valid()
    modifies lex
    ensures lex.Valid() && lex.Ahead().1 == old(lex.Ahead().1)
    ensures match Optional(old(lex.Ahead().0), s => if number then ValidNum(s) else ValidId(s))
            case None => !ok
            case Some((name, r)) => ok && s == name && lex.Ahead().0 == r
  {
    hide Tokens, Optional, ValidNum, ValidId;
    ghost var valid := s => if number then ValidNum(s) else ValidId(s);
    s := None;
    var tok := Next(lex);
    OptionalStep(if tok.Some? then tok.value else Semi, lex.Ahead().0, valid);
    if tok == None {
      return false, None;
    }
    var named := false;
    if number {
      named := ValidateNum(tok.value);
    } else {
      named := ValidateId(tok.value);
    }
    if named {
      s := Some(tok.value.text);
      ok := WantTok(lex, Semi);
    } else {
      ok := tok == Some(Semi);
    }
  }

  lemma {:induction false} OptionalSame(ts: Rest, f: string -> bool, g: string -> bool)
    requires forall s :: f(s) == g(s)
    ensures Optional(ts, f) == Optional(ts, g)
  {
  }

  method Author(lex: Lexer) returns (author: Option<string>)
    requires lex.Valid()
    modifies lex
    ensures lex.Valid() && lex.Ahead().1 == old(lex.Ahead().1)
    ensures match ParseAuthor(old(lex.Ahead().0))
            case None => author == None
            case Some((name, r)) => author == Some(name) && lex.Ahead().0 == r
  {
    hide Tokens, Want, WantId;
    var ok := WantTok(lex, Id("author"));
    if !ok {
      return None;
    }
    author := WantName(lex);
    if author.Some? {
      ok := WantTok(lex, Semi);
      if !ok {
        return None;
      }
    }
  }

  method StateField(lex: Lexer) returns (ok: bool, state: Option<string>)
    requires lex.Valid()
    modifies lex
    ensures lex.Valid() && lex.Ahead().1 == old(lex.Ahead().1)
    ensures match ParseState(old(lex.Ahead().0))
            case None => !ok
            case Some((name, r)) => ok && state == name && lex.Ahead().0 == r
  {
    hide Tokens, Want, Optional, ValidId, ValidNum;
    state := None;
    ok := WantTok(lex, Id("state"));
    if ok {
      OptionalSame(lex.Ahead().0, s => ValidId(s), s => if false then ValidNum(s) else ValidId(s));
      ok, state := MaybeName(lex, false);
    }
  }

  method NextField(lex: Lexer) returns (ok: bool, next: Option<string>)
    requires lex.Valid()
    modifies lex
    ensures lex.Valid() && lex.Ahead().1 == old(lex.Ahead().1)
    ensures match ParseNext(old(lex.Ahead().0))
            case None => !ok
            case Some((name, r)) => ok && next == name && lex.Ahead().0 == r
  {
    hide Tokens, Optional, ValidId, ValidNum, SkipNums;
    next := None;
    ok := WantTok(lex, Id("branches"));
    if !ok {
      return;
    }
    var tok := Branches(lex);
    ok := tok == Some(Semi);
    if !ok {
      return;
    }
    ok := WantTok(lex, Id("next"));
    if ok {
      OptionalSame(lex.Ahead().0, s => ValidNum(s), s => if true then ValidNum(s) else ValidId(s));
      ok, next := MaybeName(lex, true);
    }
  }

  lemma {:induction false} UnknownStep(t: Tok, ts: Rest, stop: string)
    ensures SkipPhrases([t] + ts, stop) ==
            if t != Id(stop) && t.Id? && ValidId(t.text) then
              match SkipPhrase(ts)
              case None => None
              case Some(r) => SkipPhrases(r, stop)
            else Some([t] + ts)
    ensures SkipPhrases([], stop) == None
  {
    assert ([t] + ts)[1..] == ts;
  }

  /** Phrases nobody knows, up to the word `stop`; returns the token behind. */
  method Unknown(lex: Lexer, stop: string) returns (tok: Option<Tok>)
    requires lex.Valid()
    modifies lex
    ensures lex.Valid() && lex.Ahead().1 == old(lex.Ahead().1)
    ensures match SkipPhrases(old(lex.Ahead().0), stop)
            case None => tok == None
            case Some(r) => tok.Some? && Now(tok, lex.Ahead().0) == r
    ensures tok.Some? ==> Putback(lex, tok.value)
  {
    hide Tokens, SkipPhrases, SkipPhrase, ValidId;
    ghost var ts, clean := lex.Ahead().0, lex.Ahead().1;
    tok := Next(lex);
    UnknownStep(Semi, [], stop);
    while tok.Some? && tok.value != Id(stop)
      invariant lex.Valid() && lex.Ahead().1 == clean
      invariant SkipPhrases(ts, stop) == SkipPhrases(Now(tok, lex.Ahead().0), stop)
      invariant tok.Some? ==> Putback(lex, tok.value)
      decreases |Now(tok, lex.Ahead().0)|
    {
      UnknownStep(tok.value, lex.Ahead().0, stop);
      var named := ValidateId(tok.value);
      if !named {
        return;
      }
      var ok := RestOfPhrase(lex);
      if !ok {
        return None;
      }
      tok := Next(lex);
    }
    if tok.Some? { UnknownStep(tok.value, lex.Ahead().0, stop); }
  }

  /** The fields of a delta whose number has been read, and the token behind them. */
  method DeltaFields(lex: Lexer, rev: string) returns (h: Option<Header>, tok: Option<Tok>)
    requires lex.Valid()
    modifies lex
    ensures lex.Valid() && lex.Ahead().1 == old(lex.Ahead().1)
    ensures match ParseDelta(rev, old(lex.Ahead().0))
            case None => h == None
            case Some((x, r)) => h == Some(x) && tok.Some? && Now(tok, lex.Ahead().0) == r
    ensures tok.Some? ==> Putback(lex, tok.value)
  {
    hide Tokens, NumField, ParseAuthor, ParseState, ParseNext, SkipPhrases, Now;
    h, tok := None, None;
    var date := NumberField(lex, "date");
    if date == None {
      return;
    }
    var author := Author(lex);
    if author == None {
      return;
    }
    var ok, state := StateField(lex);
    if !ok {
      return;
    }
    var next;
    ok, next := NextField(lex);
    if !ok {
      return;
    }
    tok := Unknown(lex, "desc");
    if tok.Some? {
      h := Some(Header(rev, date.value, author.value, state, [], next));
    }
  }

  lemma {:induction false} DeltasStep(t: Tok, ts: Rest)
    ensures ParseDeltas([t] + ts) ==
            if t.Id? && ValidNum(t.text) then
              match ParseDelta(t.text, ts)
              case None => None
              case Some((h, r)) => Prefix([h], ParseDeltas(r))
            else Some(([], [t] + ts))
    ensures ParseDeltas([]) == Some(([], []))
  {
    assert ([t] + ts)[1..] == ts;
  }

  /** The deltas.  The symbol behind them is put back; a string there, which no
      correct file has, is what `rcslex_unget` cannot put back. */
  method Deltas(lex: Lexer) returns (hs: Option<seq<Header>>)
    requires lex.Valid()
    modifies lex
    ensures lex.Valid()
    ensures match ParseDeltas(old(lex.Ahead().0))
            case None => hs == None
            case Some((list, r)) =>
              hs == Some(list) && (lex.Ahead() == (r, old(lex.Ahead().1)) || (r != [] && r[0].Str?))
  {
    hide Tokens, ParseDeltas, ParseDelta, Prefix, ValidNum;
    ghost var ts, clean := lex.Ahead().0, lex.Ahead().1;
    var list: seq<Header> := [];
    var tok := Next(lex);
    Prefixed([], ParseDeltas(ts));
    while tok.Some?
      invariant lex.Valid() && lex.Ahead().1 == clean && (tok == None ==> lex.Ahead().0 == [])
      invariant ParseDeltas(ts) == Prefix(list, ParseDeltas(Now(tok, lex.Ahead().0)))
      invariant tok.Some? ==> Putback(lex, tok.value)
      decreases |Now(tok, lex.Ahead().0)|
    {
      DeltasStep(tok.value, lex.Ahead().0);
      var num := ValidateNum(tok.value);
      if !num {
        Prefixed(list, ParseDeltas(Now(tok, lex.Ahead().0)));
        lex.Unget();
        return Some(list);
      }
      Prefixed(list, None);
      var h, behind := DeltaFields(lex, tok.value.text);
      if h == None {
        return None;
      }
      PrefixTwice(list, h.value, ParseDeltas(Now(behind, lex.Ahead().0)));
      list, tok := list + [h.value], behind;
    }
    DeltasStep(Semi, []);
    Prefixed(list, ParseDeltas([]));
    hs := Some(list);
  }

  // ----------------------------------------------------------------------- texts

  /** Log and text of a delta whose number has been read. */
  method TextFields(lex: Lexer, rev: string) returns (x: Option<DeltaText>)
    requires lex.Valid()
    modifies lex
    ensures lex.Valid() && lex.Ahead().1 == old(lex.Ahead().1)
    ensures match ParseText(rev, old(lex.Ahead().0))
            case None => x == None
            case Some((y, r)) => x == Some(y) && lex.Ahead().0 == r
  {
    hide Tokens, WantString, SkipPhrases, Want;
    x := None;
    var ok := WantTok(lex, Id("log"));
    if !ok {
      return;
    }
    var log := WantText(lex);
    if log == None {
      return;
    }
    var tok := Unknown(lex, "text");
    if tok == None {
      return;
    }
    WantFirst(tok.value, lex.Ahead().0, Id("text"));
    if tok != Some(Id("text")) {
      return;
    }
    var text := WantText(lex);
    if text.Some? {
      x := Some(DeltaText(rev, log.value, text.value));
    }
  }

  function PrefixTexts(list: seq<DeltaText>, r: Option<seq<DeltaText>>): Option<seq<DeltaText>> {
    if r.Some? then Some(list + r.value) else None
  }

  lemma {:induction false} PrefixTextsTwice(list: seq<DeltaText>, x: DeltaText, r: Option<seq<DeltaText>>)
    ensures PrefixTexts(list, PrefixTexts([x], r)) == PrefixTexts(list + [x], r)
    ensures PrefixTexts([], r) == r && PrefixTexts(list, Some([])) == Some(list) && PrefixTexts(list, None) == None
  {
    assert r.Some? ==> list + ([x] + r.value) == list + [x] + r.value && [] + r.value == r.value;
    assert list + [] == list;
  }

  lemma {:induction false} TextsStep(t: Tok, ts: Rest, clean: bool, hs: seq<Header>)
    ensures ParseTexts([t] + ts, clean, hs) ==
            if !t.Id? || !ValidNum(t.text) then None
            else if !Known(hs, t.text) then Some([])
            else
              match ParseText(t.text, ts)
              case None => None
              case Some((x, r)) => PrefixTexts([x], ParseTexts(r, clean, hs))
    ensures ParseTexts([], clean, hs) == if clean then Some([]) else None
  {
    assert ([t] + ts)[1..] == ts;
  }

  /** The texts of the deltas `hs`. */
  method Texts(lex: Lexer, hs: seq<Header>) returns (xs: Option<seq<DeltaText>>)
    requires lex.Valid()
    modifies lex
    ensures xs == ParseTexts(old(lex.Ahead().0), old(lex.Ahead().1), hs)
  {
    hide Tokens, ParseTexts, ParseText, PrefixTexts, ValidNum, Known;
    ghost var ts, clean := lex.Ahead().0, lex.Ahead().1;
    var list: seq<DeltaText> := [];
    var tok := Next(lex);
    PrefixTextsTwice([], DeltaText("", "", ""), ParseTexts(ts, clean, hs));
    while tok.Some?
      invariant lex.Valid() && lex.Ahead().1 == clean && lex.eof == (tok == None && clean)
      invariant ParseTexts(ts, clean, hs) == PrefixTexts(list, ParseTexts(Now(tok, lex.Ahead().0), clean, hs))
      decreases |Now(tok, lex.Ahead().0)|
    {
      TextsStep(tok.value, lex.Ahead().0, clean, hs);
      PrefixTextsTwice(list, DeltaText("", "", ""), None);
      var num := ValidateNum(tok.value);
      if !num {
        break;
      }
      if !Known(hs, tok.value.text) {
        return Some(list);
      }
      var x := TextFields(lex, tok.value.text);
      if x == None {
        return None;
      }
      PrefixTextsTwice(list, x.value, ParseTexts(lex.Ahead().0, clean, hs));
      list := list + [x.value];
      tok := Next(lex);
    }
    TextsStep(Semi, [], clean, hs);
    PrefixTextsTwice(list, DeltaText("", "", ""), None);
    xs := if lex.eof then Some(list) else None;
  }

  // ----------------------------------------------------------------- whole files

  lemma {:induction false} BranchStep(t: Tok, ts: Rest)
    ensures t != Id("branch") ==> ParseBranch([t] + ts) == Some((None, [t] + ts))
    ensures t == Id("branch") ==>
              ParseBranch([t] + ts) == match WantNum(ts)
                                       case None => None
                                       case Some((num, r)) =>
                                         match Want(r, Semi)
                                         case None => None
                                         case Some(r2) => Some((Some(num), r2))
  {
    assert ([t] + ts)[1..] == ts;
  }

  /** The default branch, and the token behind it. */
  method Branch(lex: Lexer) returns (ok: bool, branch: Option<string>, tok: Option<Tok>)
    requires lex.Valid()
    modifies lex
    ensures lex.Valid() && lex.Ahead().1 == old(lex.Ahead().1)
    ensures match ParseBranch(old(lex.Ahead().0))
            case None => !ok
            case Some((b, r)) =>
              if ok then branch == b && Now(tok, lex.Ahead().0) == r else ParseAccess(r) == None
  {
    hide Tokens, ParseBranch, WantNum, Want, SkipIds;
    branch := None;
    tok := Next(lex);
    BranchStep(if tok.Some? then tok.value else Semi, lex.Ahead().0);
    NoBranch(tok, lex.Ahead().0);
    ok := tok.Some? && tok.value.Id?;
    if tok == Some(Id("branch")) {
      branch := WantNumber(lex);
      ok := branch.Some?;
      if ok {
        ok := WantTok(lex, Semi);
      }
      if ok {
        tok := Next(lex);
      }
    }
  }

  lemma {:induction false} NoBranch(tok: Option<Tok>, ts: Rest)
    ensures tok == None ==> ParseBranch([]) == Some((None, []))
    ensures tok == None || !tok.value.Id? ==> ParseAccess(Now(tok, ts)) == None
  {
  }

  method AdminPart(lex: Lexer) returns (a: Option<Admin>)
    requires lex.Valid()
    modifies lex
    ensures lex.Valid() && lex.Ahead().1 == old(lex.Ahead().1)
    ensures match ParseAdmin(old(lex.Ahead().0))
            case None => a == None
            case Some((b, r)) => a == Some(b) && lex.Ahead().0 == r
  {
    hide Tokens, NumField, ParseBranch, ParseAccess, ParseTags, SkipLocks, ParsePhrases, Now;
    a := None;
    var head := NumberField(lex, "head");
    if head == None {
      return;
    }
    var ok, branch, tok := Branch(lex);
    if !ok {
      return;
    }
    ok := Access(lex, tok);
    if !ok {
      return;
    }
    ok := WantTok(lex, Id("symbols"));
    if !ok {
      return;
    }
    var tags := Tags(lex);
    if tags == None {
      return;
    }
    ok := WantTok(lex, Id("locks"));
    if !ok {
      return;
    }
    ok := Locks(lex);
    if !ok {
      return;
    }
    a := Phrases(lex, Admin(head.value, branch, tags.value, false, None, Default));
  }

  /** A whole file, read for editing. */
  method File(data: string) returns (d: Option<Doc>)
    ensures var (ts, clean) := Tokens(data, 0);
            && (d == ParseFile(ts, clean) || StringBehindDeltas(ts))
            && (ParseFile(ts, clean).Some? ==> d == ParseFile(ts, clean))
  {
    hide Tokens, ParseAdmin, ParseDeltas, ParseTexts, WantString;
    d := None;
    var lex := new Lexer(data);
    var a := AdminPart(lex);
    if a == None {
      return;
    }
    var hs := Deltas(lex);
    if hs == None {
      return;
    }
    var ok := WantTok(lex, Id("desc"));
    if !ok {
      return;
    }
    var desc := WantText(lex);
    if desc == None {
      return;
    }
    var xs := Texts(lex, hs.value);
    if xs.Some? {
      d := Some(Doc(a.value, hs.value, desc.value, xs.value));
    }
  }

  /** A string stands where the deltas end and the description should begin. */
  ghost predicate StringBehindDeltas(ts: Rest) {
    match ParseAdmin(ts)
    case None => false
    case Some((_, r)) =>
      match ParseDeltas(r)
      case None => false
      case Some((_, r2)) => r2 != [] && r2[0].Str?
  }
}
