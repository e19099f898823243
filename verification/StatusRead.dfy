/** Reading a status file record by record, with its checks. */
module StatusRead {
  import opened Lines
  import opened Paths
  import opened PathOrder
  import opened StatusList

  /** A line as the reader sees it: a record, whose attributes may not parse, or a
      line without a file name, or one with an unknown type. */
  datatype Entry = Entry(rec: Rec, parses: bool) | NoName | BadKind

  datatype Error = ParseError | Unsorted | Truncated | BogusDirUp | BadType

  /** What is left of the file, and what the reader remembers. */
  datatype Input = Input(lines: seq<Entry>, prev: Option<Rec>, depth: nat, eof: bool)

  datatype Read = Got(rec: Rec, parses: bool, rest: Input) | End(rest: Input) | Bad(error: Error, rest: Input)

  function Cmp(a: Rec, b: Key): int {
    RecCmp(a.kind == DirUp, Join(a.path), b.up, Join(b.path))
  }

  /** The name of the record read last. */
  function LastName(i: Input): string {
    if i.prev.Some? then Join(i.prev.value.path) else ""
  }

  /** One record more, when `last` is what the buffer of the record read last holds. */
  function ReadAs(i: Input, last: string): (r: Read)
    ensures r.Got? ==> |r.rest.lines| < |i.lines|
  {
    if i.eof then End(i)
    else if i.lines == [] then
      if i.depth != 0 then Bad(Truncated, i) else End(i.(eof := true))
    else
      var rest := i.(lines := i.lines[1..]);
      match i.lines[0]
      case NoName => Bad(ParseError, rest)
      case BadKind => Bad(BadType, rest)
      case Entry(rec, parses) =>
        if rec.kind == DirUp && i.depth == 0 then Bad(BogusDirUp, rest)
        else
          var depth := if rec.kind == DirDown then i.depth + 1 else if rec.kind == DirUp then i.depth - 1 else i.depth;
          if i.prev.Some? && RecCmp(i.prev.value.kind == DirUp, last, rec.kind == DirUp, Join(rec.path)) >= 0 then
            Bad(Unsorted, rest.(depth := depth))
          else Got(rec, parses, Input(rest.lines, Some(rec), depth, false))
  }

  function ReadRaw(i: Input): (r: Read)
    ensures r.Got? ==> |r.rest.lines| < |i.lines|
  {
    ReadAs(i, LastName(i))
  }

  /** A written file as the next reader finds it. */
  function Entries(rs: seq<Rec>): (es: seq<Entry>)
    ensures |es| == |rs| && forall k :: 0 <= k < |rs| ==> es[k] == Entry(rs[k], true)
  {
    if rs == [] then [] else [Entry(rs[0], true)] + Entries(rs[1..])
  }

  function Opened(rs: seq<Rec>): Input {
    Input(Entries(rs), None, 0, false)
  }

  /** Reading to the end: the records got, and the error met, if any. */
  function ReadAll(i: Input): (seq<Rec>, Option<Error>)
    decreases |i.lines|
  {
    match ReadRaw(i)
    case End(_) => ([], None)
    case Bad(e, _) => ([], Some(e))
    case Got(rec, parses, rest) =>
      if !parses then ([], Some(ParseError))
      else
        var (rs, e) := ReadAll(rest);
        ([rec] + rs, e)
  }

  /** The next record of a proper listing is read without error. */
  lemma {:induction false} NextRead(i: Input, at: Path, rs: seq<Rec>)
    requires i.lines == Entries(rs) && !i.eof && i.depth == |at| && Nested(at, rs) && rs != []
    requires i.prev.Some? ==> i.prev.value.path != [] && Before(KeyOf(i.prev.value), KeyOf(rs[0]))
    ensures ReadRaw(i) == Got(rs[0], true, Input(Entries(rs[1..]), Some(rs[0]), |Dir(rs[0])|, false))
  {
    if i.prev.Some? {
      RecCmpOrder(KeyOf(i.prev.value), KeyOf(rs[0]));
    }
    assert i.lines[1..] == Entries(rs[1..]);
  }

  lemma {:induction false} ReadCons(i: Input, r: Rec, rest: Input)
    requires ReadRaw(i) == Got(r, true, rest)
    ensures ReadAll(i) == ([r] + ReadAll(rest).0, ReadAll(rest).1)
  {
    hide ReadRaw;
  }

  lemma {:induction false} ListingReads(i: Input, at: Path, rs: seq<Rec>)
    requires i.lines == Entries(rs) && !i.eof && i.depth == |at| && Nested(at, rs)
    requires i.prev.Some? ==> i.prev.value.path != []
    requires SortedFrom(if i.prev.Some? then Some(KeyOf(i.prev.value)) else None, rs)
    ensures ReadAll(i) == (rs, None)
    decreases |rs|
  {
    if rs != [] {
      assert rs == [rs[0]] + rs[1..] && Nested(Dir(rs[0]), rs[1..]) && rs[0].path != [];
      hide Entries, Nested, ReadRaw, ReadAll, Before, InStep, Dir;
      NextRead(i, at, rs);
      var i2 := Input(Entries(rs[1..]), Some(rs[0]), |Dir(rs[0])|, false);
      ListingReads(i2, Dir(rs[0]), rs[1..]);
      ReadCons(i, rs[0], i2);
    }
  }

  /** A proper listing is read back whole: no UNSORTED, no TRUNC, no BOGUS_DIRUP. */
  lemma ProperReads(rs: seq<Rec>)
    requires Proper(rs)
    ensures ReadAll(Opened(rs)) == (rs, None)
  {
    ListingReads(Opened(rs), [], rs);
  }

  /** A file that reads back without error leaves no directory open. */
  lemma {:induction false} CleanDepth(i: Input, rs: seq<Rec>)
    requires i.lines == Entries(rs) && !i.eof && ReadAll(i).1 == None
    ensures i.depth + Depth(rs) == 0
    decreases |rs|
  {
    if rs != [] {
      assert i.lines[1..] == Entries(rs[1..]);
      CleanDepth(ReadRaw(i).rest, rs[1..]);
    }
  }
}
