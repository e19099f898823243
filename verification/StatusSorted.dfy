/** What is written from records in order is itself in order. */
module StatusSorted {
  import opened Lines
  import opened Paths
  import opened PathOrder
  import opened StatusList

  /** Record b may be written after record a: it comes later in the order and is
      not below a file, or it repeats a directory record. */
  predicate Follows(a: Rec, b: Rec) {
    if KeyOf(a) == KeyOf(b) then a.kind == b.kind && IsDir(a)
    else Before(KeyOf(a), KeyOf(b)) && (IsDir(a) || !(a.path <= Dir(b)))
  }

  predicate OrderlyFrom(a: Option<Rec>, m: seq<Rec>)
    decreases |m|
  {
    m == [] || (m[0].path != [] && (a.Some? ==> Follows(a.value, m[0])) && OrderlyFrom(Some(m[0]), m[1..]))
  }

  // ------------------------------------------------------------ paths in order

  /** A shared beginning does not matter. */
  lemma {:induction false} StripCommon(c: Path, p: Path, u: bool, q: Path, v: bool)
    ensures Before(Key(c + p, u), Key(c + q, v)) == Before(Key(p, u), Key(q, v))
  {
    if c == [] {
      assert c + p == p && c + q == q;
    } else {
      assert (c + p)[1..] == c[1..] + p && (c + q)[1..] == c[1..] + q;
      StripCommon(c[1..], p, u, q, v);
    }
  }

  lemma DirPrefix(r: Rec)
    ensures Dir(r) <= r.path && (r.kind == DirDown ==> Dir(r) == r.path)
    ensures r.path != [] && r.kind != DirDown ==> Dir(r) == Parent(r.path)
  {
  }

  /** A directory that holds the next record and begins this record's path is one
      that this record leaves open. */
  lemma StillInside(a: Rec, b: Rec, e: Path)
    requires Follows(a, b) && e != [] && e <= a.path && e <= Dir(b)
    ensures e <= Dir(a)
  {
    DirPrefix(a);
    DirPrefix(b);
    if e == a.path {
      NotLeftYet(e, KeyOf(b));
    } else {
      assert e <= Parent(a.path);
    }
  }

  lemma {:induction false} BeginEnd(d: Path)
    ensures Before(Key(d, false), Key(d, true))
  {
    if d != [] {
      BeginEnd(d[1..]);
    }
  }

  /** Nothing of a directory comes behind its end. */
  lemma {:induction false} NotLeftYet(d: Path, k: Key)
    requires d <= k.path
    ensures !Before(Key(d, true), k)
  {
    BeginEnd(d);
    SubtreeBetween(d, k);
    BeforeTotal(Key(d, true), k);
  }

  /** The end of a directory that is not needed any more comes before what follows. */
  lemma UpBeforeNext(a: Rec, b: Rec, d: Path)
    requires Follows(a, b) && d != [] && d <= Dir(a) && !(d <= Dir(b))
    ensures Before(Key(d, true), KeyOf(b)) || KeyOf(b) == Key(d, true)
  {
    DirPrefix(a);
    DirPrefix(b);
    SubtreeBetween(d, KeyOf(a));
    SubtreeBetween(d, KeyOf(b));
    BeforeTotal(Key(d, true), KeyOf(b));
    if Before(KeyOf(b), Key(d, true)) {
      if KeyOf(a) != Key(d, false) && KeyOf(a) != KeyOf(b) {
        BeforeTransitive(Key(d, false), KeyOf(a), KeyOf(b));
      }
      NoFileThere(a, b, d);
    }
  }

  lemma NoFileThere(a: Rec, b: Rec, d: Path)
    requires Follows(a, b) && d != [] && d <= Dir(a) && !(d <= Dir(b))
    ensures !(d <= b.path) || KeyOf(b) == Key(d, true)
  {
    DirPrefix(a);
    DirPrefix(b);
    BeforeTotal(KeyOf(a), KeyOf(b));
    if d <= b.path {
      OnlyWhole(d, b.path);
      SubtreeBetween(d, KeyOf(a));
      BeforeTotal(Key(d, false), KeyOf(a));
    }
  }

  lemma OnlyWhole(d: Path, p: Path)
    requires p != [] && d <= p
    ensures d <= Parent(p) || d == p
  {
  }

  /** A key that comes before one below c/y, and is not below c/y itself, comes
      before the directory c/y. */
  lemma {:induction false} BeforeSibling(k: Key, e: Path, b: Key)
    requires e != [] && e <= b.path && Parent(e) <= k.path && !(e <= k.path)
    requires Before(k, b)
    ensures Before(k, Key(e, false))
  {
    var c, y := Parent(e), e[|e| - 1];
    var p, q := k.path[|c|..], b.path[|c|..];
    assert e == c + [y] && k.path == c + p && b.path == c + q && q[0] == y;
    assert e <= k.path <==> p != [] && p[0] == y;
    hide IsName;
    StripCommon(c, p, k.up, q, b.up);
    StripCommon(c, p, k.up, [y], false);
  }

  /** Sibling directories, one left, the next entered. */
  lemma UpThenDown(a: Rec, b: Rec, d: Path, e: Path)
    requires Follows(a, b) && d != [] && e != [] && d <= Dir(a) && e <= Dir(b)
    requires Parent(d) == Parent(e) && d != e
    ensures Before(Key(d, true), Key(e, false))
  {
    assert !(d <= Dir(b)) by { assert Dir(b)[..|d|] == e; }
    UpBeforeNext(a, b, d);
    DirPrefix(b);
    hide Follows, Dir, Before;
    assert !(e <= d) && Parent(e) <= d && e <= b.path;
    BeforeSibling(Key(d, true), e, KeyOf(b));
  }

  /** The first directory entered comes after the record before. */
  lemma DownAfter(a: Rec, b: Rec, e: Path)
    requires Follows(a, b) && e != [] && e <= Dir(b) && Parent(e) <= Dir(a) && !(e <= Dir(a)) && a.path != []
    ensures Before(KeyOf(a), Key(e, false))
  {
    DirPrefix(a);
    DirPrefix(b);
    if e <= a.path {
      StillInside(a, b, e);
    } else {
      NotSame(a, b, e);
      BeforeSibling(KeyOf(a), e, KeyOf(b));
    }
  }

  lemma NotSame(a: Rec, b: Rec, e: Path)
    requires Follows(a, b) && e <= b.path && !(e <= a.path)
    ensures Before(KeyOf(a), KeyOf(b))
  {
  }

  // -------------------------------------------------------- the events in order

  function LastKey(o: Option<Key>, rs: seq<Rec>): Option<Key> {
    if rs == [] then o else Some(KeyOf(rs[|rs| - 1]))
  }

  lemma {:induction false} SortedPlus(o: Option<Key>, xs: seq<Rec>, ys: seq<Rec>)
    requires SortedFrom(o, xs) && SortedFrom(LastKey(o, xs), ys)
    ensures SortedFrom(o, xs + ys) && LastKey(o, xs + ys) == LastKey(LastKey(o, xs), ys)
    decreases |xs|
  {
    if xs == [] {
      assert xs + ys == ys;
    } else {
      assert (xs + ys)[1..] == xs[1..] + ys;
      SortedPlus(Some(KeyOf(xs[0])), xs[1..], ys);
    }
  }

  lemma {:induction false} SortedCons(o: Option<Key>, r: Rec, rs: seq<Rec>)
    requires (o.Some? ==> Before(o.value, KeyOf(r))) && SortedFrom(Some(KeyOf(r)), rs)
    ensures SortedFrom(o, [r] + rs) && LastKey(o, [r] + rs) == LastKey(Some(KeyOf(r)), rs)
  {
    assert ([r] + rs)[1..] == rs;
  }

  predicate Ahead(o: Option<Key>, k: Key) {
    o.Some? ==> Before(o.value, k)
  }

  /** Nothing written so far comes after this record, nor is it a file already. */
  predicate UpTo(o: Option<Key>, b: Rec) {
    o.Some? ==> Before(o.value, KeyOf(b)) || (IsDir(b) && o.value == KeyOf(b))
  }

  lemma TravelCons(at: Path, to: Path, info: Info)
    ensures at != to && at <= to ==>
              var e := to[..|at| + 1];
              Travel(at, to, info) == [Rec(DirDown, e, NoInfo)] + Travel(e, to, info)
    ensures !(at <= to) ==> Travel(at, to, info) == [Rec(DirUp, at, info)] + Travel(Parent(at), to, Bogus)
    ensures at == to ==> Travel(at, to, info) == []
  {
  }

  /** Entering directories on the way to a record. */
  lemma {:induction false} DownSorted(at: Path, to: Path, o: Option<Key>, b: Rec, info: Info)
    requires at <= to == Dir(b) && b.path != []
    requires at != to ==> Ahead(o, Key(to[..|at| + 1], false))
    requires at == to ==> UpTo(o, b)
    ensures SortedFrom(o, Travel(at, to, info)) && UpTo(LastKey(o, Travel(at, to, info)), b)
    decreases |to| - |at|
  {
    TravelCons(at, to, info);
    if at != to {
      var e := to[..|at| + 1];
      var k := Key(e, false);
      DirPrefix(b);
      EnterBefore(e, b);
      if e != to {
        SubtreeBetween(e, Key(to[..|e| + 1], false));
      }
      hide Travel, Before, Dir;
      DownSorted(e, to, Some(k), b, info);
      SortedCons(o, Rec(DirDown, e, NoInfo), Travel(e, to, info));
    }
  }

  lemma EnterBefore(e: Path, b: Rec)
    requires e != [] && e <= Dir(b) && b.path != []
    ensures UpTo(Some(Key(e, false)), b)
  {
    DirPrefix(b);
    SubtreeBetween(e, KeyOf(b));
  }

  /** Leaving directories, then entering others, between two records. */
  lemma {:induction false} TravelSorted(at: Path, to: Path, o: Option<Key>, a: Rec, b: Rec, info: Info)
    requires Follows(a, b) && b.path != [] && at <= Dir(a) && to == Dir(b)
    requires !(at <= to) ==> Ahead(o, Key(at, true))
    requires at <= to && at != to ==> Ahead(o, Key(to[..|at| + 1], false))
    requires at == to ==> UpTo(o, b)
    ensures SortedFrom(o, Travel(at, to, info)) && UpTo(LastKey(o, Travel(at, to, info)), b)
    decreases |at|
  {
    if at <= to {
      DownSorted(at, to, o, b, info);
    } else {
      TravelCons(at, to, info);
      var up, k := Parent(at), Key(at, true);
      UpBeforeNext(a, b, at);
      if !(up <= to) {
        SubtreeBetween(up, k);
      } else if up != to {
        assert to[..|up| + 1] != at;
        UpThenDown(a, b, at, to[..|up| + 1]);
      }
      hide Travel, Before, Dir, Follows;
      TravelSorted(up, to, Some(k), a, b, Bogus);
      SortedCons(o, Rec(DirUp, at, info), Travel(up, to, Bogus));
    }
  }

  /** Leaving all directories at the end. */
  lemma {:induction false} CloseSorted(at: Path, o: Option<Key>, info: Info)
    requires at != [] ==> Ahead(o, Key(at, true))
    ensures SortedFrom(o, Travel(at, [], info))
    decreases |at|
  {
    TravelCons(at, [], info);
    if at != [] {
      var up, k := Parent(at), Key(at, true);
      SubtreeBetween(up, k);
      CloseSorted(up, Some(k), Bogus);
      SortedCons(o, Rec(DirUp, at, info), Travel(up, [], Bogus));
    }
  }

  // -------------------------------------------------------------- whole listings

  /** What has been written up to and including record a. */
  predicate Written(o: Option<Key>, a: Rec) {
    o.Some? ==> o.value == KeyOf(a) || Before(o.value, KeyOf(a))
  }

  lemma {:induction false} WrittenBefore(o: Option<Key>, a: Rec, k: Key)
    requires Written(o, a) && Before(KeyOf(a), k)
    ensures Ahead(o, k)
  {
    if o.Some? && o.value != KeyOf(a) {
      BeforeTransitive(o.value, KeyOf(a), k);
    }
  }

  lemma WrittenUpTo(o: Option<Key>, a: Rec, b: Rec)
    requires Written(o, a) && Follows(a, b)
    ensures UpTo(o, b)
  {
    if KeyOf(a) != KeyOf(b) {
      WrittenBefore(o, a, KeyOf(b));
    }
  }

  /** From one record to the next, with the directory records between. */
  lemma {:induction false} NextSorted(o: Option<Key>, a: Rec, b: Rec, info: Info)
    requires Written(o, a) && Follows(a, b) && a.path != [] && b.path != []
    ensures SortedFrom(o, Travel(Dir(a), Dir(b), info)) && UpTo(LastKey(o, Travel(Dir(a), Dir(b), info)), b)
  {
    var at, to := Dir(a), Dir(b);
    DirPrefix(a);
    if at == to {
      WrittenUpTo(o, a, b);
    } else if at <= to {
      var e := to[..|at| + 1];
      assert Parent(e) == at && !(e <= at);
      DownAfter(a, b, e);
      WrittenBefore(o, a, Key(e, false));
    } else {
      LeaveAfter(a);
      WrittenBefore(o, a, Key(at, true));
    }
    hide Written, Before, Dir, Travel;
    TravelSorted(at, to, o, a, b, info);
  }

  lemma LeaveAfter(a: Rec)
    requires a.path != [] && Dir(a) != []
    ensures Before(KeyOf(a), Key(Dir(a), true))
  {
    DirPrefix(a);
    SubtreeBetween(Dir(a), KeyOf(a));
    BeginEnd(Dir(a));
  }

  lemma {:induction false} EmitSorted(at: Path, o: Option<Key>, b: Rec)
    requires b.path != []
    requires var t := Travel(at, Dir(b), if b.kind == DirUp then b.info else Bogus);
             SortedFrom(o, t) && UpTo(LastKey(o, t), b)
    ensures SortedFrom(o, Emit(at, b)) && Written(LastKey(o, Emit(at, b)), b)
  {
    var t := Travel(at, Dir(b), if b.kind == DirUp then b.info else Bogus);
    if IsDir(b) {
      assert t + [] == t;
    } else {
      SortedCons(LastKey(o, t), b, []);
      SortedPlus(o, t, [b]);
      assert [b] + [] == [b];
    }
  }

  lemma {:induction false} CompressSorted(at: Path, o: Option<Key>, a: Option<Rec>, m: seq<Rec>)
    requires OrderlyFrom(a, m)
    requires if a == None then at == [] && o == None
             else a.value.path != [] && at == Dir(a.value) && Written(o, a.value)
    ensures SortedFrom(o, Compress(at, m))
    decreases |m|
  {
    if m == [] {
      if at != [] {
        LeaveAfter(a.value);
        WrittenBefore(o, a.value, Key(at, true));
      }
      CloseSorted(at, o, Bogus);
    } else {
      var b := m[0];
      var info := if b.kind == DirUp then b.info else Bogus;
      if a == None {
        DownSorted([], Dir(b), None, b, info);
      } else {
        NextSorted(o, a.value, b, info);
      }
      EmitSorted(at, o, b);
      hide Travel, Emit, Dir, Follows, Written;
      CompressSorted(Dir(b), LastKey(o, Emit(at, b)), Some(b), m[1..]);
      SortedPlus(o, Emit(at, b), Compress(Dir(b), m[1..]));
    }
  }

  lemma {:induction false} OrderlyNamed(a: Option<Rec>, m: seq<Rec>)
    requires OrderlyFrom(a, m)
    ensures AllNamed(m)
    decreases |m|
  {
    if m != [] {
      OrderlyNamed(Some(m[0]), m[1..]);
    }
  }

  /** Records in order are written as a proper listing. */
  lemma {:induction false} CompressProper(m: seq<Rec>)
    requires OrderlyFrom(None, m)
    ensures Proper(Compress([], m))
  {
    OrderlyNamed(None, m);
    CompressIsNested([], m);
    CompressSorted([], None, None, m);
  }
}
