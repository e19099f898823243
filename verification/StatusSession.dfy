/** A legal session of updates writes records in order, and exactly the updates. */
module StatusSession {
  import opened Lines
  import opened Paths
  import opened PathOrder
  import opened StatusList
  import opened StatusSorted
  import opened StatusRead
  import opened StatusMerge

  // -------------------------------------------------------------- in order

  predicate EarlierOp(ops: seq<Op>, t: nat, k: Key)
    requires t <= |ops|
  {
    exists u :: 0 <= u < t && OpKey(ops[u]) == k
  }

  /** The record written last: one of the old listing that no update has touched, or
      one that was put. */
  ghost predicate Prior(rs: seq<Rec>, n: nat, ops: seq<Op>, t: nat, a: Rec) {
    && n <= |rs| && t <= |ops| && a.path != []
    && ((exists i :: 0 <= i < n && rs[i] == a && (IsDir(a) || !EarlierOp(ops, t, KeyOf(a))))
        || (exists u :: 0 <= u < t && ops[u] == Put(a)))
  }

  lemma {:induction false} NestedNamed(at: Path, rs: seq<Rec>, i: nat)
    requires Nested(at, rs) && i < |rs|
    ensures rs[i].path != []
    decreases |rs|
  {
    if i > 0 {
      NestedNamed(Dir(rs[0]), rs[1..], i - 1);
    }
  }

  /** What is left of the old listing may follow what was written last. */
  lemma SeamRest(rs: seq<Rec>, start: nat, ops: seq<Op>, t: nat, a: Rec)
    requires Proper(rs) && Legal(rs, ops) && During(rs, start, ops, t) && start < |rs| && Prior(rs, start, ops, t, a)
    ensures Follows(a, rs[start])
  {
    if i :| 0 <= i < start && rs[i] == a {
      ListingFollows(rs, i, start);
    } else {
      var u :| 0 <= u < t && ops[u] == Put(a);
      var k, b := OpKey(ops[t - 1]), rs[start];
      assert u < t - 1 ==> Before(KeyOf(a), k);
      hide Proper, Legal, Consumed;
      if Before(k, KeyOf(b)) {
        if u < t - 1 { BeforeTransitive(KeyOf(a), k, KeyOf(b)); }
      }
      BeforeTotal(KeyOf(a), KeyOf(a));
      assert PutsFile(ops[u]) ==> !(a.path <= Dir(b));
    }
  }

  /** What is put may follow what was written last. */
  lemma SeamOp(rs: seq<Rec>, n: nat, ops: seq<Op>, t: nat, a: Rec)
    requires Legal(rs, ops) && t < |ops| && ops[t].Put? && Prior(rs, n, ops, t, a)
    requires forall i :: 0 <= i < n ==> Before(KeyOf(rs[i]), OpKey(ops[t]))
    ensures Follows(a, ops[t].rec)
  {
    var r := ops[t].rec;
    assert Before(KeyOf(a), KeyOf(r));
    BeforeTotal(KeyOf(r), KeyOf(r));
    DirPrefix(r);
    if !IsDir(a) && a.path <= Dir(r) {
      assert a.path < r.path by { SameDirectory(a, r); }
      FileInTheWay(rs, n, ops, t, a);
    }
  }

  lemma SameDirectory(a: Rec, r: Rec)
    requires Before(KeyOf(a), KeyOf(r)) && !IsDir(a) && r.path != []
    ensures a.path <= Dir(r) ==> a.path < r.path
  {
    BeforeTotal(KeyOf(r), KeyOf(r));
    DirPrefix(r);
    assert a.path <= Dir(r) && |a.path| >= |r.path| ==> a.path == r.path;
  }

  lemma {:induction false} MentionedEarlier(ops: seq<Op>, t: nat, k: Key)
    requires Increasing(ops) && t < |ops| && Mentioned(ops, k) && Before(k, OpKey(ops[t]))
    ensures EarlierOp(ops, t, k)
  {
    BeforeTotal(k, OpKey(ops[t]));
    var u :| 0 <= u < |ops| && OpKey(ops[u]) == k;
    assert u != t && !(t < u);
  }

  lemma FileInTheWay(rs: seq<Rec>, n: nat, ops: seq<Op>, t: nat, a: Rec)
    requires Legal(rs, ops) && t < |ops| && ops[t].Put? && Prior(rs, n, ops, t, a) && !IsDir(a)
    requires Before(KeyOf(a), OpKey(ops[t]))
    ensures !(a.path < ops[t].rec.path)
  {
    if a.path < ops[t].rec.path && Mentioned(ops, KeyOf(a)) {
      MentionedEarlier(ops, t, KeyOf(a));
    }
  }

  lemma {:induction false} ChainListing(rs: seq<Rec>, i: nat, n: nat, rest: seq<Rec>)
    requires Proper(rs) && i < n <= |rs| && OrderlyFrom(Some(rs[n - 1]), rest)
    ensures OrderlyFrom(Some(rs[i]), rs[i + 1..n] + rest)
    decreases n - i
  {
    if i + 1 == n {
      assert rs[i + 1..n] + rest == rest;
    } else {
      NestedNamed([], rs, i);
      NestedNamed([], rs, i + 1);
      ListingFollows(rs, i, i + 1);
      ChainListing(rs, i + 1, n, rest);
      hide Proper, Follows;
      OrderlyCons(Some(rs[i]), rs[i + 1], rs[i + 2..n] + rest);
      assert [rs[i + 1]] + (rs[i + 2..n] + rest) == rs[i + 1..n] + rest;
    }
  }

  lemma {:induction false} OrderlyCons(a: Option<Rec>, r: Rec, rest: seq<Rec>)
    requires r.path != [] && (a.Some? ==> Follows(a.value, r)) && OrderlyFrom(Some(r), rest)
    ensures OrderlyFrom(a, [r] + rest)
  {
    assert ([r] + rest)[1..] == rest;
  }

  /** The record written before the next update. */
  function LastOf(rs: seq<Rec>, start: nat, n: nat, a: Option<Rec>): Option<Rec>
    requires start <= n <= |rs|
  {
    if start < n then Some(rs[n - 1]) else a
  }

  /** A stretch of the old listing is copied in between. */
  lemma {:induction false} CopyOrderly(rs: seq<Rec>, start: nat, n: nat, ops: seq<Op>, t: nat, a: Option<Rec>,
      rest: seq<Rec>)
    requires Proper(rs) && Legal(rs, ops) && During(rs, start, ops, t) && start <= n <= |rs|
    requires a.Some? ==> Prior(rs, start, ops, t, a.value)
    requires OrderlyFrom(LastOf(rs, start, n, a), rest)
    ensures OrderlyFrom(a, rs[start..n] + rest)
  {
    if start == n {
      assert rs[start..n] + rest == rest;
    } else {
      ChainListing(rs, start, n, rest);
      NestedNamed([], rs, start);
      if a.Some? {
        SeamRest(rs, start, ops, t, a.value);
      }
      hide Proper, Legal, During, Prior, Follows;
      OrderlyCons(a, rs[start], rs[start + 1..n] + rest);
      assert [rs[start]] + (rs[start + 1..n] + rest) == rs[start..n] + rest;
    }
  }

  lemma NoEarlierOp(rs: seq<Rec>, start: nat, ops: seq<Op>, t: nat, i: nat)
    requires Legal(rs, ops) && During(rs, start, ops, t) && start <= i < |rs| && !IsDir(rs[i])
    ensures !EarlierOp(ops, t, KeyOf(rs[i]))
  {
    if t > 0 {
      BeforeTotal(KeyOf(rs[i]), KeyOf(rs[i]));
      forall u | 0 <= u < t ensures OpKey(ops[u]) != KeyOf(rs[i]) {
        if u < t - 1 { BeforeTransitive(OpKey(ops[u]), OpKey(ops[t - 1]), KeyOf(rs[i])); }
      }
    }
  }

  /** The record written last is still good for the seam when an update that puts
      nothing has been dealt with. */
  lemma PriorNext(rs: seq<Rec>, start: nat, ops: seq<Op>, t: nat, a: Rec)
    requires Proper(rs) && Legal(rs, ops) && During(rs, start, ops, t) && t < |ops|
    requires var s1 := Place(rs, start, ops[t]); Prior(rs, s1, ops, t, a)
    ensures Prior(rs, Resume(rs, start, ops[t]), ops, t + 1, a)
  {
    if i :| 0 <= i < Place(rs, start, ops[t]) && rs[i] == a && (IsDir(a) || !EarlierOp(ops, t, KeyOf(a))) {
      PlaceDivides(rs, start, ops[t]);
      if i < start { ConsumedBefore(rs, start, ops, t, i); }
      BeforeTotal(KeyOf(a), KeyOf(a));
      assert KeyOf(a) != OpKey(ops[t]);
    }
  }

  lemma PriorLast(rs: seq<Rec>, start: nat, ops: seq<Op>, t: nat, a: Option<Rec>)
    requires Proper(rs) && Legal(rs, ops) && During(rs, start, ops, t) && t < |ops|
    requires a.Some? ==> Prior(rs, start, ops, t, a.value)
    ensures var s1 := Place(rs, start, ops[t]);
            var last := LastOf(rs, start, s1, a);
            last.Some? ==> Prior(rs, s1, ops, t, last.value)
  {
    assert start <= |rs|;
    hide Place, During, Legal, EarlierOp, IsDir, KeyOf, Nested;
    var s1 := Place(rs, start, ops[t]);
    if start < s1 {
      NestedNamed([], rs, s1 - 1);
      if !IsDir(rs[s1 - 1]) {
        NoEarlierOp(rs, start, ops, t, s1 - 1);
      }
    } else if a.Some? {
      assert Prior(rs, start, ops, t, a.value);
    }
  }

  /** All records before the place of the next update come before it. */
  lemma AllBefore(rs: seq<Rec>, start: nat, ops: seq<Op>, t: nat)
    requires Proper(rs) && Legal(rs, ops) && During(rs, start, ops, t) && t < |ops|
    ensures forall i :: 0 <= i < Place(rs, start, ops[t]) ==> Before(KeyOf(rs[i]), OpKey(ops[t]))
  {
    PlaceDivides(rs, start, ops[t]);
    forall i | 0 <= i < start ensures Before(KeyOf(rs[i]), OpKey(ops[t])) {
      ConsumedBefore(rs, start, ops, t, i);
    }
  }

  lemma {:induction false} PutOrderly(rs: seq<Rec>, start: nat, ops: seq<Op>, t: nat, a: Option<Rec>, rest: seq<Rec>)
    requires Proper(rs) && Legal(rs, ops) && During(rs, start, ops, t) && t < |ops| && ops[t].Put?
    requires a.Some? ==> Prior(rs, start, ops, t, a.value)
    requires OrderlyFrom(Some(ops[t].rec), rest)
    ensures OrderlyFrom(a, rs[start..Place(rs, start, ops[t])] + [ops[t].rec] + rest)
  {
    var r, s1 := ops[t].rec, Place(rs, start, ops[t]);
    var last := LastOf(rs, start, s1, a);
    PriorLast(rs, start, ops, t, a);
    AllBefore(rs, start, ops, t);
    if last.Some? {
      SeamOp(rs, s1, ops, t, last.value);
    }
    assert r.path != [];
    hide Proper, Legal, During, Prior, Follows, Place;
    OrderlyCons(last, r, rest);
    CopyOrderly(rs, start, s1, ops, t, a, [r] + rest);
    assert rs[start..s1] + ([r] + rest) == rs[start..s1] + [r] + rest;
  }

  lemma PriorPut(rs: seq<Rec>, n: nat, ops: seq<Op>, t: nat)
    requires Legal(rs, ops) && t < |ops| && ops[t].Put? && n <= |rs|
    ensures Prior(rs, n, ops, t + 1, ops[t].rec)
  {
  }

  lemma {:induction false} EndCase(rs: seq<Rec>, start: nat, ops: seq<Op>, a: Option<Rec>)
    requires Proper(rs) && Legal(rs, ops) && During(rs, start, ops, |ops|)
    requires a.Some? ==> Prior(rs, start, ops, |ops|, a.value)
    ensures OrderlyFrom(a, Merged(rs[start..], []))
  {
    CopyOrderly(rs, start, |rs|, ops, |ops|, a, []);
    assert rs[start..|rs|] + [] == rs[start..];
  }

  lemma {:induction false} PutCase(rs: seq<Rec>, start: nat, ops: seq<Op>, t: nat, a: Option<Rec>)
    requires Proper(rs) && Legal(rs, ops) && During(rs, start, ops, t) && t < |ops| && ops[t].Put?
    requires a.Some? ==> Prior(rs, start, ops, t, a.value)
    requires OrderlyFrom(Some(ops[t].rec), Merged(rs[Resume(rs, start, ops[t])..], ops[t + 1..]))
    ensures OrderlyFrom(a, Merged(rs[start..], ops[t..]))
  {
    hide Proper, Legal, RestAfter, Consumed, Cleared, Prior, Follows, Merged, Place, Resume, OrderlyFrom;
    MergedStep(rs, start, ops, t);
    PutOrderly(rs, start, ops, t, a, Merged(rs[Resume(rs, start, ops[t])..], ops[t + 1..]));
  }

  lemma {:induction false} DeleteCase(rs: seq<Rec>, start: nat, ops: seq<Op>, t: nat, a: Option<Rec>)
    requires Proper(rs) && Legal(rs, ops) && During(rs, start, ops, t) && t < |ops| && !ops[t].Put?
    requires a.Some? ==> Prior(rs, start, ops, t, a.value)
    requires var last := LastOf(rs, start, Place(rs, start, ops[t]), a);
             OrderlyFrom(last, Merged(rs[Resume(rs, start, ops[t])..], ops[t + 1..]))
    ensures OrderlyFrom(a, Merged(rs[start..], ops[t..]))
  {
    hide Proper, Legal, RestAfter, Consumed, Cleared, Prior, Follows, Merged, Place, Resume, OrderlyFrom;
    MergedStep(rs, start, ops, t);
    var s1, rest := Place(rs, start, ops[t]), Merged(rs[Resume(rs, start, ops[t])..], ops[t + 1..]);
    CopyOrderly(rs, start, s1, ops, t, a, rest);
    assert rs[start..s1] + [] == rs[start..s1];
  }

  lemma DuringBounds(rs: seq<Rec>, start: nat, ops: seq<Op>, t: nat)
    requires During(rs, start, ops, t)
    ensures t <= |ops| && start <= |rs|
  {
  }

  lemma {:induction false} PriorAfterDelete(rs: seq<Rec>, start: nat, ops: seq<Op>, t: nat, a: Option<Rec>)
    requires Proper(rs) && Legal(rs, ops) && During(rs, start, ops, t) && t < |ops|
    requires a.Some? ==> Prior(rs, start, ops, t, a.value)
    ensures var last := LastOf(rs, start, Place(rs, start, ops[t]), a);
            last.Some? ==> Prior(rs, Resume(rs, start, ops[t]), ops, t + 1, last.value)
  {
    hide Proper, Legal, RestAfter, Consumed, Cleared, Prior, Place, Resume;
    PriorLast(rs, start, ops, t, a);
    var last := LastOf(rs, start, Place(rs, start, ops[t]), a);
    if last.Some? {
      PriorNext(rs, start, ops, t, last.value);
    }
  }

  lemma {:induction false} MergedOrderly(rs: seq<Rec>, start: nat, ops: seq<Op>, t: nat, a: Option<Rec>)
    requires Proper(rs) && Legal(rs, ops) && During(rs, start, ops, t)
    requires a.Some? ==> Prior(rs, start, ops, t, a.value)
    ensures OrderlyFrom(a, Merged(rs[start..], ops[t..]))
    decreases |ops| - t
  {
    hide Proper, Legal, During, Prior, Merged, Place, Resume, OrderlyFrom, LastOf;
    DuringBounds(rs, start, ops, t);
    if t == |ops| {
      assert ops[t..] == [];
      EndCase(rs, start, ops, a);
    } else {
      var s1, s2 := Place(rs, start, ops[t]), Resume(rs, start, ops[t]);
      StepDuring(rs, start, ops, t);
      if ops[t].Put? {
        PriorPut(rs, s2, ops, t);
        MergedOrderly(rs, s2, ops, t + 1, Some(ops[t].rec));
        PutCase(rs, start, ops, t, a);
      } else {
        var last := LastOf(rs, start, s1, a);
        PriorAfterDelete(rs, start, ops, t, a);
        MergedOrderly(rs, s2, ops, t + 1, last);
        DeleteCase(rs, start, ops, t, a);
      }
    }
  }

  lemma AtStart(rs: seq<Rec>, ops: seq<Op>)
    ensures During(rs, 0, ops, 0) && rs[0..] == rs && ops[0..] == ops
  {
  }

  /** The file that a legal session writes is a proper listing: reading it to the
      end raises no error, and the next session may start from it. */
  lemma {:induction false} SessionProper(rs: seq<Rec>, ops: seq<Op>)
    requires Proper(rs) && Legal(rs, ops)
    ensures var out := Compress([], Merged(rs, ops));
            Proper(out) && ReadAll(Opened(out)) == (out, None)
  {
    AtStart(rs, ops);
    MergedOrderly(rs, 0, ops, 0, None);
    CompressProper(Merged(rs, ops));
    ProperReads(Compress([], Merged(rs, ops)));
  }

  // ----------------------------------------------------- exactly the updates

  /** The file a listing records at a path. */
  function FileAt(rs: seq<Rec>, p: Path): Option<Rec> {
    if rs == [] then None
    else if !IsDir(rs[0]) && rs[0].path == p then Some(rs[0])
    else FileAt(rs[1..], p)
  }

  /** Does an update say what becomes of the file at a path: is it about it, or does
      it put a file in place of a directory that holds it? */
  predicate Says(op: Op, p: Path) {
    OpKey(op) == Key(p, false) || (PutsFile(op) && op.rec.path < p)
  }

  /** What becomes of the file at a path: what a session says of it, or else what
      the old listing has. */
  function Expected(rs: seq<Rec>, ops: seq<Op>, p: Path): Option<Rec>
    decreases |ops|
  {
    if ops == [] then FileAt(rs, p)
    else if Says(ops[0], p) then
      if PutsFile(ops[0]) && ops[0].rec.path == p then Some(ops[0].rec) else None
    else Expected(rs, ops[1..], p)
  }

  lemma {:induction false} FileAtPlus(a: seq<Rec>, b: seq<Rec>, p: Path)
    ensures FileAt(a + b, p) == if FileAt(a, p).Some? then FileAt(a, p) else FileAt(b, p)
  {
    if a == [] {
      assert a + b == b;
    } else {
      assert (a + b)[1..] == a[1..] + b;
      FileAtPlus(a[1..], b, p);
    }
  }

  lemma {:induction false} FileAtWhere(rs: seq<Rec>, p: Path)
    ensures FileAt(rs, p) == None ==> forall i :: 0 <= i < |rs| ==> IsDir(rs[i]) || rs[i].path != p
    ensures FileAt(rs, p).Some? ==> exists i :: 0 <= i < |rs| && rs[i] == FileAt(rs, p).value
    ensures FileAt(rs, p).Some? ==> !IsDir(FileAt(rs, p).value) && FileAt(rs, p).value.path == p
  {
    if rs != [] {
      FileAtWhere(rs[1..], p);
      if FileAt(rs[1..], p).Some? {
        var i :| 0 <= i < |rs[1..]| && rs[1..][i] == FileAt(rs[1..], p).value;
        assert rs[i + 1] == FileAt(rs[1..], p).value;
      }
    }
  }

  lemma {:induction false} NoneSays(rs: seq<Rec>, ops: seq<Op>, t: nat, p: Path)
    requires t <= |ops| && forall u :: t <= u < |ops| ==> !Says(ops[u], p)
    ensures Expected(rs, ops[t..], p) == FileAt(rs, p)
    decreases |ops| - t
  {
    if t == |ops| {
      assert ops[t..] == [];
    } else {
      assert ops[t..][0] == ops[t] && ops[t..][1..] == ops[t + 1..];
      NoneSays(rs, ops, t + 1, p);
    }
  }

  /** No update says anything of a file that comes before it. */
  lemma LaterSaysNothing(rs: seq<Rec>, ops: seq<Op>, t: nat, u: nat, p: Path)
    requires Legal(rs, ops) && t <= u < |ops|
    requires Before(Key(p, false), OpKey(ops[t])) || (t < u && Key(p, false) == OpKey(ops[t]))
    ensures !Says(ops[u], p)
  {
    var k, k2 := Key(p, false), OpKey(ops[u]);
    if t < u {
      assert Before(OpKey(ops[t]), k2);
      if k != OpKey(ops[t]) { BeforeTransitive(k, OpKey(ops[t]), k2); }
    }
    BeforeTotal(k, k2);
    if PutsFile(ops[u]) && ops[u].rec.path < p {
      SubtreeBetween(ops[u].rec.path, k);
    }
  }

  /** An update that says nothing of a file does not take its record away. */
  lemma {:induction false} OthersStay(rs: seq<Rec>, start: nat, ops: seq<Op>, t: nat, p: Path)
    requires Proper(rs) && Legal(rs, ops) && start <= |rs| && t < |ops| && !Says(ops[t], p)
    ensures var s1, s2 := Place(rs, start, ops[t]), Resume(rs, start, ops[t]);
            FileAt(rs[s1..s2], p) == None
  {
    var op, s1, s2 := ops[t], Place(rs, start, ops[t]), Resume(rs, start, ops[t]);
    FileAtWhere(rs[s1..s2], p);
    if FileAt(rs[s1..s2], p).Some? {
      var i :| 0 <= i < s2 - s1 && rs[s1..s2][i] == FileAt(rs[s1..s2], p).value;
      assert rs[s1 + i] == rs[s1..s2][i];
      assert rs[s1..][0] == rs[s1];
      if i == 0 {
      } else {
        TakenDirectory(rs, s1, op);
        SortedAt(None, rs, s1, s1 + i);
        SubtreeBetween(op.rec.path, Key(p, false));
      }
    }
  }

  lemma {:induction false} FoundInPlace(rs: seq<Rec>, start: nat, ops: seq<Op>, t: nat, p: Path)
    requires Proper(rs) && Legal(rs, ops) && start <= |rs| && t < |ops|
    requires FileAt(rs[start..Place(rs, start, ops[t])], p).Some?
    ensures Before(Key(p, false), OpKey(ops[t]))
  {
    var s1 := Place(rs, start, ops[t]);
    FileAtWhere(rs[start..s1], p);
    var i :| 0 <= i < s1 - start && rs[start..s1][i] == FileAt(rs[start..s1], p).value;
    assert rs[start + i] == rs[start..s1][i];
    PlaceDivides(rs, start, ops[t]);
  }

  /** A file that an update is about, or takes away, is not among what is left. */
  lemma {:induction false} GoneAfter(rs: seq<Rec>, start: nat, ops: seq<Op>, t: nat, p: Path)
    requires Proper(rs) && Legal(rs, ops) && During(rs, start, ops, t) && t < |ops| && Says(ops[t], p)
    ensures FileAt(rs[Resume(rs, start, ops[t])..], p) == None
  {
    var s2 := Resume(rs, start, ops[t]);
    StepDuring(rs, start, ops, t);
    FileAtWhere(rs[s2..], p);
    hide Proper, Legal, Resume, Consumed;
    if FileAt(rs[s2..], p).Some? {
      var i :| 0 <= i < |rs| - s2 && rs[s2..][i] == FileAt(rs[s2..], p).value;
      assert rs[s2 + i] == rs[s2..][i];
      DirPrefix(rs[s2 + i]);
      BeforeTotal(Key(p, false), Key(p, false));
    }
  }

  /** After an update that says what becomes of a file, nothing else brings it back. */
  lemma {:induction false} SaidOnce(rs: seq<Rec>, start: nat, ops: seq<Op>, t: nat, p: Path)
    requires Proper(rs) && Legal(rs, ops) && During(rs, start, ops, t) && t < |ops| && Says(ops[t], p)
    ensures Expected(rs[Resume(rs, start, ops[t])..], ops[t + 1..], p) == None
  {
    GoneAfter(rs, start, ops, t, p);
    hide Resume, During, Proper;
    NotBroughtBack(rs, rs[Resume(rs, start, ops[t])..], ops, t, t + 1, p);
  }

  lemma {:induction false} NotBroughtBack(rs: seq<Rec>, rest: seq<Rec>, ops: seq<Op>, t: nat, u: nat, p: Path)
    requires Legal(rs, ops) && t < u <= |ops| && Says(ops[t], p) && FileAt(rest, p) == None
    ensures Expected(rest, ops[u..], p) == None
    decreases |ops| - u
  {
    if u == |ops| {
      assert ops[u..] == [];
    } else {
      assert ops[u..][0] == ops[u] && ops[u..][1..] == ops[u + 1..];
      BeforeTotal(OpKey(ops[t]), OpKey(ops[t]));
      assert !(PutsFile(ops[u]) && ops[u].rec.path == p);
      NotBroughtBack(rs, rest, ops, t, u + 1, p);
    }
  }

  lemma {:induction false} UpdatesFrom(rs: seq<Rec>, start: nat, ops: seq<Op>, t: nat, p: Path)
    requires Proper(rs) && Legal(rs, ops) && During(rs, start, ops, t)
    ensures start <= |rs| && t <= |ops|
    ensures FileAt(Merged(rs[start..], ops[t..]), p) == Expected(rs[start..], ops[t..], p)
    decreases |ops| - t
  {
    if t == |ops| {
      assert ops[t..] == [];
    } else {
      StepDuring(rs, start, ops, t);
      UpdatesFrom(rs, Resume(rs, start, ops[t]), ops, t + 1, p);
      UpdateStep(rs, start, ops, t, p);
    }
  }

  lemma {:induction false} FileInParts(rs: seq<Rec>, i: nat, j: nat, k: nat, p: Path)
    requires i <= j <= k <= |rs|
    ensures FileAt(rs[i..], p) ==
            if FileAt(rs[i..j], p).Some? then FileAt(rs[i..j], p)
            else if FileAt(rs[j..k], p).Some? then FileAt(rs[j..k], p)
            else FileAt(rs[k..], p)
  {
    FileAtPlus(rs[j..k], rs[k..], p);
    FileAtPlus(rs[i..j], rs[j..], p);
    assert rs[j..k] + rs[k..] == rs[j..] && rs[i..j] + rs[j..] == rs[i..];
  }

  lemma {:induction false} MergedFile(rs: seq<Rec>, start: nat, ops: seq<Op>, t: nat, p: Path)
    requires start <= |rs| && t < |ops|
    ensures var s1, s2 := Place(rs, start, ops[t]), Resume(rs, start, ops[t]);
            FileAt(Merged(rs[start..], ops[t..]), p) ==
            if FileAt(rs[start..s1], p).Some? then FileAt(rs[start..s1], p)
            else if PutsFile(ops[t]) && ops[t].rec.path == p then Some(ops[t].rec)
            else FileAt(Merged(rs[s2..], ops[t + 1..]), p)
  {
    var s1, s2 := Place(rs, start, ops[t]), Resume(rs, start, ops[t]);
    var put, rest := if ops[t].Put? then [ops[t].rec] else [], Merged(rs[s2..], ops[t + 1..]);
    MergedStep(rs, start, ops, t);
    hide Merged, Place, Resume;
    FileAtPlus(rs[start..s1] + put, rest, p);
    FileAtPlus(rs[start..s1], put, p);
  }

  lemma {:induction false} ExpectedStep(rest: seq<Rec>, ops: seq<Op>, t: nat, p: Path)
    requires t < |ops|
    ensures Expected(rest, ops[t..], p) ==
            if Says(ops[t], p) then if PutsFile(ops[t]) && ops[t].rec.path == p then Some(ops[t].rec) else None
            else Expected(rest, ops[t + 1..], p)
  {
    assert ops[t..][0] == ops[t] && ops[t..][1..] == ops[t + 1..];
  }

  /** What is expected depends only on the file at the path. */
  lemma {:induction false} ExpectedSame(a: seq<Rec>, b: seq<Rec>, ops: seq<Op>, p: Path)
    requires FileAt(a, p) == FileAt(b, p)
    ensures Expected(a, ops, p) == Expected(b, ops, p)
    decreases |ops|
  {
    if ops != [] {
      ExpectedSame(a, b, ops[1..], p);
    }
  }

  lemma {:induction false} BeforePlace(rs: seq<Rec>, start: nat, ops: seq<Op>, t: nat, p: Path)
    requires Proper(rs) && Legal(rs, ops) && start <= |rs| && t < |ops|
    requires FileAt(rs[start..Place(rs, start, ops[t])], p).Some?
    ensures Expected(rs[start..], ops[t..], p) == FileAt(rs[start..], p)
  {
    FoundInPlace(rs, start, ops, t, p);
    hide Place, Proper, Says;
    forall u | t <= u < |ops| ensures !Says(ops[u], p) {
      LaterSaysNothing(rs, ops, t, u, p);
    }
    NoneSays(rs[start..], ops, t, p);
  }

  lemma {:induction false} UpdateStep(rs: seq<Rec>, start: nat, ops: seq<Op>, t: nat, p: Path)
    requires Proper(rs) && Legal(rs, ops) && During(rs, start, ops, t) && t < |ops|
    requires var s2 := Resume(rs, start, ops[t]);
             FileAt(Merged(rs[s2..], ops[t + 1..]), p) == Expected(rs[s2..], ops[t + 1..], p)
    ensures FileAt(Merged(rs[start..], ops[t..]), p) == Expected(rs[start..], ops[t..], p)
  {
    assert start <= |rs|;
    var s1, s2 := Place(rs, start, ops[t]), Resume(rs, start, ops[t]);
    assert Says(ops[t], p) || !(PutsFile(ops[t]) && ops[t].rec.path == p);
    hide Proper, Legal, During, Merged, Place, Resume, Says, Expected, FileAt;
    FileInParts(rs, start, s1, s2, p);
    MergedFile(rs, start, ops, t, p);
    ExpectedStep(rs[start..], ops, t, p);
    if FileAt(rs[start..s1], p).Some? {
      BeforePlace(rs, start, ops, t, p);
    } else if Says(ops[t], p) {
      SaidOnce(rs, start, ops, t, p);
    } else {
      OthersStay(rs, start, ops, t, p);
      ExpectedSame(rs[start..], rs[s2..], ops[t + 1..], p);
    }
  }

  /** The written file records at every path exactly what is expected: what was put,
      nothing where a file was deleted or a directory replaced, the old file else. */
  lemma {:induction false} UpdatesExact(rs: seq<Rec>, ops: seq<Op>, p: Path)
    requires Proper(rs) && Legal(rs, ops)
    ensures FileAt(Compress([], Merged(rs, ops)), p) == Expected(rs, ops, p)
  {
    AtStart(rs, ops);
    UpdatesFrom(rs, 0, ops, 0, p);
    FilesKept([], Merged(rs, ops));
    FileAtFiles(Compress([], Merged(rs, ops)), p);
    FileAtFiles(Merged(rs, ops), p);
  }

  lemma {:induction false} FileAtFiles(rs: seq<Rec>, p: Path)
    ensures FileAt(rs, p) == FileAt(Files(rs), p)
  {
    if rs != [] {
      FileAtFiles(rs[1..], p);
      if !IsDir(rs[0]) {
        assert Files(rs)[1..] == Files(rs[1..]);
      } else {
        assert Files(rs) == Files(rs[1..]);
      }
    }
  }
}
