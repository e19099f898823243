/** The order of the status file: a directory, what is below it, its end. */
module PathOrder {
  import opened Paths

  /** What an entry is sorted by: its path, and whether it is the end of the
      directory of that name. */
  datatype Key = Key(path: Path, up: bool)

  /** Depth first, names compared byte by byte; the entry of a directory or file
      comes before everything below it, a directory's end behind it. */
  predicate Before(a: Key, b: Key)
    decreases |a.path|
  {
    if a.path == [] then !a.up && (b.path == [] ==> b.up)
    else if b.path == [] then b.up
    else if a.path[0] == b.path[0] then Before(Below(a), Below(b))
    else Compare(a.path[0], b.path[0]) < 0
  }

  /** The key seen from inside the first directory of its path. */
  function Below(k: Key): Key
    requires k.path != []
  {
    Key(k.path[1..], k.up)
  }

  // --------------------------------------------------------- a strict total order

  lemma {:induction false} CompareTotal(s: string, t: string)
    requires Terminated(s) && Terminated(t)
    ensures Compare(s, t) == 0 <==> s == t
    ensures Compare(s, t) == -Compare(t, s)
    decreases |s|
  {
    if s != "" && t != "" && Rank(s, 0) == Rank(t, 0) {
      CompareTotal(s[1..], t[1..]);
      assert s == [s[0]] + s[1..] && t == [t[0]] + t[1..];
    }
  }

  lemma {:induction false} CompareTransitive(s: string, t: string, u: string)
    requires Terminated(s) && Terminated(t) && Terminated(u)
    requires Compare(s, t) < 0 && Compare(t, u) < 0
    ensures Compare(s, u) < 0
    decreases |s|
  {
    if s != "" && t != "" && u != "" && Rank(s, 0) == Rank(t, 0) == Rank(u, 0) {
      CompareTransitive(s[1..], t[1..], u[1..]);
    }
  }

  lemma {:induction false} BeforeTotal(a: Key, b: Key)
    ensures Before(a, b) || Before(b, a) || a == b
    ensures !(Before(a, b) && Before(b, a)) && !Before(a, a)
    decreases |a.path|
  {
    if a.path == [] || b.path == [] {
      if a.path != [] { BeforeTotal(Below(a), Below(a)); }
    } else {
      BeforeTotal(Below(a), Below(a));
      if a.path[0] == b.path[0] {
        BeforeTotal(Below(a), Below(b));
        assert a.path == [a.path[0]] + a.path[1..] && b.path == [b.path[0]] + b.path[1..];
      } else {
        CompareTotal(a.path[0], b.path[0]);
      }
    }
  }

  lemma {:induction false} BeforeTransitive(a: Key, b: Key, c: Key)
    requires Before(a, b) && Before(b, c)
    ensures Before(a, c)
    decreases |a.path|
  {
    if a.path != [] && b.path != [] && c.path != [] {
      var x, y, z := a.path[0], b.path[0], c.path[0];
      if x == y == z {
        BeforeTransitive(Below(a), Below(b), Below(c));
      } else if x != y && y != z {
        CompareTransitive(x, y, z);
        CompareTotal(x, x);
      }
    }
  }

  /** Everything below a directory, and nothing else, is between its two entries. */
  lemma {:induction false} SubtreeBetween(d: Path, k: Key)
    ensures d <= k.path && k != Key(d, false) && k != Key(d, true)
            <==> Before(Key(d, false), k) && Before(k, Key(d, true))
    decreases |d|
  {
    if d == [] {
    } else if k.path == [] {
    } else if d[0] == k.path[0] {
      SubtreeBetween(d[1..], Below(k));
      assert d == [d[0]] + d[1..] && k.path == [k.path[0]] + k.path[1..];
    } else {
      CompareTotal(d[0], k.path[0]);
    }
  }

  // ------------------------------------------------------- the code's comparison

  /** Is b, as a string, a itself or below the directory a? */
  predicate Holds(a: string, b: string) {
    ((|a| < |b| && b[|a|] == '/') || |a| == |b|) && a <= b
  }

  function RecCmp(aup: bool, a: string, bup: bool, b: string): int {
    if aup && Holds(a, b) then 1
    else if bup && Holds(b, a) then -1
    else Compare(a, b)
  }

  method StatusRecCmp(aup: bool, a: string, bup: bool, b: string) returns (c: int)
    requires Terminated(a) && Terminated(b)
    ensures c == RecCmp(aup, a, bup, b)
  {
    if aup || bup {
      var lena, lenb := |a|, |b|;
      if aup && ((lena < lenb && b[lena] == '/') || lena == lenb) && a == b[..lena] {
        return 1;
      }
      if bup && ((lenb < lena && a[lenb] == '/') || lenb == lena) && b == a[..lenb] {
        return -1;
      }
    }
    c := PathCmp(a, b);
  }

  /** What may stand behind a name in a path: nothing, or a slash and more names. */
  predicate Tail(u: string) {
    u == "" || u[0] == '/'
  }

  /** Paths that begin with different names compare as these names. */
  lemma {:induction false} NamesDiffer(x: string, y: string, u: string, v: string)
    requires x != y && Tail(u) && Tail(v)
    requires forall i :: 0 <= i < |x| ==> 2 <= x[i] as int < 128 && x[i] != '/'
    requires forall i :: 0 <= i < |y| ==> 2 <= y[i] as int < 128 && y[i] != '/'
    ensures Compare(x + u, y + v) < 0 <==> Compare(x, y) < 0
    ensures Compare(x + u, y + v) != 0
    decreases |x|
  {
    if x != "" && y != "" && x[0] == y[0] {
      assert (x + u)[1..] == x[1..] + u && (y + v)[1..] == y[1..] + v;
      assert x == [x[0]] + x[1..] && y == [y[0]] + y[1..];
      NamesDiffer(x[1..], y[1..], u, v);
    } else if x == "" {
      assert x + u == u;
    } else if y == "" {
      assert y + v == v;
    }
  }

  /** A shared beginning does not matter. */
  lemma {:induction false} SameStart(x: string, u: string, v: string)
    ensures Compare(x + u, x + v) == Compare(u, v)
    decreases |x|
  {
    if x == "" {
      assert x + u == u && x + v == v;
    } else {
      assert (x + u)[1..] == x[1..] + u && (x + v)[1..] == x[1..] + v;
      SameStart(x[1..], u, v);
    }
  }

  /** The rest of a path's string behind its first name. */
  function Rest(p: Path): (u: string)
    requires p != []
    ensures Join(p) == p[0] + u && Tail(u)
  {
    if |p| == 1 then "" else "/" + Join(p[1..])
  }

  /** The byte order of path strings is the order of entries that are no ends. */
  lemma {:induction false} CompareJoin(p: Path, q: Path)
    ensures Compare(Join(p), Join(q)) < 0 <==> Before(Key(p, false), Key(q, false))
    ensures Compare(Join(p), Join(q)) == 0 <==> p == q
    decreases |p|
  {
    JoinEmpty(p);
    JoinEmpty(q);
    if p != [] && q != [] {
      var x, y := p[0], q[0];
      if x == y {
        SameStart(x, Rest(p), Rest(q));
        CompareJoin(p[1..], q[1..]);
        assert p == [x] + p[1..] && q == [y] + q[1..];
        JoinEmpty(p[1..]);
        JoinEmpty(q[1..]);
        if |p| > 1 && |q| > 1 {
          SameStart("/", Join(p[1..]), Join(q[1..]));
        }
      } else {
        NamesDiffer(x, y, Rest(p), Rest(q));
      }
    }
  }

  lemma {:induction false} HoldsPrefix(p: Path, q: Path)
    requires p != []
    ensures Holds(Join(p), Join(q)) <==> p <= q
  {
    PrefixStrings(p, q);
    JoinEmpty(p);
  }

  /** Ends only matter for entries inside one another's directories. */
  lemma {:induction false} EndsApart(a: Key, b: Key)
    ensures a.up && a.path <= b.path ==> !Before(a, b) || (a.path == b.path && b.up)
    ensures a.up && a.path <= b.path && a != b ==> Before(b, a)
    ensures !(a.up && a.path <= b.path) && !(b.up && b.path <= a.path)
            ==> Before(a, b) == Before(Key(a.path, false), Key(b.path, false))
    decreases |a.path|
  {
    if a.path != [] && b.path != [] && a.path[0] == b.path[0] {
      EndsApart(Below(a), Below(b));
      assert a.path == [a.path[0]] + a.path[1..] && b.path == [b.path[0]] + b.path[1..];
    }
  }

  /** The comparison is the depth-first order, but for calling the end of a
      directory behind itself. */
  lemma {:induction false} RecCmpOrder(a: Key, b: Key)
    requires a.path != [] && b.path != []
    ensures var c := RecCmp(a.up, Join(a.path), b.up, Join(b.path));
            && (c < 0 <==> Before(a, b))
            && (c == 0 <==> a == b && !a.up)
            && (c > 0 <==> Before(b, a) || (a == b && a.up))
  {
    HoldsPrefix(a.path, b.path);
    HoldsPrefix(b.path, a.path);
    CompareJoin(a.path, b.path);
    EndsApart(a, b);
    EndsApart(b, a);
    BeforeTotal(a, b);
    BeforeTotal(Key(a.path, false), Key(b.path, false));
  }
}
