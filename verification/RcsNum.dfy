/** Revision numbers: the comparison works on their text, and is the
    lexicographic order of the numbers they are made of. */
module RcsNum {
  import opened CNumbers

  type Rev = seq<nat>

  function Sign(a: int, b: int): int {
    if a < b then -1 else if a > b then 1 else 0
  }

  function Lex(x: Rev, y: Rev): int {
    if x == [] || y == [] then Sign(|x|, |y|)
    else if x[0] != y[0] then Sign(x[0], y[0])
    else Lex(x[1..], y[1..])
  }

  function Show(x: Rev): string {
    if x == [] then "" else if |x| == 1 then Digits(x[0]) else Digits(x[0]) + ("." + Show(x[1..]))
  }

  /** Length of the text before the first dot. */
  function FieldLen(s: string): (n: nat)
    ensures n <= |s| && (forall i :: 0 <= i < n ==> s[i] != '.') && (n < |s| ==> s[n] == '.')
  {
    if s == "" || s[0] == '.' then 0 else 1 + FieldLen(s[1..])
  }

  function AfterField(s: string): string {
    var n := FieldLen(s);
    if n < |s| then s[n + 1..] else ""
  }

  /** The sign of strncmp on two strings of the same length. */
  function StrCmp(s: string, t: string): int
    requires |s| == |t|
  {
    if s == "" then 0
    else if s[0] != t[0] then Sign(s[0] as int, t[0] as int)
    else StrCmp(s[1..], t[1..])
  }

  /** The sign of `rcsnum_cmp`, for any two strings. */
  function Cmp(a: string, b: string): int
    decreases |a| + |b|
  {
    if a == "" || b == "" then Sign(if a == "" then 0 else 1, if b == "" then 0 else 1)
    else
      var n, m := FieldLen(a), FieldLen(b);
      if n != m then Sign(n, m)
      else
        var c := StrCmp(a[..n], b[..m]);
        if c != 0 then c else Cmp(AfterField(a), AfterField(b))
  }

  lemma {:induction false} StrCmpTurned(s: string, t: string)
    requires |s| == |t|
    ensures StrCmp(s, t) == -StrCmp(t, s)
  {
    if s != "" {
      StrCmpTurned(s[1..], t[1..]);
    }
  }

  /** Compared the other way round. */
  lemma {:induction false} CmpTurned(a: string, b: string)
    ensures Cmp(a, b) == -Cmp(b, a)
    decreases |a| + |b|
  {
    if a != "" && b != "" {
      var n, m := FieldLen(a), FieldLen(b);
      if n == m {
        StrCmpTurned(a[..n], b[..m]);
        CmpTurned(AfterField(a), AfterField(b));
      }
    }
  }

  lemma {:induction false} CmpStep(a: string, b: string)
    ensures a == "" || b == "" ==> Cmp(a, b) == Sign(if a == "" then 0 else 1, if b == "" then 0 else 1)
    ensures a != "" && b != "" ==>
              var n, m := FieldLen(a), FieldLen(b);
              Cmp(a, b) == if n != m then Sign(n, m)
                           else if StrCmp(a[..n], b[..m]) != 0 then StrCmp(a[..n], b[..m])
                           else Cmp(AfterField(a), AfterField(b))
  {
  }

  /** The field at a position, and where the next one begins. */
  lemma {:induction false} Field(s: string, p: nat)
    requires p <= |s|
    ensures var dot := p + FieldLen(s[p..]);
            dot <= |s| && s[p..][..dot - p] == s[p..dot] &&
            AfterField(s[p..]) == s[if dot < |s| then dot + 1 else dot..]
  {
  }

  method StrNCmp(a: string, b: string, i: nat, j: nat, n: nat) returns (c: int)
    requires i + n <= |a| && j + n <= |b|
    ensures c == StrCmp(a[i..i + n], b[j..j + n])
  {
    var k := 0;
    while k < n
      invariant k <= n
      invariant StrCmp(a[i..i + n], b[j..j + n]) == StrCmp(a[i + k..i + n], b[j + k..j + n])
    {
      var s, t := a[i + k..i + n], b[j + k..j + n];
      assert s[1..] == a[i + k + 1..i + n] && t[1..] == b[j + k + 1..j + n];
      if a[i + k] != b[j + k] { return Sign(a[i + k] as int, b[j + k] as int); }
      k := k + 1;
    }
    return 0;
  }

  method FindDot(a: string, i: nat) returns (d: nat)
    requires i <= |a|
    ensures d == i + FieldLen(a[i..]) && d <= |a|
  {
    d := i;
    while d < |a| && a[d] != '.'
      invariant i <= d <= |a| && i + FieldLen(a[i..]) == d + FieldLen(a[d..])
    {
      assert a[d..][1..] == a[d + 1..];
      d := d + 1;
    }
  }

  /** One round of the comparison, at two positions. */
  lemma {:induction false} CmpAt(a: string, b: string, p: nat, q: nat)
    requires p < |a| && q < |b|
    ensures var n, m := FieldLen(a[p..]), FieldLen(b[q..]);
            && p + n <= |a| && q + m <= |b|
            && Cmp(a[p..], b[q..]) ==
               if n != m then Sign(n, m)
               else if StrCmp(a[p..p + n], b[q..q + m]) != 0 then StrCmp(a[p..p + n], b[q..q + m])
               else Cmp(a[if p + n < |a| then p + n + 1 else p + n..], b[if q + m < |b| then q + m + 1 else q + m..])
  {
    hide Cmp, FieldLen, AfterField, StrCmp;
    Field(a, p);
    Field(b, q);
    CmpStep(a[p..], b[q..]);
  }

  /** Compares two revision numbers (or dates) field by field. */
  method RcsNumCmp(revision1: string, revision2: string) returns (c: int)
    ensures c == Cmp(revision1, revision2)
  {
    hide Cmp, FieldLen, AfterField, StrCmp;
    var p1, p2 := 0, 0;
    while p1 < |revision1| && p2 < |revision2|
      invariant 0 <= p1 <= |revision1| && 0 <= p2 <= |revision2|
      invariant Cmp(revision1, revision2) == Cmp(revision1[p1..], revision2[p2..])
      decreases |revision1| - p1 + |revision2| - p2
    {
      CmpAt(revision1, revision2, p1, p2);
      var dot1 := FindDot(revision1, p1);
      var dot2 := FindDot(revision2, p2);
      var n1, n2 := dot1 - p1, dot2 - p2;
      if n1 > n2 { return 1; } else if n1 < n2 { return -1; }
      var ret := StrNCmp(revision1, revision2, p1, p2, n1);
      if ret != 0 { return ret; }
      p1 := if dot1 < |revision1| then dot1 + 1 else dot1;
      p2 := if dot2 < |revision2| then dot2 + 1 else dot2;
    }
    CmpStep(revision1[p1..], revision2[p2..]);
    if p1 < |revision1| && p2 == |revision2| { return 1; }
    if p1 == |revision1| && p2 < |revision2| { return -1; }
    return 0;
  }

  // ------------------------------------------------- the order of the numbers

  lemma {:induction false} StrCmpSnoc(s: string, t: string, c: char, d: char)
    requires |s| == |t|
    ensures StrCmp(s + [c], t + [d]) == if StrCmp(s, t) != 0 then StrCmp(s, t) else Sign(c as int, d as int)
  {
    if s == "" {
      assert s + [c] == [c] && t + [d] == [d];
    } else {
      assert (s + [c])[1..] == s[1..] + [c] && (t + [d])[1..] == t[1..] + [d];
      StrCmpSnoc(s[1..], t[1..], c, d);
    }
  }

  /** Without leading zeros, a longer number is larger, and numbers of the same
      length compare as their texts. */
  lemma {:induction false} DigitsOrder(x: nat, y: nat)
    ensures |Digits(x)| < |Digits(y)| ==> x < y
    ensures |Digits(x)| == |Digits(y)| ==> StrCmp(Digits(x), Digits(y)) == Sign(x, y)
  {
    if x < 10 && y < 10 {
      assert StrCmp("", "") == 0;
      assert [Digit(x)][1..] == "" && [Digit(y)][1..] == "";
    } else if x >= 10 && y >= 10 {
      DigitsOrder(x / 10, y / 10);
      var s, t := Digits(x / 10), Digits(y / 10);
      if |s| == |t| {
        StrCmpSnoc(s, t, Digit(x % 10), Digit(y % 10));
      }
    } else {
      assert x >= 10 ==> |Digits(x)| >= 2;
      assert y >= 10 ==> |Digits(y)| >= 2;
    }
  }

  lemma {:induction false} FieldOf(ds: string, rest: string)
    requires forall i :: 0 <= i < |ds| ==> IsDigit(ds[i])
    requires rest == "" || rest[0] == '.'
    ensures FieldLen(ds + rest) == |ds|
  {
    if ds != "" {
      assert (ds + rest)[1..] == ds[1..] + rest;
      FieldOf(ds[1..], rest);
    } else {
      assert ds + rest == rest;
    }
  }

  lemma {:induction false} ShowParts(x: Rev)
    requires x != []
    ensures Show(x) != "" && FieldLen(Show(x)) == |Digits(x[0])|
    ensures Show(x)[..|Digits(x[0])|] == Digits(x[0]) && AfterField(Show(x)) == Show(x[1..])
  {
    var ds := Digits(x[0]);
    if |x| == 1 {
      FieldOf(ds, "");
      assert ds + "" == ds && x[1..] == [];
    } else {
      FieldOf(ds, "." + Show(x[1..]));
    }
  }

  /** The comparison of printed numbers is the lexicographic order. */
  lemma {:induction false} CmpIsLex(x: Rev, y: Rev)
    ensures Cmp(Show(x), Show(y)) == Lex(x, y)
  {
    if x != [] { ShowParts(x); }
    if y != [] { ShowParts(y); }
    if x != [] && y != [] {
      DigitsOrder(x[0], y[0]);
      DigitsOrder(y[0], x[0]);
      CmpIsLex(x[1..], y[1..]);
    }
  }

  lemma {:induction false} LexOrder(x: Rev, y: Rev, z: Rev)
    ensures Lex(x, y) == -Lex(y, x)
    ensures Lex(x, y) == 0 <==> x == y
    ensures Lex(x, y) < 0 && Lex(y, z) < 0 ==> Lex(x, z) < 0
  {
    if x != [] && y != [] {
      LexOrder(x[1..], y[1..], if z == [] then [] else z[1..]);
      if x[0] == y[0] && x[1..] == y[1..] {
        assert x == [x[0]] + x[1..] && y == [y[0]] + y[1..];
      }
    }
  }

  /** Printed numbers are equal only for equal numbers. */
  lemma {:induction false} ShowInjective(x: Rev, y: Rev)
    requires Show(x) == Show(y)
    ensures x == y
  {
    CmpIsLex(x, y);
    CmpIsLex(x, x);
    LexOrder(x, x, x);
    LexOrder(x, y, x);
  }
}
