/** Byte strings and the lines that a buffered stream cuts them into.  A byte is
    a `char`; a line keeps its newline, which only the last line may lack. */
module Lines {

  type Line = string

  datatype Option<+T> = None | Some(value: T)

  /** The bytes of a list of lines. */
  function Concat(ls: seq<Line>): string {
    if ls == [] then [] else ls[0] + Concat(ls[1..])
  }

  /** Length of the first line of `s`: up to and including the first newline. */
  function LineLen(s: string): (n: nat)
    requires s != []
    ensures 1 <= n <= |s|
    ensures forall i :: 0 <= i < n - 1 ==> s[i] != '\n'
    ensures s[n - 1] == '\n' || n == |s|
  {
    if s[0] == '\n' || |s| == 1 then 1 else 1 + LineLen(s[1..])
  }

  /** The lines that successive reads of a stream holding `s` deliver. */
  function SplitLines(s: string): seq<Line> {
    if s == [] then []
    else
      var n := LineLen(s);
      [s[..n]] + SplitLines(s[n..])
  }

  predicate IsLine(l: Line) {
    |l| > 0 && forall i :: 0 <= i < |l| - 1 ==> l[i] != '\n'
  }

  predicate Ended(l: Line) {
    |l| > 0 && l[|l| - 1] == '\n'
  }

  /** A list of lines that a stream can deliver: every line but the last is ended. */
  predicate IsText(ls: seq<Line>) {
    && (forall i :: 0 <= i < |ls| ==> IsLine(ls[i]))
    && (forall i :: 0 <= i < |ls| - 1 ==> Ended(ls[i]))
  }

  /** A line put in front of a text. */
  lemma {:induction false} TextCons(l: Line, rest: seq<Line>)
    requires IsLine(l) && IsText(rest) && (rest == [] || Ended(l))
    ensures IsText([l] + rest) && Concat([l] + rest) == l + Concat(rest)
  {
    var ls := [l] + rest;
    assert ls[1..] == rest;
    hide Ended, IsLine;
    forall i | 0 <= i < |ls| - 1 ensures Ended(ls[i]) {
      if i > 0 { assert ls[i] == rest[i - 1]; }
    }
  }

  /** Cutting a byte string into lines loses nothing. */
  lemma {:induction false} SplitKeepsBytes(s: string)
    ensures Concat(SplitLines(s)) == s
    ensures IsText(SplitLines(s))
    decreases |s|
  {
    if s != [] {
      var n := LineLen(s);
      SplitKeepsBytes(s[n..]);
      SplitCons(s, n);
      hide IsText, Concat, LineLen, SplitLines, IsLine, Ended;
      TextCons(s[..n], SplitLines(s[n..]));
      Halves(s, n);
    }
  }

  lemma Halves(s: string, n: nat)
    requires n <= |s|
    ensures s[..n] + s[n..] == s
  {
  }

  lemma {:induction false} SplitCons(s: string, n: nat)
    requires s != [] && n == LineLen(s)
    ensures SplitLines(s) == [s[..n]] + SplitLines(s[n..]) && IsLine(s[..n])
    ensures SplitLines(s[n..]) == [] || Ended(s[..n])
  {
  }

  /** A list of lines survives being written as bytes and read back exactly when
      every line but the last is ended. */
  lemma {:induction false} SplitConcat(ls: seq<Line>)
    ensures SplitLines(Concat(ls)) == ls <==> IsText(ls)
  {
    if IsText(ls) {
      SplitConcatText(ls);
    } else {
      SplitKeepsBytes(Concat(ls));
    }
  }

  lemma {:induction false} FirstLineLen(l: Line, rest: string)
    requires IsLine(l) && (Ended(l) || rest == [])
    ensures LineLen(l + rest) == |l|
  {
    if |l| > 1 {
      assert (l + rest)[1..] == l[1..] + rest;
      FirstLineLen(l[1..], rest);
    }
  }

  lemma {:induction false} SplitConcatText(ls: seq<Line>)
    requires IsText(ls)
    ensures SplitLines(Concat(ls)) == ls
  {
    if ls != [] {
      var l, rest := ls[0], Concat(ls[1..]);
      assert IsText(ls[1..]);
      SplitConcatText(ls[1..]);
      assert IsLine(l);
      assert Ended(l) || rest == [] by {
        if |ls| == 1 { assert ls[1..] == []; }
      }
      SplitFirst(l, rest);
      assert ls == [l] + ls[1..];
    }
  }

  lemma {:induction false} SplitFirst(l: Line, rest: string)
    requires IsLine(l) && (Ended(l) || rest == [])
    ensures SplitLines(l + rest) == [l] + SplitLines(rest)
  {
    FirstLineLen(l, rest);
    var s := l + rest;
    assert s[..|l|] == l && s[|l|..] == rest;
  }

  lemma {:induction false} ConcatAppend(a: seq<Line>, b: seq<Line>)
    ensures Concat(a + b) == Concat(a) + Concat(b)
  {
    if a == [] {
      assert a + b == b;
    } else {
      assert (a + b)[1..] == a[1..] + b;
      ConcatAppend(a[1..], b);
    }
  }
}
