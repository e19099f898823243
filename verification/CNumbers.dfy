/** Decimal numbers as the C library prints (`%ld`) and reads (`strtol`) them. */
module CNumbers {

  const LONG_MAX := 0x7fff_ffff_ffff_ffff
  const LONG_MIN := -0x8000_0000_0000_0000

  predicate IsDigit(c: char) {
    '0' <= c <= '9'
  }

  predicate IsSpace(c: char) {
    c == ' ' || '\t' <= c <= '\r'
  }

  function Digit(d: nat): (c: char)
    requires d < 10
    ensures IsDigit(c)
  {
    '0' + d as char
  }

  function DigitValue(c: char): nat
    requires IsDigit(c)
  {
    (c - '0') as nat
  }

  function Digits(n: nat): (s: string)
    ensures |s| > 0 && forall i :: 0 <= i < |s| ==> IsDigit(s[i])
  {
    if n < 10 then [Digit(n)] else Digits(n / 10) + [Digit(n % 10)]
  }

  function Decimal(n: int): string {
    if n < 0 then "-" + Digits(-n) else Digits(n)
  }

  function Value(s: string): nat
    requires forall i :: 0 <= i < |s| ==> IsDigit(s[i])
  {
    if s == [] then 0 else 10 * Value(s[..|s| - 1]) + DigitValue(s[|s| - 1])
  }

  function SpaceLen(s: string): (k: nat)
    ensures k <= |s|
  {
    if s == [] || !IsSpace(s[0]) then 0 else 1 + SpaceLen(s[1..])
  }

  function DigitLen(s: string): (k: nat)
    ensures k <= |s| && forall i :: 0 <= i < k ==> IsDigit(s[i])
    ensures k < |s| ==> !IsDigit(s[k])
  {
    if s == [] || !IsDigit(s[0]) then 0 else 1 + DigitLen(s[1..])
  }

  /** What strtol(s, &end, 10) gives: the number, the text at `end`, and whether
      errno was set because the number does not fit a long. */
  datatype Scanned = Scanned(value: int, rest: string, range: bool)

  function Strtol(s: string): Scanned {
    var t := s[SpaceLen(s)..];
    var signed := t != [] && (t[0] == '-' || t[0] == '+');
    var u := if signed then t[1..] else t;
    var k := DigitLen(u);
    if k == 0 then Scanned(0, s, false)
    else
      var m: int := Value(u[..k]);
      var v := if signed && t[0] == '-' then -m else m;
      Scanned(v, u[k..], v < LONG_MIN || v > LONG_MAX)
  }

  lemma {:induction false} ValueDigits(n: nat)
    ensures Value(Digits(n)) == n
  {
    if n >= 10 {
      ValueDigits(n / 10);
      var s := Digits(n);
      assert s[..|s| - 1] == Digits(n / 10);
      assert s[|s| - 1] == Digit(n % 10);
    } else {
      assert Digits(n)[..0] == "";
    }
  }

  lemma {:induction false} DigitLenStops(s: string, rest: string)
    requires forall i :: 0 <= i < |s| ==> IsDigit(s[i])
    requires rest == "" || !IsDigit(rest[0])
    ensures DigitLen(s + rest) == |s|
  {
    if s != "" {
      assert (s + rest)[1..] == s[1..] + rest;
      DigitLenStops(s[1..], rest);
    } else {
      assert s + rest == rest;
    }
  }

  /** Reading back a printed number gives the number and leaves the rest. */
  lemma StrtolDecimal(n: int, rest: string)
    requires rest == "" || !IsDigit(rest[0])
    ensures Strtol(Decimal(n) + rest) == Scanned(n, rest, n < LONG_MIN || n > LONG_MAX)
  {
    var m: nat := if n < 0 then -n else n;
    var ds := Digits(m);
    assert IsDigit(ds[0]);
    ValueDigits(m);
    ScanDigits(ds, rest);
    if n < 0 {
      assert Decimal(n) + rest == "-" + (ds + rest);
      StrtolParts("-" + (ds + rest), ds, rest);
    } else {
      StrtolParts(ds + rest, ds, rest);
    }
  }

  lemma {:induction false} StrtolParts(s: string, ds: string, rest: string)
    requires ds != "" && IsDigit(ds[0]) && s in {ds + rest, "-" + (ds + rest)}
    requires forall i :: 0 <= i < |ds| ==> IsDigit(ds[i])
    requires var k := DigitLen(ds + rest); k == |ds| && (ds + rest)[..k] == ds && (ds + rest)[k..] == rest
    ensures var m: int := Value(ds);
            var v := if s[0] == '-' then -m else m;
            Strtol(s) == Scanned(v, rest, v < LONG_MIN || v > LONG_MAX)
  {
    hide Value, DigitLen;
    assert SpaceLen(s) == 0 && s[0..] == s;
    if s[0] == '-' {
      assert s[1..] == ds + rest;
    }
  }

  lemma {:induction false} ScanDigits(ds: string, rest: string)
    requires ds != "" && forall i :: 0 <= i < |ds| ==> IsDigit(ds[i])
    requires rest == "" || !IsDigit(rest[0])
    ensures var k := DigitLen(ds + rest); k == |ds| && (ds + rest)[..k] == ds && (ds + rest)[k..] == rest
  {
    DigitLenStops(ds, rest);
  }
}
