/** Digits of natural numbers, least significant first, and multiplying them in place. */
module Radix {
  import opened Basics
  import opened Powers

  predicate Digits(l: seq<nat>, base: nat) {
    forall i | 0 <= i < |l| :: l[i] < base
  }

  /** No superfluous zero at the most significant end. */
  predicate Minimal(l: seq<nat>) {
    |l| > 0 ==> l[|l| - 1] != 0
  }

  function Value(l: seq<nat>, base: nat): nat {
    if |l| == 0 then 0 else l[0] + base * Value(l[1..], base)
  }

  /** The minimal digits of a number; none for 0. */
  function Of(v: nat, base: nat): seq<nat>
    requires base > 1
  {
    if v == 0 then [] else
      QuotientLess(v, base);
      [v % base] + Of(v / base, base)
  }

  lemma {:induction false} OfValue(v: nat, base: nat)
    requires base > 1
    ensures Value(Of(v, base), base) == v && Digits(Of(v, base), base) && Minimal(Of(v, base))
    decreases v
  {
    if v > 0 {
      QuotientLess(v, base);
      OfValue(v / base, base);
      var tail := Of(v / base, base);
      assert Of(v, base)[1..] == tail;
      if |tail| == 0 {
        assert v / base == 0;
      }
    }
  }

  lemma QuotientLess(v: nat, base: nat)
    requires v > 0 && base > 1
    ensures v / base < v && v == v % base + base * (v / base)
    ensures v / base == 0 ==> v % base == v
  {
    var q := v / base;
    DivMod(v, base);
    if q >= v {
      MulMono(2, q, base, q);
    }
    if q == 0 {
      assert base * 0 == 0;
    }
  }

  lemma DivMod(v: nat, base: nat)
    requires base > 0
    ensures v == base * (v / base) + v % base && 0 <= v % base < base
  {
  }

  lemma Split(d: nat, base: nat, q: nat)
    requires d < base
    ensures (d + base * q) % base == d && (d + base * q) / base == q
  {
    var v := d + base * q;
    assert v == base * (v / base) + v % base;
    QuotientUnique(base, v / base, v % base, q, d);
  }

  lemma QuotientUnique(base: nat, q: nat, r: nat, q': nat, r': nat)
    requires r < base && r' < base && base * q + r == base * q' + r'
    ensures q == q' && r == r'
  {
    if q < q' {
      MulLess(q, q', base);
    } else if q' < q {
      MulLess(q', q, base);
    }
  }

  /** Minimal digits are determined by their value. */
  lemma {:induction false} MinimalUnique(l: seq<nat>, base: nat)
    requires base > 1 && Digits(l, base) && Minimal(l)
    ensures Of(Value(l, base), base) == l
    decreases |l|
  {
    if |l| > 0 {
      var tail := l[1..];
      MinimalUnique(tail, base);
      Split(l[0], base, Value(tail, base));
      if Value(l, base) == 0 {
        ZeroValue(tail, base);
      }
    }
  }

  lemma ZeroValue(l: seq<nat>, base: nat)
    requires base > 1 && Digits(l, base) && Minimal(l) && Of(Value(l, base), base) == l
    ensures Value(l, base) == 0 ==> |l| == 0
  {
  }

  /** Digits of the same length are determined by their value. */
  lemma {:induction false} FixedUnique(a: seq<nat>, b: seq<nat>, base: nat)
    requires base > 1 && |a| == |b| && Digits(a, base) && Digits(b, base) && Value(a, base) == Value(b, base)
    ensures a == b
    decreases |a|
  {
    if |a| > 0 {
      Split(a[0], base, Value(a[1..], base));
      Split(b[0], base, Value(b[1..], base));
      FixedUnique(a[1..], b[1..], base);
      assert a == [a[0]] + a[1..] && b == [b[0]] + b[1..];
    }
  }

  lemma {:induction false} ValueBelow(l: seq<nat>, base: nat)
    requires base > 0 && Digits(l, base)
    ensures Value(l, base) < Pow(base, |l|)
    decreases |l|
  {
    if |l| > 0 {
      ValueBelow(l[1..], base);
      var p := Pow(base, |l| - 1);
      MulMono(base, Value(l[1..], base), base, p - 1);
      assert base * (p - 1) == base * p - base;
    }
  }

  // ---------------------------------------------------------------------------------------------
  // Multiplying and adding
  // ---------------------------------------------------------------------------------------------

  /** The digits after the loop that multiplies by `factor` and carries, with the carry written out. */
  function MulAdd(l: seq<nat>, base: nat, factor: nat, carry: nat): seq<nat>
    requires base > 1
    decreases |l|
  {
    if |l| == 0 then Of(carry, base) else
      var x := l[0] * factor + carry;
      [x % base] + MulAdd(l[1..], base, factor, x / base)
  }

  lemma {:induction false} MulAddValue(l: seq<nat>, base: nat, factor: nat, carry: nat)
    requires base > 1
    ensures Value(MulAdd(l, base, factor, carry), base) == Value(l, base) * factor + carry
    ensures Digits(MulAdd(l, base, factor, carry), base)
    decreases |l|
  {
    if |l| == 0 {
      OfValue(carry, base);
    } else {
      var x := l[0] * factor + carry;
      var tail := Value(l[1..], base);
      MulAddValue(l[1..], base, factor, x / base);
      assert MulAdd(l, base, factor, carry)[1..] == MulAdd(l[1..], base, factor, x / base);
      MulAddStep(l[0], tail, base, factor, carry);
    }
  }

  lemma MulAddStep(d: nat, tail: nat, base: nat, factor: nat, carry: nat)
    requires base > 1
    ensures var x := d * factor + carry;
      x % base + base * (tail * factor + x / base) == (d + base * tail) * factor + carry
  {
    var x := d * factor + carry;
    assert base * (tail * factor + x / base) == base * (tail * factor) + base * (x / base);
    assert (d + base * tail) * factor == d * factor + (base * tail) * factor;
    assert (base * tail) * factor == base * (tail * factor);
    assert x == base * (x / base) + x % base;
  }

  lemma {:induction false} MulAddMinimal(l: seq<nat>, base: nat, factor: nat, carry: nat)
    requires base > 1 && factor > 0 && Minimal(l)
    ensures Minimal(MulAdd(l, base, factor, carry))
    decreases |l|
  {
    if |l| == 0 {
      OfValue(carry, base);
    } else {
      var x := l[0] * factor + carry;
      MulAddMinimal(l[1..], base, factor, x / base);
      var tail := MulAdd(l[1..], base, factor, x / base);
      if |tail| == 0 {
        MulAddLength(l[1..], base, factor, x / base);
        MulPositive(l[0], factor);
        QuotientLess(x, base);
      }
    }
  }

  lemma MulAddLength(l: seq<nat>, base: nat, factor: nat, carry: nat)
    requires base > 1
    ensures |MulAdd(l, base, factor, carry)| == 0 ==> |l| == 0 && carry == 0
  {
  }

  /** On minimal digits the loop gives the minimal digits of the result. */
  lemma MulAddOf(v: nat, base: nat, factor: nat, carry: nat)
    requires base > 1 && factor > 0
    ensures MulAdd(Of(v, base), base, factor, carry) == Of(v * factor + carry, base)
  {
    OfValue(v, base);
    MulAddValue(Of(v, base), base, factor, carry);
    MulAddMinimal(Of(v, base), base, factor, carry);
    MinimalUnique(MulAdd(Of(v, base), base, factor, carry), base);
  }

  // ---------------------------------------------------------------------------------------------
  // Most significant first
  // ---------------------------------------------------------------------------------------------

  /** The value of digits with the most significant first. */
  function BigValue(d: seq<nat>, base: nat): nat {
    if |d| == 0 then 0 else BigValue(d[..|d| - 1], base) * base + d[|d| - 1]
  }

  lemma {:induction false} BigIsReversed(d: seq<nat>, base: nat)
    ensures BigValue(d, base) == Value(Reversed(d), base)
    decreases |d|
  {
    if |d| > 0 {
      var n := |d| - 1;
      BigIsReversed(d[..n], base);
      assert Reversed(d)[1..] == Reversed(d[..n]);
      Commute(BigValue(d[..n], base), base);
    }
  }

  lemma Commute(x: int, y: int)
    ensures x * y == y * x
  {
  }

  lemma {:induction false} BigMore(a: seq<nat>, b: seq<nat>, base: nat)
    ensures BigValue(a + b, base) == BigValue(a, base) * Pow(base, |b|) + BigValue(b, base)
    decreases |b|
  {
    if |b| == 0 {
      assert a + b == a;
    } else {
      var n := |b| - 1;
      BigMore(a, b[..n], base);
      assert (a + b)[..|a + b| - 1] == a + b[..n];
      ShiftSum(BigValue(a, base), Pow(base, n), BigValue(b[..n], base), base);
    }
  }

  lemma ShiftSum(x: nat, p: nat, y: nat, base: nat)
    ensures (x * p + y) * base == x * (base * p) + y * base
  {
    Distribute(x * p, y, base);
    assert (x * p) * base == x * (base * p);
  }

  /** Leading digits. */
  function LeadingZeros(d: seq<nat>): (z: nat)
    ensures z <= |d| && (forall i | 0 <= i < z :: d[i] == 0) && (z < |d| ==> d[z] != 0)
  {
    if |d| == 0 || d[0] != 0 then 0 else 1 + LeadingZeros(d[1..])
  }

  function Zeros(n: nat): (r: seq<nat>)
    ensures |r| == n && forall i | 0 <= i < n :: r[i] == 0
  {
    seq(n, i => 0)
  }

  /** Converting to another base keeps the number of leading zeros. */
  function Converted(d: seq<nat>, base: nat, to: nat): seq<nat>
    requires to > 1
  {
    Zeros(LeadingZeros(d)) + Reversed(Of(BigValue(d, base), to))
  }

  lemma {:induction false} ZerosAhead(n: nat, d: seq<nat>, base: nat)
    ensures BigValue(Zeros(n) + d, base) == BigValue(d, base)
    decreases n
  {
    BigMore(Zeros(n), d, base);
    ZeroDigits(n, base);
  }

  lemma {:induction false} ZeroDigits(n: nat, base: nat)
    ensures BigValue(Zeros(n), base) == 0
    decreases n
  {
    if n > 0 {
      assert Zeros(n)[..n - 1] == Zeros(n - 1);
      ZeroDigits(n - 1, base);
    }
  }

  /** Converting there and back gives the digits again, leading zeros included. */
  lemma ConvertBack(d: seq<nat>, base: nat, to: nat)
    requires base > 1 && to > 1 && Digits(d, base)
    ensures Digits(Converted(d, base, to), to)
    ensures Converted(Converted(d, base, to), to, base) == d
  {
    hide Value, BigValue, Of, Minimal, LeadingZeros;
    var z, v := LeadingZeros(d), BigValue(d, base);
    var there := Reversed(Of(v, to));
    MinimalReversed(v, to);
    ZerosThenOthers(z, there);
    ZerosAhead(z, there, to);
    TrailingDigits(d, base);
    assert Reversed(Of(v, base)) == d[z..];
  }

  /** The digits of a number, most significant first. */
  lemma MinimalReversed(v: nat, base: nat)
    requires base > 1
    ensures var d := Reversed(Of(v, base));
      BigValue(d, base) == v && Digits(d, base) && (|d| > 0 ==> d[0] != 0)
  {
    OfValue(v, base);
    var d := Reversed(Of(v, base));
    BigIsReversed(d, base);
    assert Reversed(d) == Of(v, base);
  }

  /** Behind the leading zeros are the minimal digits of the value. */
  lemma TrailingDigits(d: seq<nat>, base: nat)
    requires base > 1 && Digits(d, base)
    ensures var z := LeadingZeros(d);
      d == Zeros(z) + d[z..] && Reversed(Of(BigValue(d, base), base)) == d[z..]
  {
    hide Value, BigValue, Of, Digits, Minimal, LeadingZeros, Reversed;
    var z := LeadingZeros(d);
    var rest := d[z..];
    BehindZeros(d, base);
    ZerosAhead(z, rest, base);
    BigIsReversed(rest, base);
    MinimalUnique(Reversed(rest), base);
  }

  lemma BehindZeros(d: seq<nat>, base: nat)
    requires Digits(d, base)
    ensures var z := LeadingZeros(d);
      && d == Zeros(z) + d[z..] && Digits(Reversed(d[z..]), base) && Minimal(Reversed(d[z..]))
      && Reversed(Reversed(d[z..])) == d[z..]
  {
  }

  lemma ZerosThenOthers(z: nat, rest: seq<nat>)
    requires |rest| > 0 ==> rest[0] != 0
    ensures LeadingZeros(Zeros(z) + rest) == z
  {
    var d := Zeros(z) + rest;
    var k := LeadingZeros(d);
    assert forall i | 0 <= i < z :: d[i] == 0;
    assert |rest| > 0 ==> d[z] == rest[0];
  }
}
