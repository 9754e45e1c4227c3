/** Base 58 and decimal text of binary numbers (libraries/abieos/src/crypto.cpp,
    libraries/abieos/include/eosio/abieos_numeric.hpp, libraries/abieos/src/abieos.hpp). */
module Numerals {
  import opened Basics
  import opened Powers
  import opened Radix

  // ---------------------------------------------------------------------------------------------
  // The multiplication loop
  // ---------------------------------------------------------------------------------------------

  /** Every digit is replaced in place, the carry moves on. */
  method MultiplyDigits(l: seq<nat>, base: nat, factor: nat, carry: nat) returns (r: seq<nat>, c: nat)
    requires base > 1
    ensures |r| == |l| && r + Of(c, base) == MulAdd(l, base, factor, carry)
    ensures Digits(l, base) && carry <= factor ==> c <= factor
  {
    hide MulAdd, Of;
    r, c := l, carry;
    assert l[0..] == l;
    for i := 0 to |l|
      invariant |r| == |l| && r[i..] == l[i..]
      invariant Digits(l, base) && carry <= factor ==> c <= factor
      invariant r[..i] + MulAdd(l[i..], base, factor, c) == MulAdd(l, base, factor, carry)
    {
      var x := r[i] * factor + c;
      MulAddFirst(l[i..], base, factor, c);
      CarryBelow(l[i], base, factor, c);
      assert l[i..][1..] == l[i + 1..];
      ghost var was := r;
      r, c := r[i := x % base], x / base;
      assert r[..i + 1] == was[..i] + [x % base];
      assert was[..i] + ([x % base] + MulAdd(l[i + 1..], base, factor, c)) == r[..i + 1] + MulAdd(l[i + 1..], base, factor, c);
    }
    NothingLeft(base, factor, c);
    assert l[|l|..] == [] && r[..|l|] == r;
  }

  lemma CarryBelow(d: nat, base: nat, factor: nat, c: nat)
    requires base > 1
    ensures d < base && c <= factor ==> (d * factor + c) / base <= factor
  {
    if d < base && c <= factor {
      var x := d * factor + c;
      MulMono(d + 1, factor, base, factor);
      Distribute(d, 1, factor);
      DivMod(x, base);
      if x / base > factor {
        MulMono(base, factor + 1, base, x / base);
        Distribute(factor, 1, base);
      }
    }
  }

  lemma MulAddFirst(l: seq<nat>, base: nat, factor: nat, carry: nat)
    requires base > 1 && |l| > 0
    ensures var x := l[0] * factor + carry;
      MulAdd(l, base, factor, carry) == [x % base] + MulAdd(l[1..], base, factor, x / base)
  {
  }

  lemma NothingLeft(base: nat, factor: nat, carry: nat)
    requires base > 1
    ensures MulAdd([], base, factor, carry) == Of(carry, base)
  {
  }

  lemma OfStep(v: nat, base: nat)
    requires base > 1
    ensures Of(v, base) == if v == 0 then [] else [v % base] + Of(v / base, base)
  {
  }

  /** The digits of the last carry are appended one by one. */
  method PushCarry(l: seq<nat>, base: nat, carry: nat) returns (r: seq<nat>)
    requires base > 1
    ensures r == l + Of(carry, base)
  {
    hide Of;
    r := l;
    var c: nat := carry;
    while c > 0
      invariant r + Of(c, base) == l + Of(carry, base)
      decreases c
    {
      QuotientLess(c, base);
      OfStep(c, base);
      assert r + ([c % base] + Of(c / base, base)) == (r + [c % base]) + Of(c / base, base);
      r, c := r + [c % base], c / base;
    }
    OfStep(0, base);
  }

  // ---------------------------------------------------------------------------------------------
  // Base 58
  // ---------------------------------------------------------------------------------------------

  /** The place of a character in the alphabet, or -1. The alphabet has no 0, I, O and l. The table also has the NUL
      that ends it, at place 58. */
  function DigitOf(c: char): (d: int)
    ensures -1 <= d <= 58 && (d == 58 <==> c == '\0')
  {
    if c == '\0' then 58
    else if '1' <= c <= '9' then c as int - '1' as int
    else if 'A' <= c <= 'H' then c as int - 'A' as int + 9
    else if 'J' <= c <= 'N' then c as int - 'J' as int + 17
    else if 'P' <= c <= 'Z' then c as int - 'P' as int + 22
    else if 'a' <= c <= 'k' then c as int - 'a' as int + 33
    else if 'm' <= c <= 'z' then c as int - 'm' as int + 44
    else -1
  }

  function CharOf(d: nat): (c: char)
    requires d < 58
    ensures DigitOf(c) == d
  {
    if d < 9 then ('1' as int + d) as char
    else if d < 17 then ('A' as int + d - 9) as char
    else if d < 22 then ('J' as int + d - 17) as char
    else if d < 33 then ('P' as int + d - 22) as char
    else if d < 44 then ('a' as int + d - 33) as char
    else ('m' as int + d - 44) as char
  }

  lemma CharOfDigit(c: char)
    requires 0 <= DigitOf(c) < 58
    ensures CharOf(DigitOf(c)) == c
  {
  }

  /** Every character has a digit. */
  predicate Readable(s: string) {
    forall i | 0 <= i < |s| :: DigitOf(s[i]) >= 0
  }

  predicate InAlphabet(s: string) {
    forall i | 0 <= i < |s| :: 0 <= DigitOf(s[i]) < 58
  }

  function DigitsOf(s: string): (d: seq<nat>)
    requires Readable(s)
    ensures |d| == |s| && (InAlphabet(s) ==> Digits(d, 58))
  {
    seq(|s|, i requires 0 <= i < |s| => DigitOf(s[i]))
  }

  function TextOf(d: seq<nat>): (s: string)
    requires Digits(d, 58)
    ensures |s| == |d| && InAlphabet(s)
  {
    seq(|d|, i requires 0 <= i < |d| => CharOf(d[i]))
  }

  lemma TextOfDigits(s: string)
    requires InAlphabet(s)
    ensures TextOf(DigitsOf(s)) == s
  {
    forall i | 0 <= i < |s| ensures TextOf(DigitsOf(s))[i] == s[i] {
      CharOfDigit(s[i]);
    }
  }

  lemma DigitsOfText(d: seq<nat>)
    requires Digits(d, 58)
    ensures DigitsOf(TextOf(d)) == d
  {
  }

  /** The text of a byte string. */
  function Base58(bin: seq<nat>): (s: string)
    requires Digits(bin, 256)
    ensures InAlphabet(s)
  {
    ConvertBack(bin, 256, 58);
    TextOf(Converted(bin, 256, 58))
  }

  /** The bytes of a text; characters without a digit are refused. */
  function FromBase58(s: string): Option<seq<nat>> {
    if Readable(s) then Some(Converted(DigitsOf(s), 58, 256)) else None
  }

  lemma Base58RoundTrip(bin: seq<nat>)
    requires Digits(bin, 256)
    ensures FromBase58(Base58(bin)) == Some(bin)
  {
    ConvertBack(bin, 256, 58);
    DigitsOfText(Converted(bin, 256, 58));
  }

  /** Every text that is read stands for bytes; their text is that text again unless it contains a NUL. */
  lemma Base58TextRoundTrip(s: string)
    requires Readable(s)
    ensures var bin := FromBase58(s).value;
      Digits(bin, 256) && (Base58(bin) == s <==> '\0' !in s)
  {
    ConvertedDigits(DigitsOf(s), 58, 256);
    if InAlphabet(s) {
      ConvertBack(DigitsOf(s), 58, 256);
      TextOfDigits(s);
      assert forall i | 0 <= i < |s| :: s[i] != '\0';
    }
  }

  lemma ConvertedDigits(d: seq<nat>, base: nat, to: nat)
    requires to > 1
    ensures Digits(Converted(d, base, to), to)
  {
    OfValue(BigValue(d, base), to);
  }

  /** The alphabet are the digits and letters other than 0, I, O and l, in the order of their codes; a NUL is read as
      well. With 58 characters and 58 places there is only one such table. */
  lemma Alphabet(c: char, d: char)
    ensures 0 <= DigitOf(c) < 58 <==>
      ('0' <= c <= '9' || 'A' <= c <= 'Z' || 'a' <= c <= 'z') && c != '0' && c != 'I' && c != 'O' && c != 'l'
    ensures DigitOf(c) == 58 <==> c == '\0'
    ensures 0 <= DigitOf(c) < 58 && 0 <= DigitOf(d) < 58 ==> (DigitOf(c) < DigitOf(d) <==> c < d)
    ensures 0 <= DigitOf(c) < 58 ==> CharOf(DigitOf(c)) == c
  {
  }

  /** The text of bytes stands for the same number, with one 1 for each leading zero byte and no others in front. */
  lemma Base58Meaning(bin: seq<nat>)
    requires Digits(bin, 256)
    ensures var s := Base58(bin);
      && BigValue(DigitsOf(s), 58) == BigValue(bin, 256)
      && exists z | 0 <= z <= |bin| && z <= |s| ::
           && (forall i | 0 <= i < z :: bin[i] == 0 && s[i] == '1')
           && (z < |bin| ==> bin[z] != 0) && (z < |s| ==> s[z] != '1')
  {
    hide BigValue, Of;
    var s, d := Base58(bin), Converted(bin, 256, 58);
    var z := LeadingZeros(bin);
    ConvertBack(bin, 256, 58);
    DigitsOfText(d);
    MinimalReversed(BigValue(bin, 256), 58);
    ZerosAhead(z, Reversed(Of(BigValue(bin, 256), 58)), 58);
    forall i | 0 <= i < z ensures bin[i] == 0 && s[i] == '1' {
      assert d[i] == 0;
    }
    assert z < |s| ==> d[z] == Reversed(Of(BigValue(bin, 256), 58))[0];
  }

  method BinaryToBase58(bin: seq<nat>) returns (s: string)
    requires Digits(bin, 256)
    ensures s == Base58(bin)
  {
    hide Of, MulAdd;
    var result: seq<nat> := [];
    NoDigits();
    for i := 0 to |bin|
      invariant result == Of(BigValue(bin[..i], 256), 58)
    {
      var carry;
      BigStep(bin, i, 256);
      MulAddOf(BigValue(bin[..i], 256), 58, 256, bin[i]);
      result, carry := MultiplyDigits(result, 58, 256, bin[i]);
      result := PushCarry(result, 58, carry);
    }
    assert bin[..|bin|] == bin;
    result := MarkZeros(bin, result);
    ConvertBack(bin, 256, 58);
    s := TextOf(Reversed(result));
  }

  /** A zero digit for every leading zero, then the digits are turned around. */
  method MarkZeros(d: seq<nat>, digits: seq<nat>) returns (r: seq<nat>)
    ensures Reversed(r) == Zeros(LeadingZeros(d)) + Reversed(digits)
  {
    r := digits;
    var z := 0;
    while z < |d| && d[z] == 0
      invariant z <= LeadingZeros(d) && r == digits + Zeros(z)
    {
      assert digits + (Zeros(z) + [0]) == (digits + Zeros(z)) + [0];
      assert Zeros(z) + [0] == Zeros(z + 1);
      r := r + [0];
      z := z + 1;
    }
    assert Reversed(digits + Zeros(z)) == Zeros(z) + Reversed(digits);
  }

  lemma OneDigit(c: nat, base: nat)
    requires c < base && base > 1
    ensures Of(c, base) == if c == 0 then [] else [c]
  {
    if c > 0 {
      DivMod(c, base);
      if c / base > 0 {
        MulMono(base, 1, base, c / base);
      }
      OfStep(c, base);
      OfStep(0, base);
    }
  }

  lemma NoDigits()
    ensures Of(BigValue([], 256), 58) == [] && Of(BigValue([], 58), 256) == []
  {
  }

  lemma BigStep(d: seq<nat>, i: nat, base: nat)
    requires i < |d|
    ensures BigValue(d[..i + 1], base) == BigValue(d[..i], base) * base + d[i]
  {
    assert d[..i + 1][..i] == d[..i];
  }

  lemma MoreText(s: string, i: nat)
    requires i < |s| && Readable(s[..i]) && DigitOf(s[i]) >= 0
    ensures Readable(s[..i + 1])
    ensures BigValue(DigitsOf(s[..i + 1]), 58) == BigValue(DigitsOf(s[..i]), 58) * 58 + DigitOf(s[i])
  {
    var d := DigitsOf(s[..i + 1]);
    BigStep(d, i, 58);
    assert d[..i] == DigitsOf(s[..i]);
    assert d[..i + 1] == d;
  }

  method Base58ToBinary(s: string) returns (r: Option<seq<nat>>)
    ensures r == FromBase58(s)
  {
    hide Of, MulAdd, BigValue, DigitsOf;
    var result: seq<nat> := [];
    NoDigits();
    NoText(s);
    for i := 0 to |s|
      invariant Readable(s[..i]) && result == Of(BigValue(DigitsOf(s[..i]), 58), 256)
    {
      var carry: int := DigitOf(s[i]);
      if carry < 0 {
        return None;
      }
      MoreText(s, i);
      MulAddOf(BigValue(DigitsOf(s[..i]), 58), 256, 58, carry);
      var c: nat;
      OfValue(BigValue(DigitsOf(s[..i]), 58), 256);
      result, c := MultiplyDigits(result, 256, 58, carry);
      OneDigit(c, 256);
      if c > 0 {
        result := result + [c];
      }
    }
    assert s[..|s|] == s;
    result := MarkZeros(DigitsOf(s), result);
    r := Some(Reversed(result));
  }

  lemma NoText(s: string)
    ensures Readable(s[..0]) && DigitsOf(s[..0]) == []
  {
  }

  // ---------------------------------------------------------------------------------------------
  // Decimal numbers of a fixed width
  // ---------------------------------------------------------------------------------------------

  predicate IsDigit(c: char) {
    '0' <= c <= '9'
  }

  predicate AllDigits(s: string) {
    forall i | 0 <= i < |s| :: IsDigit(s[i])
  }

  function DecimalDigits(s: string): (d: seq<nat>)
    requires AllDigits(s)
    ensures |d| == |s| && Digits(d, 10)
  {
    seq(|s|, i requires 0 <= i < |s| => s[i] as int - '0' as int)
  }

  function Decimal(s: string): nat
    requires AllDigits(s)
  {
    BigValue(DecimalDigits(s), 10)
  }

  function DecimalText(v: nat): string {
    if v == 0 then "0" else
      OfValue(v, 10);
      DecimalChars(Reversed(Of(v, 10)))
  }

  function DecimalChars(d: seq<nat>): (s: string)
    requires Digits(d, 10)
    ensures |s| == |d| && AllDigits(s)
  {
    seq(|d|, i requires 0 <= i < |d| => ('0' as int + d[i]) as char)
  }

  /** Printing and parsing give the number back. */
  lemma DecimalRoundTrip(v: nat)
    ensures AllDigits(DecimalText(v)) && Decimal(DecimalText(v)) == v
  {
    MinimalReversed(v, 10);
    if v == 0 {
      assert DecimalDigits("0") == [0];
      assert BigValue([0], 10) == BigValue([], 10) * 10 + 0;
    } else {
      assert DecimalDigits(DecimalText(v)) == Reversed(Of(v, 10));
    }
  }

  /** Parsing and printing give the text back, unless it is empty or has superfluous zeros. */
  lemma DecimalTextRoundTrip(s: string)
    requires AllDigits(s)
    ensures DecimalText(Decimal(s)) == s <==> |s| > 0 && (|s| > 1 ==> s[0] != '0')
  {
    hide Decimal, DecimalText, DecimalDigits;
    var z := LeadingZeros(DecimalDigits(s));
    TextLength(s);
    if |s| > 0 {
      FirstDigit(s);
      if z == 0 {
        TextOfCanonical(s);
      } else if |s| == 1 {
        TextOfZero(s);
      }
    }
  }

  lemma FirstDigit(s: string)
    requires AllDigits(s) && |s| > 0
    ensures LeadingZeros(DecimalDigits(s)) == 0 <==> s[0] != '0'
  {
    assert DecimalDigits(s)[0] == s[0] as int - '0' as int;
  }

  lemma TextLength(s: string)
    requires AllDigits(s)
    ensures var z := LeadingZeros(DecimalDigits(s));
      |DecimalText(Decimal(s))| == if z == |s| then 1 else |s| - z
  {
    var d := DecimalDigits(s);
    hide BigValue, Of;
    TrailingDigits(d, 10);
    OfEmpty(Decimal(s), 10);
    OfValue(Decimal(s), 10);
  }

  lemma TextOfCanonical(s: string)
    requires AllDigits(s) && |s| > 0 && LeadingZeros(DecimalDigits(s)) == 0
    ensures DecimalText(Decimal(s)) == s
  {
    var d := DecimalDigits(s);
    hide BigValue, Of;
    TrailingDigits(d, 10);
    OfEmpty(Decimal(s), 10);
    OfValue(Decimal(s), 10);
    assert d[0..] == d;
    CharsOfDigits(s);
  }

  lemma CharsOfDigits(s: string)
    requires AllDigits(s)
    ensures DecimalChars(DecimalDigits(s)) == s
  {
  }

  lemma TextOfZero(s: string)
    requires AllDigits(s) && |s| == 1 && LeadingZeros(DecimalDigits(s)) > 0
    ensures DecimalText(Decimal(s)) == s
  {
    assert DecimalDigits(s) == [0];
    assert s[0] == '0' && s == "0";
    assert BigValue([0], 10) == BigValue([], 10) * 10 + 0;
  }

  lemma OfEmpty(v: nat, base: nat)
    requires base > 1
    ensures |Of(v, base)| == 0 <==> v == 0
  {
  }

  lemma {:induction false} ValueMore(a: seq<nat>, b: seq<nat>, base: nat)
    ensures Value(a + b, base) == Value(a, base) + Pow(base, |a|) * Value(b, base)
    decreases |a|
  {
    if |a| == 0 {
      assert a + b == b;
    } else {
      assert (a + b)[1..] == a[1..] + b;
      ValueMore(a[1..], b, base);
      BasePlus(base, Value(a[1..], base), Pow(base, |a| - 1), Value(b, base));
    }
  }

  lemma BasePlus(base: nat, v: nat, p: nat, w: nat)
    ensures base * (v + p * w) == base * v + (base * p) * w
  {
    assert base * (v + p * w) == base * v + base * (p * w);
    assert base * (p * w) == (base * p) * w;
  }

  /** The multiplication loop on a fixed number of bytes; what does not fit is returned. */
  method MultiplyInPlace(a: array<nat>, factor: nat, carry: nat) returns (c: nat)
    modifies a
    ensures a[..] + Of(c, 256) == MulAdd(old(a[..]), 256, factor, carry)
  {
    hide MulAdd, Of;
    ghost var l := a[..];
    c := carry;
    assert l[0..] == l;
    for i := 0 to a.Length
      invariant forall k | i <= k < a.Length :: a[k] == l[k]
      invariant a[..i] + MulAdd(l[i..], 256, factor, c) == MulAdd(l, 256, factor, carry)
    {
      var x := a[i] * factor + c;
      MulAddFirst(l[i..], 256, factor, c);
      assert l[i..][1..] == l[i + 1..];
      ghost var was := a[..i];
      a[i] := x % 256;
      c := x / 256;
      assert a[..i + 1] == was + [x % 256];
      assert was + ([x % 256] + MulAdd(l[i + 1..], 256, factor, c)) == a[..i + 1] + MulAdd(l[i + 1..], 256, factor, c);
    }
    NothingLeft(256, factor, c);
    assert l[a.Length..] == [] && a[..a.Length] == a[..];
  }

  /** What the loop makes of the number. */
  lemma Multiplied(l: seq<nat>, r: seq<nat>, c: nat, factor: nat, carry: nat)
    requires |r| == |l| && r + Of(c, 256) == MulAdd(l, 256, factor, carry)
    ensures Digits(r, 256)
    ensures Value(r, 256) + Pow(256, |l|) * c == Value(l, 256) * factor + carry
  {
    MulAddValue(l, 256, factor, carry);
    hide MulAdd, Value, Pow;
    OfValue(c, 256);
    ValueMore(r, Of(c, 256), 256);
    var all := r + Of(c, 256);
    assert forall i | 0 <= i < |r| :: r[i] == all[i];
  }

  /** decimal_to_binary: refused exactly when a character is no digit or the number does not fit. */
  method DecimalToBinary(a: array<nat>, s: string) returns (ok: bool)
    modifies a
    ensures ok <==> AllDigits(s) && Decimal(s) < Pow(256, a.Length)
    ensures ok ==> Digits(a[..], 256) && Value(a[..], 256) == Decimal(s)
  {
    hide Value, BigValue, MulAdd, Of, Pow;
    for i := 0 to a.Length
      invariant forall k | 0 <= k < i :: a[k] == 0
    {
      a[i] := 0;
    }
    AllZero(a[..]);
    assert s[..0] == "";
    NoDecimal();
    for i := 0 to |s|
      invariant AllDigits(s[..i]) && Digits(a[..], 256)
      invariant Value(a[..], 256) == Decimal(s[..i]) < Pow(256, a.Length)
    {
      if !IsDigit(s[i]) {
        return false;
      }
      var carry: nat := s[i] as int - '0' as int;
      DecimalStep(s, i);
      ghost var l := a[..];
      var c := MultiplyInPlace(a, 10, carry);
      Multiplied(l, a[..], c, 10, carry);
      ValueBelow(a[..], 256);
      if c != 0 {
        MulMono(Pow(256, a.Length), 1, Pow(256, a.Length), c);
        DecimalGrows(s, i + 1);
        return false;
      }
      assert Pow(256, a.Length) * c == 0;
    }
    assert s[..|s|] == s;
    ok := true;
  }

  lemma {:induction false} AllZero(l: seq<nat>)
    requires forall k | 0 <= k < |l| :: l[k] == 0
    ensures Value(l, 256) == 0 && Digits(l, 256)
    decreases |l|
  {
    if |l| > 0 {
      AllZero(l[1..]);
    }
  }

  lemma NoDecimal()
    ensures Decimal("") == 0
    ensures forall n: nat :: Pow(256, n) > 0
  {
    assert DecimalDigits("") == [];
    forall n: nat ensures Pow(256, n) > 0 {
      PowPositive(256, n);
    }
  }

  lemma DecimalStep(s: string, i: nat)
    requires i < |s| && AllDigits(s[..i]) && IsDigit(s[i])
    ensures AllDigits(s[..i + 1]) && Decimal(s[..i + 1]) == Decimal(s[..i]) * 10 + (s[i] as int - '0' as int)
  {
    assert s[..i + 1] == s[..i] + [s[i]];
    var d := DecimalDigits(s[..i + 1]);
    assert d[..i] == DecimalDigits(s[..i]);
  }

  /** More digits never make a number smaller. */
  lemma {:induction false} DecimalGrows(s: string, i: nat)
    requires i <= |s| && AllDigits(s[..i])
    ensures AllDigits(s) ==> Decimal(s) >= Decimal(s[..i])
    decreases |s| - i
  {
    if i == |s| {
      assert s[..i] == s;
    } else if AllDigits(s) {
      DecimalStep(s, i);
      DecimalGrows(s, i + 1);
    }
  }

  /** binary_to_decimal: the bytes from the most significant one. */
  method BinaryToDecimal(bin: seq<nat>) returns (s: string)
    requires Digits(bin, 256)
    ensures s == DecimalText(Value(bin, 256))
  {
    hide MulAdd, Of, Value;
    var result: seq<nat> := [0];
    assert bin[|bin|..] == [];
    NoValue();
    for i := |bin| downto 0
      invariant result == Shown(Value(bin[i..], 256))
    {
      ValueFirst(bin, i);
      ShownStep(Value(bin[i + 1..], 256), bin[i]);
      var carry;
      result, carry := MultiplyDigits(result, 10, 256, bin[i]);
      result := PushCarry(result, 10, carry);
    }
    assert bin[0..] == bin;
    ShownText(Value(bin, 256));
    s := DecimalChars(Reversed(result));
  }

  lemma NoValue()
    ensures Value([], 256) == 0
  {
  }

  lemma ValueFirst(l: seq<nat>, i: nat)
    requires i < |l|
    ensures Value(l[i..], 256) == l[i] + 256 * Value(l[i + 1..], 256)
  {
    assert l[i..][1..] == l[i + 1..];
  }

  /** Decimal digits, at least one. */
  function Shown(v: nat): seq<nat> {
    if v == 0 then [0] else Of(v, 10)
  }

  lemma ShownStep(v: nat, b: nat)
    ensures MulAdd(Shown(v), 10, 256, b) == Shown(b + 256 * v)
  {
    if v > 0 {
      MulAddOf(v, 10, 256, b);
    } else {
      MulAddFirst([0], 10, 256, b);
      assert [0][1..] == [];
      NothingLeft(10, 256, b / 10);
      OfStep(b, 10);
      OfStep(0, 10);
    }
  }

  lemma ShownText(v: nat)
    ensures Digits(Shown(v), 10) && DecimalChars(Reversed(Shown(v))) == DecimalText(v)
  {
    OfValue(v, 10);
    if v == 0 {
      assert Reversed([0]) == [0];
    }
  }

  // ---------------------------------------------------------------------------------------------
  // Two's complement
  // ---------------------------------------------------------------------------------------------

  /** The number of values of so many bytes. */
  function Modulus(n: nat): (m: nat)
    ensures m > 0
  {
    PowPositive(256, n);
    Pow(256, n)
  }

  function Negated(v: nat, m: nat): nat
    requires v < m
  {
    if v == 0 then 0 else m - v
  }

  method Negate(a: array<nat>)
    requires Digits(a[..], 256)
    modifies a
    ensures Digits(a[..], 256) && old(Value(a[..], 256)) < Modulus(a.Length)
    ensures Value(a[..], 256) == Negated(old(Value(a[..], 256)), Modulus(a.Length))
  {
    hide Value, Pow;
    ghost var l := a[..];
    var carry: nat := 1;
    NegateStart(a[..], l);
    for i := 0 to a.Length
      invariant forall k | i <= k < a.Length :: a[k] == l[k]
      invariant Digits(a[..], 256) && carry <= 1
      invariant Halfway(Value(a[..i], 256), Value(l[..i], 256), Pow(256, i), carry)
    {
      assert l[i] < 256;
      var x: nat := 255 - a[i] + carry;
      DivMod(x, 256);
      ghost var was := a[..i];
      NegateStep(was, l[..i], l[i], carry, x % 256, x / 256);
      a[i] := x % 256;
      assert a[..i + 1] == was + [x % 256] && l[..i + 1] == l[..i] + [l[i]];
      carry := x / 256;
    }
    assert a[..a.Length] == a[..] && l[..a.Length] == l;
    ValueBelow(l, 256);
    ValueBelow(a[..], 256);
    Complement(Value(a[..], 256), Value(l, 256), carry, Modulus(a.Length));
  }

  /** The lower bytes are negated up to a carry. */
  predicate Halfway(r: nat, v: nat, p: nat, carry: nat) {
    r + (if carry == 0 then 0 else p) == p - v
  }

  lemma NegateStart(a: seq<nat>, l: seq<nat>)
    ensures Halfway(Value(a[..0], 256), Value(l[..0], 256), Pow(256, 0), 1)
  {
  }

  lemma NegateStep(new': seq<nat>, l: seq<nat>, d: nat, carry: nat, m: nat, carry': nat)
    requires |new'| == |l| && d < 256 && carry <= 1 && m < 256 && 255 - d + carry == m + 256 * carry'
    requires Halfway(Value(new', 256), Value(l, 256), Pow(256, |l|), carry)
    ensures carry' <= 1 && Halfway(Value(new' + [m], 256), Value(l + [d], 256), Pow(256, |l| + 1), carry')
  {
    hide Value, Pow, Halfway;
    AppendDigit(new', m);
    AppendDigit(l, d);
    NextPower(|l|);
    NegateDigit(Value(new', 256), Value(l, 256), Pow(256, |l|), d, carry, m, carry',
                Value(new' + [m], 256), Value(l + [d], 256), Pow(256, |l| + 1));
  }

  lemma AppendDigit(l: seq<nat>, d: nat)
    ensures Value(l + [d], 256) == Value(l, 256) + Pow(256, |l|) * d
  {
    ValueMore(l, [d], 256);
    OneValue(d);
  }

  lemma NextPower(n: nat)
    ensures Pow(256, n + 1) == 256 * Pow(256, n)
  {
  }

  lemma NegateDigit(r: nat, v: nat, p: nat, d: nat, carry: nat, m: nat, carry': nat, r': nat, v': nat, p': nat)
    requires d < 256 && carry <= 1 && m < 256 && 255 - d + carry == m + 256 * carry' && Halfway(r, v, p, carry)
    requires r' == r + p * m && v' == v + p * d && p' == 256 * p
    ensures Halfway(r', v', p', carry')
  {
    if carry' > 0 {
      assert d == 0 && carry == 1 && m == 0;
      assert p * 0 == 0;
    } else {
      TimesDifference(p, 255 + carry, d);
    }
  }

  lemma TimesDifference(p: nat, a: nat, d: nat)
    requires d <= a
    ensures p * (a - d) + p * d == p * a
  {
    assert p * (a - d) == p * a - p * d;
  }

  lemma OneValue(d: nat)
    ensures Value([d], 256) == d
  {
    assert [d][1..] == [];
  }

  lemma Complement(r: nat, v: nat, carry: nat, m: nat)
    requires r < m && v < m && carry <= 1 && Halfway(r, v, m, carry)
    ensures r == Negated(v, m)
  {
    if v == 0 {
      assert carry == 1;
    }
  }

  method IsNegative(a: array<nat>) returns (negative: bool)
    requires a.Length > 0 && Digits(a[..], 256)
    ensures negative <==> 2 * Value(a[..], 256) >= Modulus(a.Length)
  {
    negative := a[a.Length - 1] >= 128;
    TopBit(a[..]);
  }

  lemma TopBit(l: seq<nat>)
    requires |l| > 0 && Digits(l, 256)
    ensures l[|l| - 1] >= 128 <==> 2 * Value(l, 256) >= Pow(256, |l|)
  {
    var n := |l| - 1;
    assert l == l[..n] + [l[n]];
    ValueMore(l[..n], [l[n]], 256);
    OneValue(l[n]);
    ValueBelow(l[..n], 256);
    var p, v, d := Pow(256, n), Value(l[..n], 256), l[n];
    if d >= 128 {
      MulMono(p, 128, p, d);
    } else {
      MulMono(p, d, p, 127);
    }
  }

  /** The signed number that bytes stand for. */
  function Signed(v: nat, n: nat): int {
    if 2 * v >= Modulus(n) then v - Modulus(n) else v
  }

  predicate Fits(x: int, n: nat) {
    0 <= 2 * x + Modulus(n) && 2 * x < Modulus(n)
  }

  function SignedText(x: int): string {
    if x < 0 then "-" + DecimalText(-x) else DecimalText(x)
  }

  /** What a signed text means. A minus sign needs a number other than 0. */
  function SignedValue(s: string, n: nat): Option<int> {
    if |s| > 0 && s[0] == '-' then
      if AllDigits(s[1..]) && Decimal(s[1..]) > 0 && Fits(0 - Decimal(s[1..]), n) then Some(0 - Decimal(s[1..])) else None
    else if AllDigits(s) && Fits(Decimal(s), n) then Some(Decimal(s))
    else None
  }

  /** Every number of the width can be printed and parsed, the most negative one included. */
  lemma SignedRoundTrip(x: int, n: nat)
    requires Fits(x, n)
    ensures SignedValue(SignedText(x), n) == Some(x)
  {
    DecimalRoundTrip(if x < 0 then -x else x);
    if x < 0 {
      assert SignedText(x)[1..] == DecimalText(-x);
    } else {
      var t := DecimalText(x);
      assert |t| > 0 ==> IsDigit(t[0]);
    }
  }

  /** Negative zero is refused. */
  lemma NegativeZero(n: nat)
    ensures SignedValue("-0", n) == None
  {
    assert "-0"[1..] == "0";
    assert DecimalDigits("0") == [0];
    assert BigValue([0], 10) == BigValue([], 10) * 10 + 0;
  }

  /** from_json of a signed number. */
  method ParseSigned(a: array<nat>, s: string) returns (ok: bool)
    requires a.Length > 0
    modifies a
    ensures ok <==> SignedValue(s, a.Length).Some?
    ensures ok ==> Digits(a[..], 256) && Signed(Value(a[..], 256), a.Length) == SignedValue(s, a.Length).value
  {
    hide Value, Pow, Decimal, AllDigits;
    if |s| > 0 && s[0] == '-' {
      ok := DecimalToBinary(a, s[1..]);
      if ok {
        ghost var v := Value(a[..], 256);
        Negate(a);
        ok := IsNegative(a);
        NegatedFits(v, Modulus(a.Length));
      }
    } else {
      ok := DecimalToBinary(a, s);
      if ok {
        var negative := IsNegative(a);
        ok := !negative;
      }
    }
  }

  lemma NegatedFits(v: nat, m: nat)
    requires v < m
    ensures 2 * Negated(v, m) >= m <==> v > 0 && 2 * v <= m
  {
  }

  /** to_json of a signed number, without the quotes. */
  method PrintSigned(a: array<nat>) returns (s: string)
    requires a.Length > 0 && Digits(a[..], 256)
    ensures s == SignedText(Signed(Value(a[..], 256), a.Length))
  {
    hide Value, Pow, DecimalText;
    var negative := IsNegative(a);
    if negative {
      var n := new nat[a.Length](i requires 0 <= i < a.Length reads a => a[i]);
      assert n[..] == a[..];
      ghost var v := Value(a[..], 256);
      ValueBelow(a[..], 256);
      Negate(n);
      NegatedFits(v, Modulus(a.Length));
      var digits := BinaryToDecimal(n[..]);
      s := "-" + digits;
    } else {
      s := BinaryToDecimal(a[..]);
    }
  }
}
