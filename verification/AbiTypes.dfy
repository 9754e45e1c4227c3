/** Types of an ABI, JSON values and their binary form (libraries/abieos/include/eosio/abi.hpp,
    libraries/abieos/src/abieos.hpp). */
module AbiTypes {
  import opened Basics

  type Byte = x: int | 0 <= x < 256

  /** Text is a sequence of bytes; JSON escapes are resolved by the lexer. */
  type Text = seq<Byte>

  // ---------------------------------------------------------------------------------------------
  // Types
  // ---------------------------------------------------------------------------------------------

  datatype Codec = BoolCodec | TextCodec

  /** `Named` types are structs and variants, so that types can be recursive. */
  datatype Type =
    | Leaf(codec: Codec)
    | Optional(of: Type)
    | Extension(of: Type)
    | Array(of: Type)
    | Named(name: string)

  datatype Field = Field(name: Text, of: Type)

  datatype Definition = Struct(fields: seq<Field>) | Variant(alternatives: seq<Field>)

  type Env = map<string, Definition>

  // ---------------------------------------------------------------------------------------------
  // JSON
  // ---------------------------------------------------------------------------------------------

  datatype Member = Member(key: Text, value: Json)

  datatype Json = Null | Bool(b: bool) | Str(s: Text) | Obj(members: seq<Member>) | Arr(items: seq<Json>)

  datatype Token =
    | TNull
    | TBool(b: bool)
    | TString(s: Text)
    | TKey(s: Text)
    | TStartObject
    | TEndObject
    | TStartArray
    | TEndArray

  function Tokens(j: Json): (r: seq<Token>)
    ensures |r| > 0
    decreases j, 1, 0
  {
    match j
    case Null => [TNull]
    case Bool(b) => [TBool(b)]
    case Str(s) => [TString(s)]
    case Obj(_) => [TStartObject] + MemberTokens(j, 0) + [TEndObject]
    case Arr(_) => [TStartArray] + ItemTokens(j, 0) + [TEndArray]
  }

  /** From the i-th member on. */
  function MemberTokens(j: Json, i: nat): seq<Token>
    requires j.Obj? && i <= |j.members|
    decreases j, 0, |j.members| - i
  {
    if i == |j.members| then [] else
      [TKey(j.members[i].key)] + Tokens(j.members[i].value) + MemberTokens(j, i + 1)
  }

  function ItemTokens(j: Json, i: nat): (r: seq<Token>)
    requires j.Arr? && i <= |j.items|
    ensures |r| >= |j.items| - i
    decreases j, 0, |j.items| - i
  {
    if i == |j.items| then [] else Tokens(j.items[i]) + ItemTokens(j, i + 1)
  }

  // ---------------------------------------------------------------------------------------------
  // Variable-length sizes
  // ---------------------------------------------------------------------------------------------

  const TWO32: nat := 0x1_0000_0000

  /** Base 128, the least significant digit first, all but the last with the high bit set. */
  function Varuint(n: nat): (r: seq<Byte>)
    ensures |r| > 0
  {
    if n < 128 then [n] else [n % 128 + 128] + Varuint(n / 128)
  }

  /** Seven bits a byte, the lowest first. */
  function Sevens(b: seq<Byte>): nat {
    if |b| == 0 then 0 else b[0] % 128 + 128 * Sevens(b[1..])
  }

  /** The high bit says that more bytes follow. */
  predicate Terminated(b: seq<Byte>) {
    |b| > 0 && b[|b| - 1] < 128 && forall i | 0 <= i < |b| - 1 :: b[i] >= 128
  }

  /** At most `digits` digits; the value before it is cut to 32 bits. */
  function ReadDigits(bin: seq<Byte>, digits: nat): Option<(nat, seq<Byte>)>
    decreases digits
  {
    if digits == 0 || |bin| == 0 then None
    else if bin[0] < 128 then Some((bin[0], bin[1..]))
    else
      match ReadDigits(bin[1..], digits - 1)
      case None => None
      case Some((n, rest)) => Some((bin[0] - 128 + 128 * n, rest))
  }

  function ReadVaruint(bin: seq<Byte>): (r: Option<(nat, seq<Byte>)>)
    ensures r.Some? ==> r.value.0 < TWO32
  {
    match ReadDigits(bin, 5)
    case None => None
    case Some((n, rest)) => Some((n % TWO32, rest))
  }

  lemma {:induction false} DigitsRoundTrip(n: nat, digits: nat, bound: nat, rest: seq<Byte>)
    requires n < bound <= Power128(digits) && digits > 0
    ensures ReadDigits(Varuint(n) + rest, digits) == Some((n, rest))
    decreases digits
  {
    if n >= 128 {
      assert (Varuint(n) + rest)[1..] == Varuint(n / 128) + rest;
      DigitsRoundTrip(n / 128, digits - 1, Power128(digits - 1), rest);
    } else {
      assert ([n] + rest)[1..] == rest;
    }
  }

  function Power128(digits: nat): nat {
    if digits == 0 then 1 else 128 * Power128(digits - 1)
  }

  lemma FiveDigits()
    ensures Power128(5) == 34359738368
  {
    assert Power128(1) == 128;
    assert Power128(2) == 128 * Power128(1) == 16384;
    assert Power128(3) == 128 * Power128(2) == 2097152;
    assert Power128(4) == 128 * Power128(3) == 268435456;
  }

  lemma VaruintRoundTrip(n: nat, rest: seq<Byte>)
    requires n < TWO32
    ensures ReadVaruint(Varuint(n) + rest) == Some((n, rest))
  {
    FiveDigits();
    hide Varuint, ReadDigits, Power128;
    DigitsRoundTrip(n, 5, TWO32, rest);
  }

  /** The encoding loop; values of more than 32 bits are refused. */
  method VaruintToBin(val: nat) returns (r: Option<seq<Byte>>)
    ensures r == if val < TWO32 then Some(Varuint(val)) else None
  {
    if val >= TWO32 {
      return None;
    }
    var v := val;
    var bytes: seq<Byte> := [];
    var more := true;
    while more
      invariant more ==> bytes + Varuint(v) == Varuint(val)
      invariant !more ==> bytes == Varuint(val)
      decreases more, v
    {
      var b: Byte := v % 128;
      ghost var was := bytes;
      assert v >= 128 ==> was + ([v % 128 + 128] + Varuint(v / 128)) == (was + [v % 128 + 128]) + Varuint(v / 128);
      v := v / 128;
      bytes := bytes + [if v > 0 then b + 128 else b];
      more := v > 0;
    }
    r := Some(bytes);
  }

  /** The decoding loop: at most five bytes, cut to 32 bits. */
  method VaruintFromBin(bin: seq<Byte>) returns (r: Option<(nat, seq<Byte>)>)
    ensures r == ReadVaruint(bin)
  {
    var result: nat, scale: nat, digits: nat, rest := 0, 1, 5, bin;
    while true
      invariant digits <= 5
      invariant ReadDigits(bin, 5) == Scaled(ReadDigits(rest, digits), result, scale)
      decreases digits
    {
      if digits == 0 || |rest| == 0 {
        return None;
      }
      var b := rest[0];
      if b < 128 {
        return Some(((result + scale * b) % TWO32, rest[1..]));
      }
      ScaledStep(result, scale, b, rest, digits);
      result, scale, digits, rest := result + scale * (b - 128), scale * 128, digits - 1, rest[1..];
    }
  }

  /** What is read becomes the high part of a number. */
  function Scaled(o: Option<(nat, seq<Byte>)>, result: nat, scale: nat): Option<(nat, seq<Byte>)> {
    match o
    case None => None
    case Some((n, rest)) => Some((result + scale * n, rest))
  }

  lemma ScaledStep(result: nat, scale: nat, b: Byte, rest: seq<Byte>, digits: nat)
    requires |rest| > 0 && rest[0] == b >= 128 && digits > 0
    ensures Scaled(ReadDigits(rest, digits), result, scale)
         == Scaled(ReadDigits(rest[1..], digits - 1), result + scale * (b - 128), scale * 128)
  {
    match ReadDigits(rest[1..], digits - 1)
    case None =>
    case Some((n, _)) => ScaledProduct(result, scale, b - 128, n);
  }

  lemma ScaledProduct(result: int, scale: int, b: int, n: int)
    ensures result + scale * (b + 128 * n) == (result + scale * b) + (scale * 128) * n
  {
    assert scale * (b + 128 * n) == scale * b + scale * (128 * n);
    assert scale * (128 * n) == (scale * 128) * n;
  }
}
