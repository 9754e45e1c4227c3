/** The binary form of JSON values, byte by byte (libraries/abieos/src/abieos.hpp,
    libraries/abieos/include/eosio/varint.hpp). */
module AbiWire {
  import opened Basics
  import opened AbiTypes
  import opened AbiEncode
  import opened AbiShow

  // ---------------------------------------------------------------------------------------------
  // Sizes
  // ---------------------------------------------------------------------------------------------

  predicate IsVaruint(b: seq<Byte>, n: nat) {
    Terminated(b) && Sevens(b) == n && (|b| > 1 ==> b[|b| - 1] > 0)
  }

  lemma Low(b: nat, q: nat)
    requires b < 128
    ensures (b + 128 * q) % 128 == b && (b + 128 * q) / 128 == q
  {
  }

  lemma MoreDigits(b: Byte, q: nat)
    requires b < 128 && q > 0
    ensures Varuint(b + 128 * q) == [b + 128] + Varuint(q)
  {
    Low(b, q);
  }

  lemma TerminatedTail(b: seq<Byte>)
    requires Terminated(b) && |b| > 1
    ensures Terminated(b[1..]) && b[0] >= 128 && b[1..][|b| - 2] == b[|b| - 1]
  {
  }

  lemma {:induction false} VaruintIsSevens(n: nat)
    ensures IsVaruint(Varuint(n), n)
    decreases n
  {
    if n >= 128 {
      var tail := Varuint(n / 128);
      VaruintIsSevens(n / 128);
      assert Varuint(n)[1..] == tail;
      assert forall i | 1 <= i < |Varuint(n)| :: Varuint(n)[i] == tail[i - 1];
    }
  }

  lemma OneSeven(b: seq<Byte>)
    requires |b| == 1 && b[0] < 128
    ensures Sevens(b) == b[0] && b == Varuint(b[0])
  {
    assert b[1..] == [];
  }

  lemma HighBit(b: Byte)
    requires b >= 128
    ensures b % 128 == b - 128
  {
  }

  lemma MoreSevens(b: seq<Byte>)
    requires |b| > 1 && b[0] >= 128
    ensures Sevens(b) == (b[0] - 128) + 128 * Sevens(b[1..])
  {
    HighBit(b[0]);
  }

  lemma {:induction false} SevensIsVaruint(b: seq<Byte>)
    requires Terminated(b) && (|b| > 1 ==> b[|b| - 1] > 0)
    ensures b == Varuint(Sevens(b)) && (b[|b| - 1] > 0 ==> Sevens(b) > 0)
    decreases |b|
  {
    hide Varuint, Sevens;
    if |b| == 1 {
      OneSeven(b);
    } else {
      TerminatedTail(b);
      MoreSevens(b);
      SevensIsVaruint(b[1..]);
      MoreDigits(b[0] - 128, Sevens(b[1..]));
      assert b == [b[0]] + b[1..];
    }
  }

  /** The written form of a size: base 128, low digits first, no superfluous digit. */
  lemma VaruintIff(n: nat, b: seq<Byte>)
    ensures b == Varuint(n) <==> IsVaruint(b, n)
  {
    VaruintIsSevens(n);
    if IsVaruint(b, n) {
      SevensIsVaruint(b);
    }
  }

  /** The bytes start with a size of `k` bytes. */
  predicate StartsWithSize(bin: seq<Byte>, k: nat) {
    k <= |bin| && Terminated(bin[..k])
  }

  lemma {:induction false} DigitsAre(bin: seq<Byte>, digits: nat, k: nat)
    requires StartsWithSize(bin, k)
    ensures ReadDigits(bin, digits) == if k <= digits then Some((Sevens(bin[..k]), bin[k..])) else None
    decreases k
  {
    if k == 1 {
      assert bin[..1][0] == bin[0] && bin[..1][1..] == [];
    } else {
      var tail := bin[1..];
      assert bin[..k][0] == bin[0] && bin[..k][1..] == tail[..k - 1];
      assert tail[k - 1..] == bin[k..];
      TerminatedTail(bin[..k]);
      if digits > 0 {
        DigitsAre(tail, digits - 1, k - 1);
        Low(bin[0] - 128, Sevens(tail[..k - 1]));
      }
    }
  }

  lemma {:induction false} NoDigits(bin: seq<Byte>, digits: nat)
    requires forall k | 0 <= k <= digits :: !StartsWithSize(bin, k)
    ensures ReadDigits(bin, digits) == None
    decreases digits
  {
    if digits > 0 && |bin| > 0 {
      assert !StartsWithSize(bin, 1);
      forall k | 0 <= k <= digits - 1 ensures !StartsWithSize(bin[1..], k) {
        if StartsWithSize(bin[1..], k) {
          assert bin[..k + 1] == [bin[0]] + bin[1..][..k];
          assert StartsWithSize(bin, k + 1);
        }
      }
      NoDigits(bin[1..], digits - 1);
    }
  }

  /** A size is read from one to five bytes, superfluous digits included, and cut to 32 bits. */
  lemma ReadVaruintIs(bin: seq<Byte>)
    ensures forall k | 1 <= k <= 5 && StartsWithSize(bin, k) ::
      ReadVaruint(bin) == Some((Sevens(bin[..k]) % 0x1_0000_0000, bin[k..]))
    ensures ReadVaruint(bin).Some? <==> exists k :: 1 <= k <= 5 && StartsWithSize(bin, k)
  {
    forall k | 1 <= k <= 5 && StartsWithSize(bin, k)
      ensures ReadVaruint(bin) == Some((Sevens(bin[..k]) % 0x1_0000_0000, bin[k..]))
    {
      DigitsAre(bin, 5, k);
    }
    if !exists k :: 1 <= k <= 5 && StartsWithSize(bin, k) {
      NoDigits(bin, 5);
    }
  }

  // ---------------------------------------------------------------------------------------------
  // Values
  // ---------------------------------------------------------------------------------------------

  function Joined(parts: seq<seq<Byte>>): seq<Byte> {
    if |parts| == 0 then [] else parts[0] + Joined(parts[1..])
  }

  /** A true is the byte 1, a false 0; a text is its size and its bytes. */
  lemma LeafWire(env: Env, allow: bool, j: Json, size: seq<Byte>, skipped: bool)
    ensures Encode(env, Leaf(BoolCodec), allow, Bool(true), skipped) == Some(Encoded([1], skipped))
    ensures Encode(env, Leaf(BoolCodec), allow, Bool(false), skipped) == Some(Encoded([0], skipped))
    ensures !j.Bool? ==> Encode(env, Leaf(BoolCodec), allow, j, skipped) == None
    ensures j.Str? && |j.s| < 0x1_0000_0000 && IsVaruint(size, |j.s|) ==>
      Encode(env, Leaf(TextCodec), allow, j, skipped) == Some(Encoded(size + j.s, skipped))
    ensures !j.Str? ==> Encode(env, Leaf(TextCodec), allow, j, skipped) == None
  {
    hide Varuint, IsVaruint;
    if j.Str? {
      VaruintIff(|j.s|, size);
    }
  }

  /** An absent optional is the byte 0, a present one 1 and its value. */
  lemma OptionalWire(env: Env, of: Type, allow: bool, j: Json, skipped: bool)
    ensures Encode(env, Optional(of), allow, Null, skipped) == Some(Encoded([0], skipped))
    ensures !j.Null? ==>
      match Encode(env, of, allow, j, skipped)
      case Some(e) => Encode(env, Optional(of), allow, j, skipped) == Some(Encoded([1] + e.bytes, e.skipped))
      case None => Encode(env, Optional(of), allow, j, skipped) == None
  {
  }

  /** An array is the number of its items, and then each of them. */
  lemma ArrayWire(env: Env, of: Type, allow: bool, j: Json, size: seq<Byte>, parts: seq<seq<Byte>>)
    requires j.Arr? && |parts| == |j.items| < 0x1_0000_0000 && IsVaruint(size, |j.items|)
    requires forall i | 0 <= i < |parts| :: Encode(env, of, false, j.items[i], false) == Some(Encoded(parts[i], false))
    ensures Encode(env, Array(of), allow, j, false) == Some(Encoded(size + Joined(parts), false))
  {
    VaruintIff(|j.items|, size);
    ItemsWire(env, of, j, parts, 0);
    assert parts[0..] == parts;
  }

  lemma {:induction false} ItemsWire(env: Env, of: Type, j: Json, parts: seq<seq<Byte>>, i: nat)
    requires j.Arr? && |parts| == |j.items| && i <= |parts|
    requires forall i | 0 <= i < |parts| :: Encode(env, of, false, j.items[i], false) == Some(Encoded(parts[i], false))
    ensures EncodeItems(env, of, j, i, false) == Some(Encoded(Joined(parts[i..]), false))
    decreases |parts| - i
  {
    if i < |parts| {
      ItemsWire(env, of, j, parts, i + 1);
      assert parts[i..][1..] == parts[i + 1..];
    }
  }

  /** The member of an object that a name stands for: the last one with it. */
  predicate IsMember(j: Json, name: Text, k: nat) {
    j.Obj? && k < |j.members| && j.members[k].key == name && forall i | k < i < |j.members| :: j.members[i].key != name
  }

  /** The field is the k-th member of the object, and these are the bytes of its value. */
  predicate FieldIs(env: Env, f: Field, allow: bool, j: Json, k: nat, part: seq<Byte>) {
    IsMember(j, f.name, k) && Encode(env, f.of, allow, j.members[k].value, false) == Some(Encoded(part, false))
  }

  /** A struct is its fields in declared order, wherever they are in the object. */
  lemma StructWire(env: Env, name: string, allow: bool, j: Json, places: seq<nat>, parts: seq<seq<Byte>>)
    requires name in env && env[name].Struct? && |places| == |parts| == |env[name].fields|
    requires forall i | 0 <= i < |places| ::
      FieldIs(env, env[name].fields[i], allow && i == |places| - 1, j, places[i], parts[i])
    requires j.Obj?
    ensures Encode(env, Named(name), allow, j, false) == Some(Encoded(Joined(parts), false))
  {
    FieldsWire(env, env[name].fields, allow, j, places, parts, 0);
    assert parts[0..] == parts;
  }

  lemma {:induction false} FieldsWire(env: Env, fields: seq<Field>, allow: bool, j: Json, places: seq<nat>, parts: seq<seq<Byte>>, n: nat)
    requires j.Obj? && |places| == |parts| == |fields| && n <= |fields|
    requires forall i | 0 <= i < |places| :: FieldIs(env, fields[i], allow && i == |fields| - 1, j, places[i], parts[i])
    ensures EncodeFields(env, fields, allow, j, n, false) == Some(Encoded(Joined(parts[n..]), false))
    decreases |fields| - n
  {
    if n < |fields| {
      FieldsWire(env, fields, allow, j, places, parts, n + 1);
      assert parts[n..][1..] == parts[n + 1..];
      assert FieldIs(env, fields[n], allow && n == |fields| - 1, j, places[n], parts[n]);
      MemberIs(j, fields[n].name, places[n]);
    }
  }

  lemma MemberIs(j: Json, name: Text, k: nat)
    requires IsMember(j, name, k)
    ensures MemberOf(j, name, |j.members|) == k
  {
    var m := MemberOf(j, name, |j.members|);
    assert j.members[k].key == name && m >= 0;
  }

  /** A variant is the place of its alternative, the first one with the name, and then its value. */
  lemma VariantWire(env: Env, name: string, allow: bool, j: Json, k: nat, place: seq<Byte>, e: Encoded, skipped: bool)
    requires name in env && env[name].Variant? && j.Arr? && |j.items| == 2 && j.items[0].Str?
    requires k < |env[name].alternatives| && k < 0x1_0000_0000 && IsVaruint(place, k)
    requires env[name].alternatives[k].name == j.items[0].s
    requires forall i | 0 <= i < k :: env[name].alternatives[i].name != j.items[0].s
    requires Encode(env, env[name].alternatives[k].of, allow, j.items[1], skipped) == Some(e)
    ensures Encode(env, Named(name), allow, j, skipped) == Some(Encoded(place + e.bytes, e.skipped))
  {
    VaruintIff(k, place);
    var n := AlternativeOf(env[name].alternatives, j.items[0].s);
    assert n == k;
  }

  /** Reading a bool or the presence of an optional: every byte other than 0 means yes. */
  lemma FlagRead(env: Env, of: Type, allow: bool, b: Byte, rest: seq<Byte>, depth: nat)
    requires depth <= 128
    ensures ShowValue(env, Leaf(BoolCodec), allow, [b] + rest, depth) == Some(Shown([LBool(b != 0)], rest))
    ensures ShowValue(env, Optional(of), allow, [0] + rest, depth) == Some(Shown([LNull], rest))
    ensures b != 0 ==> ShowValue(env, Optional(of), allow, [b] + rest, depth) == ShowValue(env, of, allow, rest, depth)
  {
    assert ([b] + rest)[1..] == rest && ([0] + rest)[1..] == rest;
  }
}
