/** Encoding, decoding and encoding again (libraries/abieos/src/abieos.hpp). */
module AbiRoundTrip {
  import opened Basics
  import opened AbiTypes
  import opened AbiEncode
  import opened AbiTokens
  import opened AbiShow
  import opened AbiText

  // ---------------------------------------------------------------------------------------------
  // Types without extensions
  // ---------------------------------------------------------------------------------------------

  predicate PlainType(t: Type) {
    match t
    case Extension(_) => false
    case Optional(of) => PlainType(of)
    case Array(of) => PlainType(of)
    case _ => true
  }

  predicate PlainFields(fields: seq<Field>) {
    forall i | 0 <= i < |fields| :: PlainType(fields[i].of)
  }

  predicate Plain(env: Env) {
    forall name | name in env :: match env[name]
      case Struct(fields) => PlainFields(fields)
      case Variant(alternatives) => PlainFields(alternatives)
  }

  // ---------------------------------------------------------------------------------------------
  // Decoding what was encoded
  // ---------------------------------------------------------------------------------------------

  /** The entries the printer needs for a value; an empty object needs one too. */
  function ShowDepth(j: Json): nat
    decreases j, 1, 0
  {
    match j
    case Obj(_) => 1 + ShowMemberDepth(j, 0)
    case Arr(_) => 1 + ShowItemDepth(j, 0)
    case _ => 0
  }

  function ShowMemberDepth(j: Json, i: nat): nat
    requires j.Obj? && i <= |j.members|
    decreases j, 0, |j.members| - i
  {
    if i == |j.members| then 0 else Max(ShowDepth(j.members[i].value), ShowMemberDepth(j, i + 1))
  }

  function ShowItemDepth(j: Json, i: nat): nat
    requires j.Arr? && i <= |j.items|
    decreases j, 0, |j.items| - i
  {
    if i == |j.items| then 0 else Max(ShowDepth(j.items[i]), ShowItemDepth(j, i + 1))
  }

  function Fitting(fits: bool, lex: seq<Lexeme>, rest: seq<Byte>): Option<Shown> {
    if fits then Some(Shown(lex, rest)) else None
  }

  /** Exactly the encoding is consumed, whatever follows, and the text of the value comes out; a
      value that is too deep is refused. */
  lemma {:induction false} ShowsEncoded(env: Env, t: Type, allow: bool, j: Json, suffix: seq<Byte>, depth: nat)
    requires Plain(env) && PlainType(t) && SmallArrays(j) && depth <= MAX_STACK_SIZE
    requires Pieces(env, t, allow, j).Some?
    ensures ShowValue(env, t, allow, Flatten(Pieces(env, t, allow, j).value.pieces) + suffix, depth)
         == Fitting(depth + ShowDepth(j) <= MAX_STACK_SIZE, Print(j), suffix)
    decreases j, 1, t, 0
  {
    hide Plain, Flatten, ShowValue, ShowItems, ShowFields, ShowAlternative, ItemPieces, MemberPieces, AlternativePieces, Pieces;
    LeafOrInner(env, t, allow, j);
    match t
    case Leaf(c) => ShowsLeaf(env, c, allow, j, suffix, depth);
    case Optional(of) =>
      if !j.Null? {
        ShowsEncoded(env, of, allow, j, suffix, depth);
      }
      ShowsOptional(env, of, allow, j, suffix, depth);
    case Array(of) =>
      if depth < MAX_STACK_SIZE {
        ShowsItems(env, of, j, 0, suffix, depth + 1);
      }
      ShowsArray(env, of, allow, j, suffix, depth);
    case Named(name) =>
      PlainNamed(env, name);
      if depth < MAX_STACK_SIZE {
        if env[name].Struct? {
          ShowsMembers(env, env[name].fields, allow, j, 0, suffix, depth + 1);
        } else {
          ShowsAlternative(env, env[name].alternatives, allow, j, suffix, depth + 1);
        }
      }
      ShowsNamed(env, name, allow, j, suffix, depth);
  }

  /** What the pieces of a value are made of. */
  lemma LeafOrInner(env: Env, t: Type, allow: bool, j: Json)
    requires Pieces(env, t, allow, j).Some?
    ensures match t
      case Leaf(c) => LeafBytes(c, j).Some?
      case Optional(of) => j.Null? || Pieces(env, of, allow, j).Some?
      case Extension(of) => Pieces(env, of, allow, j).Some?
      case Array(of) => j.Arr? && ItemPieces(env, of, j, 0).Some?
      case Named(name) =>
        && name in env
        && match env[name]
           case Struct(fields) => j.Obj? && MemberPieces(env, fields, allow, j, 0) == Pieces(env, t, allow, j)
           case Variant(alternatives) => j.Arr? && AlternativePieces(env, alternatives, allow, j) == Pieces(env, t, allow, j)
  {
    hide ItemPieces, MemberPieces;
  }

  lemma ShowsOptional(env: Env, of: Type, allow: bool, j: Json, suffix: seq<Byte>, depth: nat)
    requires depth <= MAX_STACK_SIZE && Pieces(env, Optional(of), allow, j).Some?
    requires !j.Null? ==> Pieces(env, of, allow, j).Some?
    requires !j.Null? ==>
      ShowValue(env, of, allow, Flatten(Pieces(env, of, allow, j).value.pieces) + suffix, depth)
      == Fitting(depth + ShowDepth(j) <= MAX_STACK_SIZE, Print(j), suffix)
    ensures ShowValue(env, Optional(of), allow, Flatten(Pieces(env, Optional(of), allow, j).value.pieces) + suffix, depth)
         == Fitting(depth + ShowDepth(j) <= MAX_STACK_SIZE, Print(j), suffix)
  {
    hide Flatten, Pieces, ShowValue, Print, ShowDepth;
    OptionalPieces(env, of, allow, j);
    if j.Null? {
      FlattenOne(Data([0]));
      ShowNull(env, of, allow, j, suffix, depth);
    } else {
      var w := Pieces(env, of, allow, j);
      FlattenAfter(Data([1]), w);
      var b := Flatten(w.value.pieces);
      assert [1] + b + suffix == [1] + (b + suffix);
      ShowPresent(env, of, allow, b + suffix, depth);
    }
  }

  lemma OptionalPieces(env: Env, of: Type, allow: bool, j: Json)
    ensures Pieces(env, Optional(of), allow, j)
         == if j.Null? then Some(Written([Data([0])], false)) else After([Data([1])], Pieces(env, of, allow, j))
  {
  }

  lemma ShowNull(env: Env, of: Type, allow: bool, j: Json, rest: seq<Byte>, depth: nat)
    requires depth <= MAX_STACK_SIZE && j.Null?
    ensures ShowValue(env, Optional(of), allow, [0] + rest, depth) == Fitting(depth + ShowDepth(j) <= MAX_STACK_SIZE, Print(j), rest)
  {
    assert ([0] + rest)[1..] == rest;
  }

  lemma ShowPresent(env: Env, of: Type, allow: bool, rest: seq<Byte>, depth: nat)
    requires depth <= MAX_STACK_SIZE
    ensures ShowValue(env, Optional(of), allow, [1] + rest, depth) == ShowValue(env, of, allow, rest, depth)
  {
    assert ([1] + rest)[1..] == rest;
  }

  lemma ShowsArray(env: Env, of: Type, allow: bool, j: Json, suffix: seq<Byte>, depth: nat)
    requires depth <= MAX_STACK_SIZE && j.Arr? && |j.items| < TWO32 && ItemPieces(env, of, j, 0).Some?
    requires depth < MAX_STACK_SIZE ==>
      ShowItems(env, of, |j.items|, 0, Flatten(ItemPieces(env, of, j, 0).value.pieces) + suffix, depth + 1)
      == Fitting(depth + 1 + ShowItemDepth(j, 0) <= MAX_STACK_SIZE, PrintItems(j, 0), suffix)
    ensures Pieces(env, Array(of), allow, j).Some?
    ensures ShowValue(env, Array(of), allow, Flatten(Pieces(env, Array(of), allow, j).value.pieces) + suffix, depth)
         == Fitting(depth + ShowDepth(j) <= MAX_STACK_SIZE, Print(j), suffix)
  {
    hide Flatten, ShowItems, ItemPieces, PrintItems, ShowItemDepth;
    var q := ItemPieces(env, of, j, 0);
    FlattenAfter(Size(|j.items|), q);
    var bin := Flatten(q.value.pieces) + suffix;
    assert Varuint(|j.items|) + Flatten(q.value.pieces) + suffix == Varuint(|j.items|) + bin;
    VaruintRoundTrip(|j.items|, bin);
    hide Varuint, ReadVaruint;
  }

  lemma ShowsNamed(env: Env, name: string, allow: bool, j: Json, suffix: seq<Byte>, depth: nat)
    requires depth <= MAX_STACK_SIZE && Pieces(env, Named(name), allow, j).Some? && name in env
    requires if env[name].Struct? then j.Obj? else j.Arr?
    requires depth < MAX_STACK_SIZE && env[name].Struct? ==>
      ShowFields(env, env[name].fields, allow, 0, Flatten(Pieces(env, Named(name), allow, j).value.pieces) + suffix, depth + 1)
      == Fitting(depth + 1 + ShowMemberDepth(j, 0) <= MAX_STACK_SIZE, PrintMembers(j, 0), suffix)
    requires depth < MAX_STACK_SIZE && env[name].Variant? ==>
      ShowAlternative(env, env[name].alternatives, allow, Flatten(Pieces(env, Named(name), allow, j).value.pieces) + suffix, depth + 1)
      == Fitting(depth + 1 + ShowItemDepth(j, 0) <= MAX_STACK_SIZE, PrintItems(j, 0), suffix)
    ensures ShowValue(env, Named(name), allow, Flatten(Pieces(env, Named(name), allow, j).value.pieces) + suffix, depth)
         == Fitting(depth + ShowDepth(j) <= MAX_STACK_SIZE, Print(j), suffix)
  {
    hide Flatten, Pieces, ShowFields, ShowAlternative;
  }

  lemma PlainNamed(env: Env, name: string)
    requires Plain(env)
    ensures name in env && env[name].Struct? ==> PlainFields(env[name].fields)
    ensures name in env && env[name].Variant? ==> PlainFields(env[name].alternatives)
  {
  }

  lemma ShowsLeaf(env: Env, c: Codec, allow: bool, j: Json, suffix: seq<Byte>, depth: nat)
    requires LeafBytes(c, j).Some? && depth <= MAX_STACK_SIZE
    ensures Pieces(env, Leaf(c), allow, j).Some?
    ensures ShowValue(env, Leaf(c), allow, Flatten(Pieces(env, Leaf(c), allow, j).value.pieces) + suffix, depth)
         == Fitting(depth + ShowDepth(j) <= MAX_STACK_SIZE, Print(j), suffix)
  {
    var b := LeafBytes(c, j).value;
    FlattenOne(Data(b));
    match c
    case BoolCodec =>
      assert (b + suffix)[1..] == suffix;
    case TextCodec =>
      assert b + suffix == Varuint(|j.s|) + (j.s + suffix);
      VaruintRoundTrip(|j.s|, j.s + suffix);
      assert (j.s + suffix)[..|j.s|] == j.s && (j.s + suffix)[|j.s|..] == suffix;
  }

  lemma {:induction false} ShowsItems(env: Env, of: Type, j: Json, i: nat, suffix: seq<Byte>, depth: nat)
    requires Plain(env) && PlainType(of) && SmallArrays(j) && j.Arr? && i <= |j.items| && depth <= MAX_STACK_SIZE
    requires ItemPieces(env, of, j, i).Some?
    ensures ShowItems(env, of, |j.items|, i, Flatten(ItemPieces(env, of, j, i).value.pieces) + suffix, depth)
         == Fitting(depth + ShowItemDepth(j, i) <= MAX_STACK_SIZE, PrintItems(j, i), suffix)
    decreases j, 0, |j.items| - i
  {
    hide Plain, Flatten, Pieces, ShowValue, Print, ShowDepth;
    if i == |j.items| {
      NothingFlat();
      assert [] + suffix == suffix;
    } else {
      var w, more := Pieces(env, of, false, j.items[i]).value, ItemPieces(env, of, j, i + 1).value;
      FlattenMore(w.pieces, more.pieces);
      var rest := Flatten(more.pieces) + suffix;
      assert Flatten(w.pieces) + Flatten(more.pieces) + suffix == Flatten(w.pieces) + rest;
      ShowsEncoded(env, of, false, j.items[i], rest, depth);
      ShowsItems(env, of, j, i + 1, suffix, depth);
    }
  }

  lemma {:induction false} ShowsMembers(env: Env, fields: seq<Field>, allow: bool, j: Json, i: nat, suffix: seq<Byte>, depth: nat)
    requires Plain(env) && PlainFields(fields) && SmallArrays(j) && j.Obj? && i <= |j.members| && depth <= MAX_STACK_SIZE
    requires MemberPieces(env, fields, allow, j, i).Some? && i <= |fields|
    ensures ShowFields(env, fields, allow, i, Flatten(MemberPieces(env, fields, allow, j, i).value.pieces) + suffix, depth)
         == Fitting(depth + ShowMemberDepth(j, i) <= MAX_STACK_SIZE, PrintMembers(j, i), suffix)
    decreases j, 0, |j.members| - i
  {
    hide Plain, Flatten, Pieces, ShowValue, Print, ShowDepth;
    if i == |j.members| {
      NothingFlat();
      assert [] + suffix == suffix;
    } else {
      var inner := allow && i == |fields| - 1;
      var v := j.members[i].value;
      var w, more := Pieces(env, fields[i].of, inner, v).value, MemberPieces(env, fields, allow, j, i + 1).value;
      FlattenMore(w.pieces, more.pieces);
      var rest := Flatten(more.pieces) + suffix;
      assert Flatten(w.pieces) + Flatten(more.pieces) + suffix == Flatten(w.pieces) + rest;
      ShowsEncoded(env, fields[i].of, inner, v, rest, depth);
      ShowsMembers(env, fields, allow, j, i + 1, suffix, depth);
    }
  }

  lemma ShowsAlternative(env: Env, alternatives: seq<Field>, allow: bool, j: Json, suffix: seq<Byte>, depth: nat)
    requires Plain(env) && PlainFields(alternatives) && SmallArrays(j) && depth <= MAX_STACK_SIZE
    requires AlternativePieces(env, alternatives, allow, j).Some?
    ensures ShowAlternative(env, alternatives, allow, Flatten(AlternativePieces(env, alternatives, allow, j).value.pieces) + suffix, depth)
         == Fitting(depth + ShowItemDepth(j, 0) <= MAX_STACK_SIZE, PrintItems(j, 0), suffix)
    decreases j, 0, 0
  {
    hide Plain, Flatten, Pieces, ShowValue;
    var k := AlternativeOf(alternatives, j.items[0].s);
    var w := Pieces(env, alternatives[k].of, allow, j.items[1]);
    FlattenAfter(Data(Varuint(k)), w);
    var bin := Flatten(w.value.pieces) + suffix;
    assert Varuint(k) + Flatten(w.value.pieces) + suffix == Varuint(k) + bin;
    VaruintRoundTrip(k, bin);
    ShowsEncoded(env, alternatives[k].of, allow, j.items[1], suffix, depth);
    PrintPair(j);
  }

  lemma PrintPair(j: Json)
    requires j.Arr? && |j.items| == 2 && j.items[0].Str?
    ensures PrintItems(j, 0) == [LString(j.items[0].s), LComma] + Print(j.items[1]) + [LCloseArray]
    ensures ShowItemDepth(j, 0) == ShowDepth(j.items[1])
  {
    assert PrintItems(j, 2) == [LCloseArray] && ShowItemDepth(j, 2) == 0;
    assert PrintItems(j, 1) == [LComma] + Print(j.items[1]) + [LCloseArray];
    assert Print(j.items[0]) == [LString(j.items[0].s)];
    assert ShowDepth(j.items[0]) == 0;
  }

  // ---------------------------------------------------------------------------------------------
  // Reading back the text
  // ---------------------------------------------------------------------------------------------

  predicate NoColon(l: seq<Lexeme>) {
    |l| == 0 || !l[0].LColon?
  }

  /** A reader of the printed text sees the tokens of the value. */
  lemma {:induction false} StripPrint(j: Json, more: seq<Lexeme>)
    requires NoColon(more)
    ensures Strip(Print(j) + more) == Tokens(j) + Strip(more)
    decreases j, 1, 0
  {
    hide PrintMembers, PrintItems, MemberTokens, ItemTokens;
    var l := Print(j) + more;
    match j
    case Obj(_) =>
      assert l[1..] == PrintMembers(j, 0) + more;
      StripMembers(j, 0, more);
    case Arr(_) =>
      assert l[1..] == PrintItems(j, 0) + more;
      StripItems(j, 0, more);
    case _ => assert l[1..] == more;
  }

  lemma {:induction false} StripMembers(j: Json, i: nat, more: seq<Lexeme>)
    requires j.Obj? && i <= |j.members|
    ensures Strip(PrintMembers(j, i) + more) == MemberTokens(j, i) + ([TEndObject] + Strip(more))
    ensures NoColon(PrintMembers(j, i) + more)
    decreases j, 0, |j.members| - i
  {
    hide Print, Tokens, Strip, PrintMembers, MemberTokens;
    if i == |j.members| {
      StripClose(j, more);
    } else {
      var key, v, tail := j.members[i].key, j.members[i].value, PrintMembers(j, i + 1) + more;
      StripMembers(j, i + 1, more);
      StripPrint(v, tail);
      StripMember(key, Print(v) + tail);
      StripSeparator(i, [LString(key), LColon] + (Print(v) + tail));
      PrintMember(j, i, more);
      MemberTokensStep(j, i, Strip(more));
    }
  }

  lemma StripClose(j: Json, more: seq<Lexeme>)
    requires j.Obj?
    ensures Strip(PrintMembers(j, |j.members|) + more) == MemberTokens(j, |j.members|) + ([TEndObject] + Strip(more))
    ensures NoColon(PrintMembers(j, |j.members|) + more)
  {
    assert ([LCloseObject] + more)[1..] == more;
  }

  lemma PrintMember(j: Json, i: nat, more: seq<Lexeme>)
    requires j.Obj? && i < |j.members|
    ensures PrintMembers(j, i) + more
         == Separator(i) + ([LString(j.members[i].key), LColon] + (Print(j.members[i].value) + (PrintMembers(j, i + 1) + more)))
    ensures NoColon(PrintMembers(j, i) + more)
  {
    hide Print;
  }

  lemma StripMember(key: Text, tail: seq<Lexeme>)
    ensures Strip([LString(key), LColon] + tail) == [TKey(key)] + Strip(tail)
  {
    var l := [LString(key), LColon] + tail;
    assert l[1..] == [LColon] + tail && l[1..][1..] == tail;
  }

  lemma StripSeparator(i: nat, tail: seq<Lexeme>)
    ensures Strip(Separator(i) + tail) == Strip(tail)
  {
    if i == 0 {
      assert Separator(i) + tail == tail;
    } else {
      assert (Separator(i) + tail)[1..] == tail;
    }
  }

  lemma {:induction false} StripItems(j: Json, i: nat, more: seq<Lexeme>)
    requires j.Arr? && i <= |j.items|
    ensures Strip(PrintItems(j, i) + more) == ItemTokens(j, i) + ([TEndArray] + Strip(more))
    ensures i > 0 ==> NoColon(PrintItems(j, i) + more)
    decreases j, 0, |j.items| - i
  {
    hide Print, Tokens, Strip, PrintItems, ItemTokens;
    if i == |j.items| {
      StripCloseArray(j, more);
    } else {
      var v, tail := j.items[i], PrintItems(j, i + 1) + more;
      StripItems(j, i + 1, more);
      StripPrint(v, tail);
      StripSeparator(i, Print(v) + tail);
      PrintItem(j, i, more);
      ItemTokensStep(j, i, Strip(more));
    }
  }

  lemma StripCloseArray(j: Json, more: seq<Lexeme>)
    requires j.Arr?
    ensures Strip(PrintItems(j, |j.items|) + more) == ItemTokens(j, |j.items|) + ([TEndArray] + Strip(more))
    ensures NoColon(PrintItems(j, |j.items|) + more)
  {
    assert ([LCloseArray] + more)[1..] == more;
  }

  lemma PrintItem(j: Json, i: nat, more: seq<Lexeme>)
    requires j.Arr? && i < |j.items|
    ensures PrintItems(j, i) + more == Separator(i) + (Print(j.items[i]) + (PrintItems(j, i + 1) + more))
    ensures i > 0 ==> NoColon(PrintItems(j, i) + more)
  {
    hide Print;
  }

  // ---------------------------------------------------------------------------------------------
  // Everything that is decoded can be encoded
  // ---------------------------------------------------------------------------------------------

  predicate DistinctAlternatives(env: Env) {
    forall name | name in env && env[name].Variant? :: DistinctNames(env[name].alternatives)
  }

  lemma AlternativeIs(alternatives: seq<Field>, k: nat)
    requires DistinctNames(alternatives) && k < |alternatives|
    ensures AlternativeOf(alternatives, alternatives[k].name) == k
  {
    var m := AlternativeOf(alternatives, alternatives[k].name);
    assert m <= k;
  }

  /** Whatever bytes are decoded, the text is that of a value which the encoders accept. */
  lemma {:induction false} ShownIsValue(env: Env, t: Type, allow: bool, bin: seq<Byte>, depth: nat) returns (j: Json)
    requires Plain(env) && DistinctAlternatives(env) && PlainType(t) && depth <= MAX_STACK_SIZE
    requires ShowValue(env, t, allow, bin, depth).Some?
    ensures ShowValue(env, t, allow, bin, depth).value.lex == Print(j)
    ensures SmallArrays(j) && Pieces(env, t, allow, j).Some? && depth + ShowDepth(j) <= MAX_STACK_SIZE
    decreases MAX_STACK_SIZE - depth, 0, t
  {
    hide Plain, DistinctAlternatives, ShowItems, ShowFields, ShowAlternative, ItemPieces, MemberPieces, AlternativePieces;
    match t
    case Leaf(c) => j := ShownLeaf(env, c, allow, bin);
    case Optional(of) =>
      var (present, rest) := ReadBool(bin).value;
      if present {
        j := ShownIsValue(env, of, allow, rest, depth);
      } else {
        j := Null;
      }
    case Array(of) =>
      var (n, rest) := ReadVaruint(bin).value;
      j := ShownItems(env, of, n, [], rest, depth + 1);
    case Named(name) =>
      PlainNamed(env, name);
      NamedAlternatives(env, name);
      if env[name].Struct? {
        j := ShownFields(env, env[name].fields, allow, [], bin, depth + 1);
      } else {
        j := ShownAlternative(env, env[name].alternatives, allow, bin, depth + 1);
      }
  }

  lemma NamedAlternatives(env: Env, name: string)
    requires DistinctAlternatives(env)
    ensures name in env && env[name].Variant? ==> DistinctNames(env[name].alternatives)
  {
  }

  lemma ShownLeaf(env: Env, c: Codec, allow: bool, bin: seq<Byte>) returns (j: Json)
    requires ShowLeaf(c, bin).Some?
    ensures ShowLeaf(c, bin).value.lex == Print(j)
    ensures SmallArrays(j) && Pieces(env, Leaf(c), allow, j).Some? && ShowDepth(j) == 0
  {
    match c
    case BoolCodec => j := Bool(bin[0] != 0);
    case TextCodec =>
      var (n, rest) := ReadVaruint(bin).value;
      j := Str(rest[..n]);
  }

  lemma {:induction false} ShownItems(env: Env, of: Type, size: nat, pre: seq<Json>, bin: seq<Byte>, depth: nat) returns (j: Json)
    requires Plain(env) && DistinctAlternatives(env) && PlainType(of) && depth <= MAX_STACK_SIZE && |pre| <= size < TWO32
    requires forall i | 0 <= i < |pre| :: SmallArrays(pre[i])
    requires ShowItems(env, of, size, |pre|, bin, depth).Some?
    ensures j.Arr? && |j.items| == size && j.items[..|pre|] == pre
    ensures ShowItems(env, of, size, |pre|, bin, depth).value.lex == PrintItems(j, |pre|)
    ensures SmallArrays(j) && ItemPieces(env, of, j, |pre|).Some? && depth + ShowItemDepth(j, |pre|) <= MAX_STACK_SIZE
    decreases MAX_STACK_SIZE - depth, 1, size - |pre|
  {
    hide Plain, DistinctAlternatives, ShowValue, Pieces, Print, ShowDepth;
    if |pre| == size {
      j := Arr(pre);
    } else {
      var s := ShowValue(env, of, false, bin, depth).value;
      var v := ShownIsValue(env, of, false, bin, depth);
      j := ShownItems(env, of, size, pre + [v], s.rest, depth);
      assert j.items[|pre|] == j.items[..|pre| + 1][|pre|] == v;
      assert j.items[..|pre|] == j.items[..|pre| + 1][..|pre|] == pre;
    }
  }

  lemma {:induction false} ShownFields(env: Env, fields: seq<Field>, allow: bool, pre: seq<Member>, bin: seq<Byte>, depth: nat) returns (j: Json)
    requires Plain(env) && DistinctAlternatives(env) && PlainFields(fields) && depth <= MAX_STACK_SIZE && |pre| <= |fields|
    requires forall i | 0 <= i < |pre| :: SmallArrays(pre[i].value)
    requires ShowFields(env, fields, allow, |pre|, bin, depth).Some?
    ensures j.Obj? && |j.members| == |fields| && j.members[..|pre|] == pre
    ensures ShowFields(env, fields, allow, |pre|, bin, depth).value.lex == PrintMembers(j, |pre|)
    ensures SmallArrays(j) && MemberPieces(env, fields, allow, j, |pre|).Some? && depth + ShowMemberDepth(j, |pre|) <= MAX_STACK_SIZE
    decreases MAX_STACK_SIZE - depth, 1, |fields| - |pre|
  {
    hide Plain, DistinctAlternatives, ShowValue, Pieces, Print, ShowDepth;
    if |pre| == |fields| {
      j := Obj(pre);
    } else {
      var i := |pre|;
      var s := ShowValue(env, fields[i].of, allow && i == |fields| - 1, bin, depth).value;
      var v := ShownIsValue(env, fields[i].of, allow && i == |fields| - 1, bin, depth);
      j := ShownFields(env, fields, allow, pre + [Member(fields[i].name, v)], s.rest, depth);
      assert j.members[i] == j.members[..i + 1][i] == Member(fields[i].name, v);
      assert j.members[..i] == j.members[..i + 1][..i] == pre;
    }
  }

  lemma ShownAlternative(env: Env, alternatives: seq<Field>, allow: bool, bin: seq<Byte>, depth: nat) returns (j: Json)
    requires Plain(env) && DistinctAlternatives(env) && DistinctNames(alternatives) && PlainFields(alternatives) && depth <= MAX_STACK_SIZE
    requires ShowAlternative(env, alternatives, allow, bin, depth).Some?
    ensures j.Arr? && ShowAlternative(env, alternatives, allow, bin, depth).value.lex == PrintItems(j, 0)
    ensures SmallArrays(j) && AlternativePieces(env, alternatives, allow, j).Some? && depth + ShowItemDepth(j, 0) <= MAX_STACK_SIZE
    decreases MAX_STACK_SIZE - depth, 1, 0
  {
    hide Plain, DistinctAlternatives, ShowValue, Pieces;
    var (k, rest) := ReadVaruint(bin).value;
    AlternativeIs(alternatives, k);
    var v := ShownIsValue(env, alternatives[k].of, allow, rest, depth);
    j := Arr([Str(alternatives[k].name), v]);
    PrintPair(j);
    assert SmallArrays(j.items[0]);
  }

  // ---------------------------------------------------------------------------------------------
  // Main results
  // ---------------------------------------------------------------------------------------------

  /** The streaming encoder accepts exactly the values in declared order that are not too deep. On these the
      encoder by name gives the same bytes if every object leaves out nothing but extensions, and fails otherwise. */
  lemma EncodersAgree(env: Env, t: Type, j: Json)
    requires DistinctStructs(env) && SmallArrays(j)
    ensures var r, e := ReadValue(env, t, true, Tokens(j), false, 0), Encode(env, t, true, j, false);
      && (r.Some? <==> Pieces(env, t, true, j).Some? && Depth(j) <= 128)
      && (r.Some? ==> |r.value.rest| == 0)
      && (r.Some? && StopsWell(env, t, j) ==> e == Some(Encoded(Flatten(r.value.pieces), r.value.skipped)))
      && (r.Some? && !StopsWell(env, t, j) ==> e == None)
      && (InOrder(env, t, j) && Depth(j) <= 128 ==> (e.Some? <==> r.Some? && StopsWell(env, t, j)))
  {
    hide DistinctStructs, SmallArrays, InOrder, StopsWell, Flatten, Pieces, ReadValue, Encode;
    ReadValueIs(env, t, true, j, [], 0);
    assert Tokens(j) + [] == Tokens(j);
    OrderedAgrees(env, t, true, j);
    if InOrder(env, t, j) && Encode(env, t, true, j, false).Some? {
      InOrderAccepted(env, t, true, j);
    }
  }

  /** Decoding what was encoded, with anything behind it, gives the text of the value and leaves the
      rest; reading that text and encoding again gives the same bytes. */
  lemma DecodeThenEncode(env: Env, t: Type, j: Json, suffix: seq<Byte>)
    requires Plain(env) && PlainType(t) && SmallArrays(j) && ShowDepth(j) <= 128
    requires Pieces(env, t, true, j).Some?
    ensures var b := Flatten(Pieces(env, t, true, j).value.pieces);
      var shown := ShowValue(env, t, true, b + suffix, 0);
      && shown == Some(Shown(Print(j), suffix))
      && Strip(shown.value.lex) == Tokens(j)
      && var again := ReadValue(env, t, true, Strip(shown.value.lex), false, 0);
         again.Some? && |again.value.rest| == 0 && Flatten(again.value.pieces) == b
  {
    hide Plain, Flatten, Pieces, ShowValue, ReadValue;
    ShowsEncoded(env, t, true, j, suffix, 0);
    StripPrint(j, []);
    assert Print(j) + [] == Print(j) && Tokens(j) + [] == Tokens(j);
    ReadValueIs(env, t, true, j, [], 0);
    ShallowerToRead(j);
  }

  /** The streaming encoder needs no more entries than the printer. */
  lemma {:induction false} ShallowerToRead(j: Json)
    ensures Depth(j) <= ShowDepth(j)
    decreases j, 1, 0
  {
    match j
    case Obj(_) => ShallowerMembers(j, 0);
    case Arr(_) => ShallowerItems(j, 0);
    case _ =>
  }

  lemma {:induction false} ShallowerMembers(j: Json, i: nat)
    requires j.Obj? && i <= |j.members|
    ensures MemberDepth(j, i) <= ShowMemberDepth(j, i)
    decreases j, 0, |j.members| - i
  {
    if i < |j.members| {
      ShallowerToRead(j.members[i].value);
      ShallowerMembers(j, i + 1);
    }
  }

  lemma {:induction false} ShallowerItems(j: Json, i: nat)
    requires j.Arr? && i <= |j.items|
    ensures ItemDepth(j, i) <= ShowItemDepth(j, i)
    decreases j, 0, |j.items| - i
  {
    if i < |j.items| {
      ShallowerToRead(j.items[i]);
      ShallowerItems(j, i + 1);
    }
  }

  /** Any bytes that decode at all give a text that encodes, and decoding the encoding gives the
      same text again. */
  lemma DecodedTextIsStable(env: Env, t: Type, bin: seq<Byte>)
    requires Plain(env) && DistinctAlternatives(env) && PlainType(t) && ShowValue(env, t, true, bin, 0).Some?
    ensures var lex := ShowValue(env, t, true, bin, 0).value.lex;
      var again := ReadValue(env, t, true, Strip(lex), false, 0);
      && again.Some? && |again.value.rest| == 0
      && ShowValue(env, t, true, Flatten(again.value.pieces), 0) == Some(Shown(lex, []))
  {
    hide Plain, DistinctAlternatives, Flatten, Pieces, ShowValue, ReadValue;
    var j := ShownIsValue(env, t, true, bin, 0);
    DecodeThenEncode(env, t, j, []);
    ReadValueIs(env, t, true, j, [], 0);
    StripPrint(j, []);
    ShallowerToRead(j);
    assert Print(j) + [] == Print(j) && Tokens(j) + [] == Tokens(j);
    var b := Flatten(Pieces(env, t, true, j).value.pieces);
    assert b + [] == b;
  }

  /** Any bytes that decode at all give strict JSON text of a single value that the encoders accept. */
  lemma DecodedTextIsJson(env: Env, t: Type, bin: seq<Byte>)
    requires Plain(env) && DistinctAlternatives(env) && PlainType(t) && ShowValue(env, t, true, bin, 0).Some?
    ensures var r := ReadJson(ShowValue(env, t, true, bin, 0).value.lex);
      r.Some? && |r.value.rest| == 0 && Pieces(env, t, true, r.value.value).Some? && ShowDepth(r.value.value) <= 128
  {
    hide Plain, DistinctAlternatives, Pieces, ShowValue, ReadJson;
    var j := ShownIsValue(env, t, true, bin, 0);
    PrintedIsRead(j, []);
    assert Print(j) + [] == Print(j);
  }
}
