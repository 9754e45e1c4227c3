/** Recursive descent over JSON tokens: the streaming encoder without its explicit stack
    (libraries/abieos/src/abieos.hpp). */
module AbiTokens {
  import opened Basics
  import opened AbiTypes
  import opened AbiEncode

  /** `count` is the number of items read. */
  datatype Parsed = Parsed(pieces: seq<Piece>, count: nat, rest: seq<Token>, skipped: bool)

  function LeafToken(c: Codec, t: Token): Option<seq<Byte>> {
    match (c, t)
    case (BoolCodec, TBool(b)) => Some([if b then 1 else 0])
    case (TextCodec, TString(s)) => if |s| < TWO32 then Some(Varuint(|s|) + s) else None
    case _ => None
  }

  function Before(p: seq<Piece>, o: Option<Parsed>): Option<Parsed> {
    match o
    case None => None
    case Some(r) => Some(Parsed(p + r.pieces, r.count, r.rest, r.skipped))
  }

  /** `depth` is the height of the stack below the value. */
  function ReadValue(env: Env, t: Type, allow: bool, tokens: seq<Token>, skipped: bool, depth: nat): (r: Option<Parsed>)
    ensures r.Some? ==> |r.value.rest| < |tokens|
    decreases |tokens|, 1, t
  {
    if |tokens| == 0 then None else
    match t
    case Leaf(c) =>
      (match LeafToken(c, tokens[0])
       case None => None
       case Some(b) => Some(Parsed([Data(b)], 0, tokens[1..], skipped)))
    case Optional(of) =>
      if tokens[0].TNull? then Some(Parsed([Data([0])], 0, tokens[1..], skipped))
      else Before([Data([1])], ReadValue(env, of, allow, tokens, skipped, depth))
    case Extension(of) => ReadValue(env, of, allow, tokens, skipped, depth)
    case Array(of) =>
      if !tokens[0].TStartArray? then None else
        (match ReadItems(env, of, tokens[1..], skipped, depth + 1)
         case None => None
         case Some(r) => Some(Parsed([Size(r.count)] + r.pieces, 0, r.rest, r.skipped)))
    case Named(name) =>
      if name !in env then None else
        match env[name]
        case Struct(fields) =>
          if tokens[0].TStartObject? then ReadMembers(env, fields, allow, -1, tokens[1..], skipped, depth + 1) else None
        case Variant(alternatives) =>
          if tokens[0].TStartArray? then ReadVariant(env, alternatives, allow, -1, 0, tokens[1..], skipped, depth + 1) else None
  }

  /** The stack limit is checked before every item. */
  function ReadItems(env: Env, of: Type, tokens: seq<Token>, skipped: bool, depth: nat): (r: Option<Parsed>)
    ensures r.Some? ==> |r.value.rest| < |tokens|
    decreases |tokens|, 2
  {
    if depth > MAX_STACK_SIZE || |tokens| == 0 then None
    else if tokens[0].TEndArray? then Some(Parsed([], 0, tokens[1..], skipped))
    else
      match ReadValue(env, of, false, tokens, skipped, depth)
      case None => None
      case Some(item) =>
        match ReadItems(env, of, item.rest, item.skipped, depth)
        case None => None
        case Some(more) => Some(Parsed(item.pieces + more.pieces, more.count + 1, more.rest, more.skipped))
  }

  /** `position` is the last field whose key was read. The first token of an object is handled
      before the stack limit is checked. */
  function ReadMembers(env: Env, fields: seq<Field>, allow: bool, position: int, tokens: seq<Token>, skipped: bool, depth: nat): (r: Option<Parsed>)
    requires -1 <= position < |fields|
    ensures r.Some? ==> |r.value.rest| < |tokens|
    decreases |tokens|, 2
  {
    if |tokens| == 0 then None
    else if tokens[0].TEndObject? then
      if position + 1 == |fields| then Some(Parsed([], 0, tokens[1..], skipped))
      else if fields[position + 1].of.Extension? && allow then Some(Parsed([], 0, tokens[1..], true))
      else None
    else if tokens[0].TKey? then
      if position + 1 == |fields| || skipped || tokens[0].s != fields[position + 1].name || depth > MAX_STACK_SIZE then None
      else ReadMembers(env, fields, allow, position + 1, tokens[1..], skipped, depth)
    else if position < 0 then None
    else
      match ReadValue(env, fields[position].of, allow && position == |fields| - 1, tokens, skipped, depth)
      case None => None
      case Some(v) =>
        if depth > MAX_STACK_SIZE then None else
          Before(v.pieces, ReadMembers(env, fields, allow, position, v.rest, v.skipped, depth))
  }

  /** `position` counts the items of the pair that were read, less one. */
  function ReadVariant(env: Env, alternatives: seq<Field>, allow: bool, position: int, k: nat, tokens: seq<Token>, skipped: bool, depth: nat): (r: Option<Parsed>)
    requires position >= -1 && (position == 0 ==> k < |alternatives|)
    ensures r.Some? ==> |r.value.rest| < |tokens|
    decreases |tokens|, 2
  {
    if depth > MAX_STACK_SIZE || |tokens| == 0 then None
    else if tokens[0].TEndArray? then if position == 1 then Some(Parsed([], 0, tokens[1..], skipped)) else None
    else if position == -1 then
      if !tokens[0].TString? then None else
        var found := AlternativeOf(alternatives, tokens[0].s);
        if found == |alternatives| || found >= TWO32 then None else
          Before([Data(Varuint(found))], ReadVariant(env, alternatives, allow, 0, found, tokens[1..], skipped, depth))
    else if position == 0 then
      match ReadValue(env, alternatives[k].of, allow, tokens, skipped, depth)
      case None => None
      case Some(v) => Before(v.pieces, ReadVariant(env, alternatives, allow, 1, k, v.rest, v.skipped, depth))
    else None
  }

  // ---------------------------------------------------------------------------------------------
  // Reading the tokens of a value
  // ---------------------------------------------------------------------------------------------

  function Max(a: nat, b: nat): nat {
    if a < b then b else a
  }

  /** How many entries a value adds to the stack when the limit is checked; an empty object is
      complete before that. */
  function Depth(j: Json): nat
    decreases j, 1, 0
  {
    match j
    case Obj(members) => if |members| == 0 then 0 else 1 + MemberDepth(j, 0)
    case Arr(items) => 1 + ItemDepth(j, 0)
    case _ => 0
  }

  function MemberDepth(j: Json, i: nat): nat
    requires j.Obj? && i <= |j.members|
    decreases j, 0, |j.members| - i
  {
    if i == |j.members| then 0 else Max(Depth(j.members[i].value), MemberDepth(j, i + 1))
  }

  function ItemDepth(j: Json, i: nat): nat
    requires j.Arr? && i <= |j.items|
    decreases j, 0, |j.items| - i
  {
    if i == |j.items| then 0 else Max(Depth(j.items[i]), ItemDepth(j, i + 1))
  }

  function Expected(w: Option<Written>, fits: bool, count: nat, rest: seq<Token>): Option<Parsed> {
    if w.Some? && fits then Some(Parsed(w.value.pieces, count, rest, w.value.skipped)) else None
  }

  /** On the tokens of a value, followed by anything, exactly the pieces of the value are read,
      unless the value is too deep. */
  lemma {:induction false} ReadValueIs(env: Env, t: Type, allow: bool, j: Json, rest: seq<Token>, depth: nat)
    requires depth <= MAX_STACK_SIZE
    ensures ReadValue(env, t, allow, Tokens(j) + rest, false, depth)
         == Expected(Pieces(env, t, allow, j), depth + Depth(j) <= MAX_STACK_SIZE, 0, rest)
    decreases j, 1, t, 0
  {
    match t
    case Leaf(c) => ReadLeafIs(env, c, allow, j, rest, depth);
    case Optional(of) =>
      ReadValueIs(env, of, allow, j, rest, depth);
      hide ReadValue, Pieces;
      ReadOptionalIs(env, of, allow, j, rest, depth);
    case Extension(of) =>
      ReadValueIs(env, of, allow, j, rest, depth);
    case Array(of) =>
      if j.Arr? {
        ReadItemsIs(env, of, j, 0, rest, depth + 1);
      }
      hide ReadItems, ItemPieces, ItemDepth;
      ReadArrayIs(env, of, allow, j, rest, depth);
    case Named(name) =>
      if name in env && env[name].Struct? {
        if j.Obj? {
          ReadMembersIs(env, env[name].fields, allow, j, 0, rest, false, depth + 1);
        }
        hide ReadMembers, MemberPieces, MemberDepth;
        ReadObjectIs(env, name, allow, j, rest, depth);
      } else if name in env {
        if j.Arr? {
          ReadVariantIs(env, env[name].alternatives, allow, j, rest, depth + 1);
        }
        hide ReadVariant, AlternativePieces, ItemDepth;
        ReadPairIs(env, name, allow, j, rest, depth);
      }
  }

  lemma ReadLeafIs(env: Env, c: Codec, allow: bool, j: Json, rest: seq<Token>, depth: nat)
    requires depth <= MAX_STACK_SIZE
    ensures ReadValue(env, Leaf(c), allow, Tokens(j) + rest, false, depth)
         == Expected(Pieces(env, Leaf(c), allow, j), depth + Depth(j) <= MAX_STACK_SIZE, 0, rest)
  {
    FirstToken(j, rest);
  }

  lemma ReadOptionalIs(env: Env, of: Type, allow: bool, j: Json, rest: seq<Token>, depth: nat)
    requires depth <= MAX_STACK_SIZE
    requires ReadValue(env, of, allow, Tokens(j) + rest, false, depth)
          == Expected(Pieces(env, of, allow, j), depth + Depth(j) <= MAX_STACK_SIZE, 0, rest)
    ensures ReadValue(env, Optional(of), allow, Tokens(j) + rest, false, depth)
         == Expected(Pieces(env, Optional(of), allow, j), depth + Depth(j) <= MAX_STACK_SIZE, 0, rest)
  {
    FirstToken(j, rest);
    hide Tokens;
  }

  lemma ReadArrayIs(env: Env, of: Type, allow: bool, j: Json, rest: seq<Token>, depth: nat)
    requires depth <= MAX_STACK_SIZE
    requires j.Arr? ==>
      ReadItems(env, of, ItemTokens(j, 0) + ([TEndArray] + rest), false, depth + 1)
      == Expected(ItemPieces(env, of, j, 0), depth + 1 + ItemDepth(j, 0) <= MAX_STACK_SIZE, |j.items|, rest)
    ensures ReadValue(env, Array(of), allow, Tokens(j) + rest, false, depth)
         == Expected(Pieces(env, Array(of), allow, j), depth + Depth(j) <= MAX_STACK_SIZE, 0, rest)
  {
    hide ReadItems, ItemPieces, ItemDepth, ItemTokens;
    FirstToken(j, rest);
    if j.Arr? {
      assert (Tokens(j) + rest)[1..] == ItemTokens(j, 0) + ([TEndArray] + rest);
    }
  }

  lemma ReadObjectIs(env: Env, name: string, allow: bool, j: Json, rest: seq<Token>, depth: nat)
    requires depth <= MAX_STACK_SIZE && name in env && env[name].Struct?
    requires j.Obj? ==>
      ReadMembers(env, env[name].fields, allow, -1, MemberTokens(j, 0) + ([TEndObject] + rest), false, depth + 1)
      == AddSkipped(false, Expected(MemberPieces(env, env[name].fields, allow, j, 0),
                                    |j.members| == 0 || depth + 1 + MemberDepth(j, 0) <= MAX_STACK_SIZE, 0, rest))
    ensures ReadValue(env, Named(name), allow, Tokens(j) + rest, false, depth)
         == Expected(Pieces(env, Named(name), allow, j), depth + Depth(j) <= MAX_STACK_SIZE, 0, rest)
  {
    hide ReadMembers, MemberPieces, MemberDepth, MemberTokens;
    FirstToken(j, rest);
    if j.Obj? {
      assert (Tokens(j) + rest)[1..] == MemberTokens(j, 0) + ([TEndObject] + rest);
    }
  }

  lemma ReadPairIs(env: Env, name: string, allow: bool, j: Json, rest: seq<Token>, depth: nat)
    requires depth <= MAX_STACK_SIZE && name in env && env[name].Variant?
    requires j.Arr? ==>
      ReadVariant(env, env[name].alternatives, allow, -1, 0, ItemTokens(j, 0) + ([TEndArray] + rest), false, depth + 1)
      == Expected(AlternativePieces(env, env[name].alternatives, allow, j), depth + 1 + ItemDepth(j, 0) <= MAX_STACK_SIZE, 0, rest)
    ensures ReadValue(env, Named(name), allow, Tokens(j) + rest, false, depth)
         == Expected(Pieces(env, Named(name), allow, j), depth + Depth(j) <= MAX_STACK_SIZE, 0, rest)
  {
    hide ReadVariant, ItemDepth, ItemTokens;
    FirstToken(j, rest);
    if j.Arr? {
      assert (Tokens(j) + rest)[1..] == ItemTokens(j, 0) + ([TEndArray] + rest);
    }
  }

  lemma FirstToken(j: Json, rest: seq<Token>)
    ensures (Tokens(j) + rest)[0] == match j
      case Null => TNull
      case Bool(b) => TBool(b)
      case Str(s) => TString(s)
      case Obj(_) => TStartObject
      case Arr(_) => TStartArray
    ensures !j.Obj? && !j.Arr? ==> (Tokens(j) + rest)[1..] == rest
  {
  }

  lemma {:induction false} ReadItemsIs(env: Env, of: Type, j: Json, i: nat, rest: seq<Token>, depth: nat)
    requires j.Arr? && i <= |j.items|
    ensures ReadItems(env, of, ItemTokens(j, i) + ([TEndArray] + rest), false, depth)
         == Expected(ItemPieces(env, of, j, i), depth + ItemDepth(j, i) <= MAX_STACK_SIZE, |j.items| - i, rest)
    decreases j, 0, |j.items| - i
  {
    hide Pieces, ReadValue, Tokens, ItemTokens, ReadItems, ItemPieces, ItemDepth, Depth, Expected;
    if depth > MAX_STACK_SIZE || i == |j.items| {
      ReadItemsEnd(env, of, j, i, rest, depth);
    } else {
      var tail := ItemTokens(j, i + 1) + ([TEndArray] + rest);
      ItemTokensStep(j, i, rest);
      ReadItemStep(env, of, j.items[i], tail, depth);
      ReadValueIs(env, of, false, j.items[i], tail, depth);
      ReadItemsIs(env, of, j, i + 1, rest, depth);
      ItemsSplit(env, of, j, i, rest, tail, depth);
    }
  }

  lemma ReadItemsEnd(env: Env, of: Type, j: Json, i: nat, rest: seq<Token>, depth: nat)
    requires j.Arr? && i <= |j.items| && (depth > MAX_STACK_SIZE || i == |j.items|)
    ensures ReadItems(env, of, ItemTokens(j, i) + ([TEndArray] + rest), false, depth)
         == Expected(ItemPieces(env, of, j, i), depth + ItemDepth(j, i) <= MAX_STACK_SIZE, |j.items| - i, rest)
  {
    if i == |j.items| {
      assert ItemTokens(j, i) + ([TEndArray] + rest) == [TEndArray] + rest;
    }
  }

  lemma ItemTokensStep(j: Json, i: nat, rest: seq<Token>)
    requires j.Arr? && i < |j.items|
    ensures ItemTokens(j, i) + ([TEndArray] + rest) == Tokens(j.items[i]) + (ItemTokens(j, i + 1) + ([TEndArray] + rest))
  {
    hide Tokens;
  }

  lemma ReadItemStep(env: Env, of: Type, v: Json, tail: seq<Token>, depth: nat)
    requires depth <= MAX_STACK_SIZE
    ensures var r := ReadItems(env, of, Tokens(v) + tail, false, depth);
      match ReadValue(env, of, false, Tokens(v) + tail, false, depth)
      case None => r == None
      case Some(item) =>
        match ReadItems(env, of, item.rest, item.skipped, depth)
        case None => r == None
        case Some(more) => r == Some(Parsed(item.pieces + more.pieces, more.count + 1, more.rest, more.skipped))
  {
    hide ReadValue, Tokens;
    FirstToken(v, tail);
  }

  /** The expected items are the expected item and the expected rest. */
  lemma ItemsSplit(env: Env, of: Type, j: Json, i: nat, rest: seq<Token>, tail: seq<Token>, depth: nat)
    requires j.Arr? && i < |j.items|
    ensures var r := Expected(ItemPieces(env, of, j, i), depth + ItemDepth(j, i) <= MAX_STACK_SIZE, |j.items| - i, rest);
      match Expected(Pieces(env, of, false, j.items[i]), depth + Depth(j.items[i]) <= MAX_STACK_SIZE, 0, tail)
      case None => r == None
      case Some(item) =>
        && !item.skipped && item.rest == tail
        && match Expected(ItemPieces(env, of, j, i + 1), depth + ItemDepth(j, i + 1) <= MAX_STACK_SIZE, |j.items| - (i + 1), rest)
           case None => r == None
           case Some(more) => r == Some(Parsed(item.pieces + more.pieces, more.count + 1, more.rest, more.skipped))
  {
    hide Pieces, Depth;
    ItemsNotSkipped(env, of, false, j.items[i]);
  }

  /** Only a value that may have extensions can leave one out. */
  lemma {:induction false} ItemsNotSkipped(env: Env, t: Type, allow: bool, j: Json)
    ensures var w := Pieces(env, t, allow, j); w.Some? && w.value.skipped ==> allow
    decreases j, 1, t, 0
  {
    match t
    case Leaf(_) =>
    case Optional(of) => ItemsNotSkipped(env, of, allow, j);
    case Extension(of) => ItemsNotSkipped(env, of, allow, j);
    case Array(of) =>
      if j.Arr? {
        NoItemSkips(env, of, j, 0);
      }
    case Named(name) =>
      if name in env && env[name].Struct? && j.Obj? {
        MembersSkip(env, env[name].fields, allow, j, 0);
      } else if name in env && env[name].Variant? && j.Arr? && |j.items| == 2 && j.items[0].Str? {
        var k := AlternativeOf(env[name].alternatives, j.items[0].s);
        if k < |env[name].alternatives| {
          ItemsNotSkipped(env, env[name].alternatives[k].of, allow, j.items[1]);
        }
      }
  }

  lemma {:induction false} NoItemSkips(env: Env, of: Type, j: Json, i: nat)
    requires j.Arr? && i <= |j.items|
    ensures var w := ItemPieces(env, of, j, i); w.Some? ==> !w.value.skipped
    decreases j, 0, |j.items| - i
  {
    if i < |j.items| {
      NoItemSkips(env, of, j, i + 1);
    }
  }

  /** Once something is left out, nothing follows. */
  lemma {:induction false} MembersSkip(env: Env, fields: seq<Field>, allow: bool, j: Json, i: nat)
    requires j.Obj? && i <= |j.members|
    ensures var w := MemberPieces(env, fields, allow, j, i); w.Some? && w.value.skipped ==> allow
    decreases j, 0, |j.members| - i
  {
    hide Pieces;
    if i < |j.members| && i < |fields| {
      ItemsNotSkipped(env, fields[i].of, allow && i == |fields| - 1, j.members[i].value);
      MembersSkip(env, fields, allow, j, i + 1);
    }
  }

  /** A key and its value. */
  lemma ReadMemberStep(env: Env, fields: seq<Field>, allow: bool, i: nat, key: Text, v: Json, tail: seq<Token>, skipped: bool, depth: nat)
    requires i <= |fields|
    ensures var r := ReadMembers(env, fields, allow, i - 1, [TKey(key)] + (Tokens(v) + tail), skipped, depth);
      if i == |fields| || skipped || key != fields[i].name || depth > MAX_STACK_SIZE then r == None
      else
        match ReadValue(env, fields[i].of, allow && i == |fields| - 1, Tokens(v) + tail, false, depth)
        case None => r == None
        case Some(x) => r == Before(x.pieces, ReadMembers(env, fields, allow, i, x.rest, x.skipped, depth))
  {
    hide ReadValue, Tokens;
    var tokens := [TKey(key)] + (Tokens(v) + tail);
    assert tokens[1..] == Tokens(v) + tail;
    FirstToken(v, tail);
  }

  lemma {:induction false} ReadMembersIs(env: Env, fields: seq<Field>, allow: bool, j: Json, i: nat, rest: seq<Token>, skipped: bool, depth: nat)
    requires j.Obj? && i <= |j.members| && i <= |fields| && (skipped ==> i == |fields|)
    ensures ReadMembers(env, fields, allow, i - 1, MemberTokens(j, i) + ([TEndObject] + rest), skipped, depth)
         == AddSkipped(skipped, Expected(MemberPieces(env, fields, allow, j, i),
                                         i == |j.members| || depth + MemberDepth(j, i) <= MAX_STACK_SIZE, 0, rest))
    decreases j, 0, |j.members| - i
  {
    hide Pieces, ReadValue, ReadMembers, Tokens, MemberTokens, MemberPieces, MemberDepth, Depth, Expected;
    if i == |j.members| {
      ReadMembersEnd(env, fields, allow, j, rest, skipped, depth);
    } else {
      var v, tail := j.members[i].value, MemberTokens(j, i + 1) + ([TEndObject] + rest);
      MemberTokensStep(j, i, rest);
      ReadMemberStep(env, fields, allow, i, j.members[i].key, v, tail, skipped, depth);
      MembersSplit(env, fields, allow, j, i, rest, tail, depth);
      if i < |fields| && !skipped && j.members[i].key == fields[i].name && depth <= MAX_STACK_SIZE {
        var inner := allow && i == |fields| - 1;
        ReadValueIs(env, fields[i].of, inner, v, tail, depth);
        var w := Expected(Pieces(env, fields[i].of, inner, v), depth + Depth(v) <= MAX_STACK_SIZE, 0, tail);
        if w.Some? {
          ReadMembersIs(env, fields, allow, j, i + 1, rest, w.value.skipped, depth);
        }
      }
    }
  }

  lemma ReadMembersEnd(env: Env, fields: seq<Field>, allow: bool, j: Json, rest: seq<Token>, skipped: bool, depth: nat)
    requires j.Obj? && |j.members| <= |fields| && (skipped ==> |j.members| == |fields|)
    ensures ReadMembers(env, fields, allow, |j.members| - 1, MemberTokens(j, |j.members|) + ([TEndObject] + rest), skipped, depth)
         == AddSkipped(skipped, Expected(MemberPieces(env, fields, allow, j, |j.members|), true, 0, rest))
  {
    assert MemberTokens(j, |j.members|) + ([TEndObject] + rest) == [TEndObject] + rest;
  }

  lemma MemberTokensStep(j: Json, i: nat, rest: seq<Token>)
    requires j.Obj? && i < |j.members|
    ensures MemberTokens(j, i) + ([TEndObject] + rest)
         == [TKey(j.members[i].key)] + (Tokens(j.members[i].value) + (MemberTokens(j, i + 1) + ([TEndObject] + rest)))
  {
    hide Tokens;
  }

  /** The expected members are the expected value and the expected rest. */
  lemma MembersSplit(env: Env, fields: seq<Field>, allow: bool, j: Json, i: nat, rest: seq<Token>, tail: seq<Token>, depth: nat)
    requires j.Obj? && i < |j.members| && i <= |fields|
    ensures var r := Expected(MemberPieces(env, fields, allow, j, i), depth + MemberDepth(j, i) <= MAX_STACK_SIZE, 0, rest);
      if i == |fields| || j.members[i].key != fields[i].name || depth > MAX_STACK_SIZE then r == None else
      match Expected(Pieces(env, fields[i].of, allow && i == |fields| - 1, j.members[i].value),
                     depth + Depth(j.members[i].value) <= MAX_STACK_SIZE, 0, tail)
      case None => r == None
      case Some(v) =>
        && (v.skipped ==> i + 1 == |fields|) && v.rest == tail
        && r == Before(v.pieces, AddSkipped(v.skipped,
             Expected(MemberPieces(env, fields, allow, j, i + 1),
                      i + 1 == |j.members| || depth + MemberDepth(j, i + 1) <= MAX_STACK_SIZE, 0, rest)))
  {
    hide Pieces, Depth;
    if i < |fields| {
      ItemsNotSkipped(env, fields[i].of, allow && i == |fields| - 1, j.members[i].value);
    }
  }

  function AddSkipped(skipped: bool, o: Option<Parsed>): Option<Parsed> {
    match o
    case None => None
    case Some(r) => Some(Parsed(r.pieces, r.count, r.rest, skipped || r.skipped))
  }

  lemma ReadVariantIs(env: Env, alternatives: seq<Field>, allow: bool, j: Json, rest: seq<Token>, depth: nat)
    requires j.Arr?
    ensures ReadVariant(env, alternatives, allow, -1, 0, ItemTokens(j, 0) + ([TEndArray] + rest), false, depth)
         == Expected(AlternativePieces(env, alternatives, allow, j), depth + ItemDepth(j, 0) <= MAX_STACK_SIZE, 0, rest)
    decreases j, 0, |j.items| + 1
  {
    hide Pieces, ReadValue;
    var after := [TEndArray] + rest;
    var tokens := ItemTokens(j, 0) + after;
    if |j.items| == 0 {
      assert tokens == after;
    } else {
      var tail := ItemTokens(j, 1) + after;
      assert tokens == Tokens(j.items[0]) + tail;
      FirstToken(j.items[0], tail);
      if j.items[0].Str? {
        var k := AlternativeOf(alternatives, j.items[0].s);
        if k < |alternatives| && k < TWO32 {
          ReadAlternativeIs(env, alternatives, allow, j, k, rest, depth);
          PairDepth(j);
        }
      }
    }
  }

  lemma PairDepth(j: Json)
    ensures j.Arr? && |j.items| == 2 && j.items[0].Str? ==> ItemDepth(j, 0) == Depth(j.items[1])
  {
    if j.Arr? && |j.items| == 2 && j.items[0].Str? {
      assert ItemDepth(j, 2) == 0;
      assert ItemDepth(j, 1) == Depth(j.items[1]);
    }
  }

  lemma ReadAlternativeIs(env: Env, alternatives: seq<Field>, allow: bool, j: Json, k: nat, rest: seq<Token>, depth: nat)
    requires j.Arr? && |j.items| > 0 && k < |alternatives|
    ensures ReadVariant(env, alternatives, allow, 0, k, ItemTokens(j, 1) + ([TEndArray] + rest), false, depth)
         == if |j.items| != 2 then None
            else Expected(Pieces(env, alternatives[k].of, allow, j.items[1]), depth + Depth(j.items[1]) <= MAX_STACK_SIZE, 0, rest)
    decreases j, 0, |j.items|
  {
    hide Pieces, ReadValue;
    var after := [TEndArray] + rest;
    var tokens := ItemTokens(j, 1) + after;
    if depth <= MAX_STACK_SIZE {
      if |j.items| == 1 {
        assert tokens == after;
      } else {
        var tail := ItemTokens(j, 2) + after;
        assert tokens == Tokens(j.items[1]) + tail;
        FirstToken(j.items[1], tail);
        ReadValueIs(env, alternatives[k].of, allow, j.items[1], tail, depth);
        var w := Pieces(env, alternatives[k].of, allow, j.items[1]);
        if w.Some? {
          ReadPairEnd(env, alternatives, allow, j, k, rest, depth, w.value.skipped, w.value.pieces);
        }
      }
    }
  }

  lemma ReadPairEnd(env: Env, alternatives: seq<Field>, allow: bool, j: Json, k: nat, rest: seq<Token>, depth: nat,
                    skipped: bool, p: seq<Piece>)
    requires j.Arr? && |j.items| >= 2 && depth <= MAX_STACK_SIZE
    ensures
      Before(p, ReadVariant(env, alternatives, allow, 1, k, ItemTokens(j, 2) + ([TEndArray] + rest), skipped, depth))
        == if |j.items| == 2 then Some(Parsed(p, 0, rest, skipped)) else None
  {
    var after := [TEndArray] + rest;
    var tail := ItemTokens(j, 2) + after;
    assert p + [] == p;
    if |j.items| == 2 {
      assert tail == after && after[1..] == rest;
    } else {
      var last := ItemTokens(j, 3) + after;
      assert tail == Tokens(j.items[2]) + last;
      FirstToken(j.items[2], last);
    }
  }
}
