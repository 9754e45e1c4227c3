/** What it means to encode a JSON value: recursive definitions that the machines are measured
    against (libraries/abieos/src/abieos.hpp). */
module AbiEncode {
  import opened Basics
  import opened AbiTypes

  const MAX_STACK_SIZE: nat := 128

  // ---------------------------------------------------------------------------------------------
  // Leaves and lookups
  // ---------------------------------------------------------------------------------------------

  function LeafBytes(c: Codec, j: Json): Option<seq<Byte>> {
    match (c, j)
    case (BoolCodec, Bool(b)) => Some([if b then 1 else 0])
    case (TextCodec, Str(s)) => if |s| < TWO32 then Some(Varuint(|s|) + s) else None
    case _ => None
  }

  /** The first alternative with the name, or the number of alternatives. */
  function AlternativeOf(alternatives: seq<Field>, name: Text): (k: nat)
    ensures k <= |alternatives|
    ensures k < |alternatives| ==> alternatives[k].name == name
    ensures forall i | 0 <= i < k :: alternatives[i].name != name
  {
    if |alternatives| == 0 || alternatives[0].name == name then 0 else 1 + AlternativeOf(alternatives[1..], name)
  }

  /** A JSON object as a dictionary: the last member with the name, or -1. */
  function MemberOf(j: Json, name: Text, n: nat): (k: int)
    requires j.Obj? && n <= |j.members|
    ensures -1 <= k < n
    ensures k >= 0 ==> j.members[k].key == name
    ensures forall i | k < i < n :: j.members[i].key != name
  {
    if n == 0 then -1
    else if j.members[n - 1].key == name then n - 1
    else MemberOf(j, name, n - 1)
  }

  // ---------------------------------------------------------------------------------------------
  // Encoding by the names of the fields
  // ---------------------------------------------------------------------------------------------

  datatype Encoded = Encoded(bytes: seq<Byte>, skipped: bool)

  /** Sizes first, fields in declared order wherever they are in the object. `skipped` says that a
      trailing extension was left out. */
  function Encode(env: Env, t: Type, allow: bool, j: Json, skipped: bool): Option<Encoded>
    decreases j, 1, t, 0
  {
    match t
    case Leaf(c) =>
      (match LeafBytes(c, j)
       case None => None
       case Some(b) => Some(Encoded(b, skipped)))
    case Optional(of) =>
      if j.Null? then Some(Encoded([0], skipped)) else Prefixed([1], Encode(env, of, allow, j, skipped))
    case Extension(of) => Encode(env, of, allow, j, skipped)
    case Array(of) =>
      if j.Arr? && |j.items| < TWO32 then Prefixed(Varuint(|j.items|), EncodeItems(env, of, j, 0, skipped)) else None
    case Named(name) =>
      if name !in env then None else
        match env[name]
        case Struct(fields) => if j.Obj? then EncodeFields(env, fields, allow, j, 0, skipped) else None
        case Variant(alternatives) => EncodeAlternative(env, alternatives, allow, j, skipped)
  }

  function Prefixed(b: seq<Byte>, o: Option<Encoded>): Option<Encoded> {
    match o
    case None => None
    case Some(e) => Some(Encoded(b + e.bytes, e.skipped))
  }

  function EncodeItems(env: Env, of: Type, j: Json, i: nat, skipped: bool): Option<Encoded>
    requires j.Arr? && i <= |j.items|
    decreases j, 0, |j.items| - i
  {
    if i == |j.items| then Some(Encoded([], skipped)) else
      match Encode(env, of, false, j.items[i], skipped)
      case None => None
      case Some(e) => Prefixed(e.bytes, EncodeItems(env, of, j, i + 1, e.skipped))
  }

  function EncodeFields(env: Env, fields: seq<Field>, allow: bool, j: Json, i: nat, skipped: bool): Option<Encoded>
    requires j.Obj? && i <= |fields|
    decreases j, 0, |fields| - i
  {
    if i == |fields| then Some(Encoded([], skipped)) else
      var k := MemberOf(j, fields[i].name, |j.members|);
      if k < 0 then
        if fields[i].of.Extension? && allow then EncodeFields(env, fields, allow, j, i + 1, true) else None
      else if skipped then None
      else
        match Encode(env, fields[i].of, allow && i == |fields| - 1, j.members[k].value, skipped)
        case None => None
        case Some(e) => Prefixed(e.bytes, EncodeFields(env, fields, allow, j, i + 1, e.skipped))
  }

  function EncodeAlternative(env: Env, alternatives: seq<Field>, allow: bool, j: Json, skipped: bool): Option<Encoded>
    decreases j, 0, 0
  {
    if !j.Arr? || |j.items| != 2 || !j.items[0].Str? then None else
      var k := AlternativeOf(alternatives, j.items[0].s);
      if k == |alternatives| || k >= TWO32 then None else
        Prefixed(Varuint(k), Encode(env, alternatives[k].of, allow, j.items[1], skipped))
  }

  // ---------------------------------------------------------------------------------------------
  // Encoding in the order of the tokens
  // ---------------------------------------------------------------------------------------------

  /** Output with sizes that are known only later. */
  datatype Piece = Data(bytes: seq<Byte>) | Size(n: nat)

  function PieceBytes(p: Piece): seq<Byte> {
    match p
    case Data(b) => b
    case Size(n) => Varuint(n)
  }

  function Flatten(p: seq<Piece>): seq<Byte> {
    if |p| == 0 then [] else Flatten(p[..|p| - 1]) + PieceBytes(p[|p| - 1])
  }

  lemma FlattenLast(p: seq<Piece>)
    requires |p| > 0
    ensures Flatten(p) == Flatten(p[..|p| - 1]) + PieceBytes(p[|p| - 1])
  {
  }

  lemma {:induction false} FlattenMore(p: seq<Piece>, q: seq<Piece>)
    ensures Flatten(p + q) == Flatten(p) + Flatten(q)
    decreases |q|
  {
    hide Flatten, PieceBytes;
    if |q| == 0 {
      NothingFlat();
      assert p + q == p;
    } else {
      var n := |q| - 1;
      FlattenMore(p, q[..n]);
      FlattenLast(p + q);
      FlattenLast(q);
      assert (p + q)[..|p + q| - 1] == p + q[..n];
      BytesAssociate(Flatten(p), Flatten(q[..n]), PieceBytes(q[n]));
    }
  }

  lemma BytesAssociate(a: seq<Byte>, b: seq<Byte>, c: seq<Byte>)
    ensures a + (b + c) == (a + b) + c
  {
  }

  datatype Written = Written(pieces: seq<Piece>, skipped: bool)

  function After(p: seq<Piece>, o: Option<Written>): Option<Written> {
    match o
    case None => None
    case Some(w) => Some(Written(p + w.pieces, w.skipped))
  }

  /** The members must be the fields in declared order; only a trailing extension may be left out.
      `skipped` says whether one was. */
  function Pieces(env: Env, t: Type, allow: bool, j: Json): Option<Written>
    decreases j, 1, t, 0
  {
    match t
    case Leaf(c) =>
      (match LeafBytes(c, j)
       case None => None
       case Some(b) => Some(Written([Data(b)], false)))
    case Optional(of) =>
      if j.Null? then Some(Written([Data([0])], false)) else After([Data([1])], Pieces(env, of, allow, j))
    case Extension(of) => Pieces(env, of, allow, j)
    case Array(of) =>
      if j.Arr? then After([Size(|j.items|)], ItemPieces(env, of, j, 0)) else None
    case Named(name) =>
      if name !in env then None else
        match env[name]
        case Struct(fields) => if j.Obj? then MemberPieces(env, fields, allow, j, 0) else None
        case Variant(alternatives) => AlternativePieces(env, alternatives, allow, j)
  }

  function ItemPieces(env: Env, of: Type, j: Json, i: nat): Option<Written>
    requires j.Arr? && i <= |j.items|
    decreases j, 0, |j.items| - i
  {
    if i == |j.items| then Some(Written([], false)) else
      match Pieces(env, of, false, j.items[i])
      case None => None
      case Some(w) => After(w.pieces, ItemPieces(env, of, j, i + 1))
  }

  function MemberPieces(env: Env, fields: seq<Field>, allow: bool, j: Json, i: nat): Option<Written>
    requires j.Obj? && i <= |j.members|
    decreases j, 0, |j.members| - i
  {
    if i == |j.members| then
      if i == |fields| then Some(Written([], false))
      else if i < |fields| && fields[i].of.Extension? && allow then Some(Written([], true))
      else None
    else if i >= |fields| || j.members[i].key != fields[i].name then None
    else
      match Pieces(env, fields[i].of, allow && i == |fields| - 1, j.members[i].value)
      case None => None
      case Some(w) =>
        match MemberPieces(env, fields, allow, j, i + 1)
        case None => None
        case Some(more) => Some(Written(w.pieces + more.pieces, w.skipped || more.skipped))
  }

  function AlternativePieces(env: Env, alternatives: seq<Field>, allow: bool, j: Json): Option<Written>
    decreases j, 0, 0
  {
    if !j.Arr? || |j.items| != 2 || !j.items[0].Str? then None else
      var k := AlternativeOf(alternatives, j.items[0].s);
      if k == |alternatives| || k >= TWO32 then None else
        After([Data(Varuint(k))], Pieces(env, alternatives[k].of, allow, j.items[1]))
  }

  // ---------------------------------------------------------------------------------------------
  // The two agree
  // ---------------------------------------------------------------------------------------------

  predicate DistinctNames(fields: seq<Field>) {
    forall i, j | 0 <= i < j < |fields| :: fields[i].name != fields[j].name
  }

  predicate DistinctStructs(env: Env) {
    forall name | name in env && env[name].Struct? :: DistinctNames(env[name].fields)
  }

  /** The fields from the n-th on are extensions. */
  predicate RestExtensions(fields: seq<Field>, n: nat) {
    forall k | n <= k < |fields| :: fields[k].of.Extension?
  }

  /** Whatever an object in the value leaves out at its end is an extension. */
  ghost predicate StopsWell(env: Env, t: Type, j: Json)
    decreases j, 1, t
  {
    match t
    case Leaf(_) => true
    case Optional(of) => j.Null? || StopsWell(env, of, j)
    case Extension(of) => StopsWell(env, of, j)
    case Array(of) => j.Arr? ==> ItemsStopWell(env, of, j, 0)
    case Named(name) =>
      name in env ==> match env[name]
        case Struct(fields) => j.Obj? ==> RestExtensions(fields, |j.members|) && MembersStopWell(env, fields, j, 0)
        case Variant(alternatives) =>
          j.Arr? && |j.items| == 2 && j.items[0].Str? && AlternativeOf(alternatives, j.items[0].s) < |alternatives| ==>
            StopsWell(env, alternatives[AlternativeOf(alternatives, j.items[0].s)].of, j.items[1])
  }

  ghost predicate ItemsStopWell(env: Env, of: Type, j: Json, i: nat)
    requires j.Arr?
    decreases j, 0
  {
    forall k | i <= k < |j.items| :: StopsWell(env, of, j.items[k])
  }

  ghost predicate MembersStopWell(env: Env, fields: seq<Field>, j: Json, i: nat)
    requires j.Obj?
    decreases j, 0
  {
    forall k | i <= k < |j.members| && k < |fields| :: StopsWell(env, fields[k].of, j.members[k].value)
  }

  /** Every array is short enough for its size; any text that fits in memory is. */
  predicate SmallArrays(j: Json) {
    match j
    case Obj(members) => forall i | 0 <= i < |members| :: SmallArrays(members[i].value)
    case Arr(items) => |items| < TWO32 && forall i | 0 <= i < |items| :: SmallArrays(items[i])
    case _ => true
  }

  /** What encoding by name should give. */
  function Named'(ok: bool, w: Written): Option<Encoded> {
    if ok then Some(Encoded(Flatten(w.pieces), w.skipped)) else None
  }

  /** A value that can be encoded in the order of the tokens: encoding by name gives the same bytes if every
      object leaves out nothing but extensions, and fails otherwise. */
  lemma {:induction false} OrderedAgrees(env: Env, t: Type, allow: bool, j: Json)
    requires DistinctStructs(env) && SmallArrays(j)
    ensures var w := Pieces(env, t, allow, j);
      w.Some? ==> Encode(env, t, allow, j, false) == Named'(StopsWell(env, t, j), w.value) && (w.value.skipped ==> allow)
    decreases j, 1, t, 0
  {
    hide Flatten, ItemsStopWell, MembersStopWell;
    match t
    case Leaf(c) =>
      if LeafBytes(c, j).Some? {
        FlattenOne(Data(LeafBytes(c, j).value));
      }
    case Optional(of) =>
      FlattenOne(Data([0]));
      if !j.Null? {
        OrderedAgrees(env, of, allow, j);
        FlattenAfter(Data([1]), Pieces(env, of, allow, j));
      }
    case Extension(of) => OrderedAgrees(env, of, allow, j);
    case Array(of) =>
      if j.Arr? {
        ItemsAgree(env, of, j, 0);
        FlattenAfter(Size(|j.items|), ItemPieces(env, of, j, 0));
      }
    case Named(name) =>
      if name in env && env[name].Struct? && j.Obj? {
        MembersAgree(env, env[name].fields, allow, j);
      } else if name in env && env[name].Variant? {
        AlternativeAgrees(env, env[name].alternatives, allow, j);
      }
  }

  lemma FlattenAfter(p: Piece, o: Option<Written>)
    ensures o.Some? ==> Flatten([p] + o.value.pieces) == PieceBytes(p) + Flatten(o.value.pieces)
  {
    if o.Some? {
      FlattenMore([p], o.value.pieces);
      FlattenOne(p);
    }
  }

  lemma FlattenOne(p: Piece)
    ensures Flatten([p]) == PieceBytes(p)
  {
    assert [p][..0] == [];
  }

  lemma {:induction false} ItemsAgree(env: Env, of: Type, j: Json, i: nat)
    requires DistinctStructs(env) && SmallArrays(j) && j.Arr? && i <= |j.items|
    ensures var w := ItemPieces(env, of, j, i);
      w.Some? ==> EncodeItems(env, of, j, i, false) == Named'(ItemsStopWell(env, of, j, i), w.value) && !w.value.skipped
    decreases j, 0, |j.items| - i
  {
    hide Pieces, Encode, Flatten, StopsWell;
    if i < |j.items| {
      OrderedAgrees(env, of, false, j.items[i]);
      ItemsAgree(env, of, j, i + 1);
      FlattenBoth(Pieces(env, of, false, j.items[i]), ItemPieces(env, of, j, i + 1));
      assert ItemsStopWell(env, of, j, i) <==> StopsWell(env, of, j.items[i]) && ItemsStopWell(env, of, j, i + 1);
    } else {
      NothingFlat();
    }
  }

  lemma FlattenBoth(w: Option<Written>, more: Option<Written>)
    ensures w.Some? && more.Some? ==> Flatten(w.value.pieces + more.value.pieces) == Flatten(w.value.pieces) + Flatten(more.value.pieces)
  {
    if w.Some? && more.Some? {
      FlattenMore(w.value.pieces, more.value.pieces);
    }
  }

  lemma AlternativeAgrees(env: Env, alternatives: seq<Field>, allow: bool, j: Json)
    requires DistinctStructs(env) && SmallArrays(j)
    ensures var w := AlternativePieces(env, alternatives, allow, j);
      w.Some? ==>
        var k := AlternativeOf(alternatives, j.items[0].s);
        && EncodeAlternative(env, alternatives, allow, j, false) == Named'(StopsWell(env, alternatives[k].of, j.items[1]), w.value)
        && (w.value.skipped ==> allow)
    decreases j, 0, 0
  {
    if AlternativePieces(env, alternatives, allow, j).Some? {
      var k := AlternativeOf(alternatives, j.items[0].s);
      OrderedAgrees(env, alternatives[k].of, allow, j.items[1]);
      FlattenAfter(Data(Varuint(k)), Pieces(env, alternatives[k].of, allow, j.items[1]));
    }
  }

  /** The members from the i-th on are the fields from the i-th on. */
  ghost predicate Declared(fields: seq<Field>, j: Json, i: nat)
    requires j.Obj?
  {
    |j.members| <= |fields| && forall k | i <= k < |j.members| :: j.members[k].key == fields[k].name
  }

  lemma {:induction false} MemberPiecesDeclared(env: Env, fields: seq<Field>, allow: bool, j: Json, i: nat)
    requires j.Obj? && i <= |j.members| && MemberPieces(env, fields, allow, j, i).Some?
    ensures Declared(fields, j, i)
    decreases |j.members| - i
  {
    if i < |j.members| {
      MemberPiecesDeclared(env, fields, allow, j, i + 1);
    }
  }

  lemma MemberIsAt(fields: seq<Field>, j: Json, i: nat)
    requires DistinctNames(fields) && j.Obj? && Declared(fields, j, 0) && i < |fields|
    ensures MemberOf(j, fields[i].name, |j.members|) == if i < |j.members| then i else -1
  {
    var k := MemberOf(j, fields[i].name, |j.members|);
    if k >= 0 {
      assert j.members[k].key == fields[k].name;
    }
  }

  lemma MembersAgree(env: Env, fields: seq<Field>, allow: bool, j: Json)
    requires DistinctStructs(env) && SmallArrays(j) && DistinctNames(fields) && j.Obj?
    ensures var w := MemberPieces(env, fields, allow, j, 0);
      w.Some? ==>
        && EncodeFields(env, fields, allow, j, 0, false)
           == Named'(RestExtensions(fields, |j.members|) && MembersStopWell(env, fields, j, 0), w.value)
        && (w.value.skipped ==> allow)
    decreases j, 0, |j.members| + 1
  {
    if MemberPieces(env, fields, allow, j, 0).Some? {
      MemberPiecesDeclared(env, fields, allow, j, 0);
      MembersAgreeFrom(env, fields, allow, j, 0);
    }
  }

  lemma {:induction false} MembersAgreeFrom(env: Env, fields: seq<Field>, allow: bool, j: Json, i: nat)
    requires DistinctStructs(env) && SmallArrays(j) && DistinctNames(fields)
    requires j.Obj? && Declared(fields, j, 0) && i <= |j.members|
    ensures var w := MemberPieces(env, fields, allow, j, i);
      w.Some? ==>
        && EncodeFields(env, fields, allow, j, i, false)
           == Named'(RestExtensions(fields, |j.members|) && MembersStopWell(env, fields, j, i), w.value)
        && (w.value.skipped ==> allow)
    decreases j, 0, |j.members| - i
  {
    hide Pieces, Encode, Flatten, StopsWell, MembersStopWell, RestExtensions, DistinctStructs, DistinctNames;
    NothingStopsBadly(env, fields, j);
    if MemberPieces(env, fields, allow, j, i).Some? && i < |fields| {
      MemberIsAt(fields, j, i);
      if i == |j.members| {
        RestSkipped(env, fields, allow, j, i + 1);
        NothingFlat();
      } else {
        OrderedAgrees(env, fields[i].of, allow && i == |fields| - 1, j.members[i].value);
        MembersAgreeFrom(env, fields, allow, j, i + 1);
        MemberJoins(env, fields, allow, j, i);
      }
    } else {
      NothingFlat();
    }
  }

  /** A member that agrees and the agreeing rest. */
  lemma MemberJoins(env: Env, fields: seq<Field>, allow: bool, j: Json, i: nat)
    requires j.Obj? && i < |j.members| <= |fields| && MemberPieces(env, fields, allow, j, i).Some?
    requires MemberOf(j, fields[i].name, |j.members|) == i
    requires var inner := allow && i == |fields| - 1;
      var w := Pieces(env, fields[i].of, inner, j.members[i].value).value;
      && Encode(env, fields[i].of, inner, j.members[i].value, false) == Named'(StopsWell(env, fields[i].of, j.members[i].value), w)
      && (w.skipped ==> inner)
    requires var w := MemberPieces(env, fields, allow, j, i + 1).value;
      && EncodeFields(env, fields, allow, j, i + 1, false)
         == Named'(RestExtensions(fields, |j.members|) && MembersStopWell(env, fields, j, i + 1), w)
      && (w.skipped ==> allow)
    ensures var w := MemberPieces(env, fields, allow, j, i).value;
      && EncodeFields(env, fields, allow, j, i, false)
         == Named'(RestExtensions(fields, |j.members|) && MembersStopWell(env, fields, j, i), w)
      && (w.skipped ==> allow)
  {
    hide Pieces, Encode, Flatten, StopsWell, MembersStopWell, RestExtensions;
    NothingStopsBadly(env, fields, j);
    var of, inner := fields[i].of, allow && i == |fields| - 1;
    FlattenMore(Pieces(env, of, inner, j.members[i].value).value.pieces, MemberPieces(env, fields, allow, j, i + 1).value.pieces);
    SkippedIsLast(env, fields, allow, j, i + 1);
    StopsWellStep(env, fields, j, i);
  }

  lemma StopsWellStep(env: Env, fields: seq<Field>, j: Json, i: nat)
    requires j.Obj? && i < |j.members| && i < |fields|
    ensures MembersStopWell(env, fields, j, i) <==> StopsWell(env, fields[i].of, j.members[i].value) && MembersStopWell(env, fields, j, i + 1)
  {
    hide StopsWell;
  }

  lemma NothingStopsBadly(env: Env, fields: seq<Field>, j: Json)
    requires j.Obj?
    ensures MembersStopWell(env, fields, j, |j.members|)
    ensures RestExtensions(fields, |fields|)
    ensures |j.members| < |fields| ==>
      (RestExtensions(fields, |j.members|) <==> fields[|j.members|].of.Extension? && RestExtensions(fields, |j.members| + 1))
  {
    hide StopsWell;
  }

  lemma NothingFlat()
    ensures Flatten([]) == []
  {
  }

  /** After the last field there is nothing more to skip. */
  lemma SkippedIsLast(env: Env, fields: seq<Field>, allow: bool, j: Json, i: nat)
    requires j.Obj? && i <= |j.members| <= |fields| && MemberPieces(env, fields, allow, j, i).Some?
    ensures i == |fields| ==> MemberPieces(env, fields, allow, j, i) == Some(Written([], false))
    ensures i == |fields| ==> forall skipped :: EncodeFields(env, fields, allow, j, i, skipped) == Some(Encoded([], skipped))
  {
  }

  /** Once an extension is left out, all later fields must be extensions. */
  lemma {:induction false} RestSkipped(env: Env, fields: seq<Field>, allow: bool, j: Json, i: nat)
    requires DistinctNames(fields) && allow && j.Obj? && Declared(fields, j, 0) && |j.members| < i <= |fields|
    ensures EncodeFields(env, fields, allow, j, i, true) == if RestExtensions(fields, i) then Some(Encoded([], true)) else None
    decreases |fields| - i
  {
    if i < |fields| {
      MemberIsAt(fields, j, i);
      RestSkipped(env, fields, allow, j, i + 1);
    }
  }

  /** A value on which the two differ: the streaming order accepts a missing first extension although a
      required field is missing too. */
  lemma ExtensionsMustBeLast()
    ensures var fields := [Field([97], Extension(Leaf(BoolCodec))), Field([98], Leaf(BoolCodec))];
      var env := map["s" := Struct(fields)];
      && Pieces(env, Named("s"), true, Obj([])) == Some(Written([], true))
      && Encode(env, Named("s"), true, Obj([]), false) == None
  {
    var fields := [Field([97], Extension(Leaf(BoolCodec))), Field([98], Leaf(BoolCodec))];
    var env := map["s" := Struct(fields)];
    assert MemberPieces(env, fields, true, Obj([]), 0) == Some(Written([], true));
    assert EncodeFields(env, fields, true, Obj([]), 1, true) == None;
  }

  // ---------------------------------------------------------------------------------------------
  // When the order is right
  // ---------------------------------------------------------------------------------------------

  /** The members of every object are fields of its struct in declared order, from the first on. */
  ghost predicate InOrder(env: Env, t: Type, j: Json)
    decreases j, 1, t
  {
    match t
    case Leaf(_) => true
    case Optional(of) => j.Null? || InOrder(env, of, j)
    case Extension(of) => InOrder(env, of, j)
    case Array(of) => j.Arr? ==> forall i | 0 <= i < |j.items| :: InOrder(env, of, j.items[i])
    case Named(name) =>
      name in env ==> match env[name]
        case Struct(fields) =>
          j.Obj? ==> Declared(fields, j, 0) && forall i | 0 <= i < |j.members| :: InOrder(env, fields[i].of, j.members[i].value)
        case Variant(alternatives) =>
          j.Arr? && |j.items| == 2 && j.items[0].Str? && AlternativeOf(alternatives, j.items[0].s) < |alternatives| ==>
            InOrder(env, alternatives[AlternativeOf(alternatives, j.items[0].s)].of, j.items[1])
  }

  /** A value in declared order that can be encoded by name can be encoded in order. */
  lemma {:induction false} InOrderAccepted(env: Env, t: Type, allow: bool, j: Json)
    requires DistinctStructs(env) && SmallArrays(j) && InOrder(env, t, j) && Encode(env, t, allow, j, false).Some?
    ensures Pieces(env, t, allow, j).Some?
    decreases j, 1, t, 0
  {
    hide ItemPieces, EncodeItems, MemberPieces, EncodeFields;
    match t
    case Leaf(_) =>
    case Optional(of) =>
      if !j.Null? {
        InOrderAccepted(env, of, allow, j);
      }
    case Extension(of) => InOrderAccepted(env, of, allow, j);
    case Array(of) => ItemsAccepted(env, of, j, 0);
    case Named(name) =>
      if env[name].Struct? {
        MembersAccepted(env, env[name].fields, allow, j, 0);
      } else {
        var k := AlternativeOf(env[name].alternatives, j.items[0].s);
        InOrderAccepted(env, env[name].alternatives[k].of, allow, j.items[1]);
      }
  }

  lemma {:induction false} ItemsAccepted(env: Env, of: Type, j: Json, i: nat)
    requires DistinctStructs(env) && SmallArrays(j) && j.Arr? && i <= |j.items|
    requires forall k | 0 <= k < |j.items| :: InOrder(env, of, j.items[k])
    requires EncodeItems(env, of, j, i, false).Some?
    ensures ItemPieces(env, of, j, i).Some?
    decreases j, 0, |j.items| - i
  {
    hide InOrder, Encode, Pieces;
    if i < |j.items| {
      InOrderAccepted(env, of, false, j.items[i]);
      OrderedAgrees(env, of, false, j.items[i]);
      ItemsAccepted(env, of, j, i + 1);
    }
  }

  lemma {:induction false} MembersAccepted(env: Env, fields: seq<Field>, allow: bool, j: Json, i: nat)
    requires DistinctStructs(env) && SmallArrays(j) && DistinctNames(fields) && j.Obj? && Declared(fields, j, 0) && i <= |j.members|
    requires forall k | 0 <= k < |j.members| :: InOrder(env, fields[k].of, j.members[k].value)
    requires EncodeFields(env, fields, allow, j, i, false).Some?
    ensures MemberPieces(env, fields, allow, j, i).Some?
    decreases j, 0, |j.members| - i
  {
    hide InOrder, Encode, Pieces;
    if i < |fields| {
      MemberIsAt(fields, j, i);
      if i < |j.members| {
        var inner := allow && i == |fields| - 1;
        InOrderAccepted(env, fields[i].of, inner, j.members[i].value);
        OrderedAgrees(env, fields[i].of, inner, j.members[i].value);
        AfterLast(env, fields, allow, j, i + 1);
        MembersAccepted(env, fields, allow, j, i + 1);
      }
    }
  }

  lemma AfterLast(env: Env, fields: seq<Field>, allow: bool, j: Json, i: nat)
    requires j.Obj? && i <= |fields|
    ensures i == |fields| ==> EncodeFields(env, fields, allow, j, i, false).Some? && EncodeFields(env, fields, allow, j, i, true).Some?
  {
  }
}
