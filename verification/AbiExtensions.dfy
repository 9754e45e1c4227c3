/** For which types the two encoders agree on every value (libraries/abieos/src/abieos.hpp). The ABI itself
    does not require extensions to be the last fields of a struct (libraries/abieos/src/abi.cpp). */
module AbiExtensions {
  import opened Basics
  import opened AbiTypes
  import opened AbiEncode

  // ---------------------------------------------------------------------------------------------
  // Types that have values
  // ---------------------------------------------------------------------------------------------

  /** A value of the type can be written where nothing may be left out. */
  ghost predicate HasValue(env: Env, t: Type) {
    exists j :: SmallArrays(j) && Pieces(env, t, false, j).Some?
  }

  /** The type has a value if the named types in `names` have: an absent optional and an empty array always exist. */
  predicate KnownType(t: Type, names: set<string>) {
    match t
    case Extension(of) => KnownType(of, names)
    case Named(name) => name in names
    case _ => true
  }

  /** A struct needs values for all fields, a variant for one alternative that its name leads to. */
  predicate KnownDefinition(d: Definition, names: set<string>) {
    match d
    case Struct(fields) => forall i | 0 <= i < |fields| :: KnownType(fields[i].of, names)
    case Variant(alternatives) => exists k | 0 <= k < |alternatives| :: KnownAlternative(alternatives, k, names)
  }

  predicate KnownAlternative(alternatives: seq<Field>, k: nat, names: set<string>)
    requires k < |alternatives|
  {
    k < TWO32 && AlternativeOf(alternatives, alternatives[k].name) == k && KnownType(alternatives[k].of, names)
  }

  function NextKnown(env: Env, names: set<string>): set<string> {
    set name | name in env && KnownDefinition(env[name], names)
  }

  /** The named types that turn out to have values within so many rounds. */
  function Known(env: Env, rounds: nat): set<string> {
    if rounds == 0 then {} else NextKnown(env, Known(env, rounds - 1))
  }

  /** As many rounds as there are named types find all that have values; a struct that contains itself outside of
      optional and array types has none. */
  predicate Inhabited(env: Env, t: Type) {
    KnownType(t, Known(env, |env|))
  }

  lemma NextKnownGrows(env: Env, a: set<string>, b: set<string>)
    requires a <= b
    ensures NextKnown(env, a) <= NextKnown(env, b)
  {
    forall t: Type | KnownType(t, a) ensures KnownType(t, b) {
      KnownTypeGrows(t, a, b);
    }
    forall name | name in env && KnownDefinition(env[name], a) ensures KnownDefinition(env[name], b) {
      if env[name].Variant? {
        var k :| 0 <= k < |env[name].alternatives| && KnownAlternative(env[name].alternatives, k, a);
        assert KnownAlternative(env[name].alternatives, k, b);
      }
    }
  }

  lemma {:induction false} KnownTypeGrows(t: Type, a: set<string>, b: set<string>)
    requires a <= b && KnownType(t, a)
    ensures KnownType(t, b)
  {
    if t.Extension? {
      KnownTypeGrows(t.of, a, b);
    }
  }

  lemma {:induction false} KnownGrows(env: Env, rounds: nat)
    ensures Known(env, rounds) <= Known(env, rounds + 1) <= env.Keys
    decreases rounds
  {
    hide KnownDefinition;
    if rounds > 0 {
      KnownGrows(env, rounds - 1);
      NextKnownGrows(env, Known(env, rounds - 1), Known(env, rounds));
    }
  }

  /** Every round finds another name, or no later one does. */
  lemma {:induction false} FindsOrStops(env: Env, rounds: nat)
    ensures NextKnown(env, Known(env, rounds)) == Known(env, rounds) || |Known(env, rounds + 1)| > rounds
    decreases rounds
  {
    hide NextKnown;
    KnownGrows(env, rounds);
    var now, next := Known(env, rounds), Known(env, rounds + 1);
    if rounds > 0 {
      FindsOrStops(env, rounds - 1);
    }
    if now != next {
      ProperSize(now, next);
    }
  }

  lemma ProperSize<T>(a: set<T>, b: set<T>)
    requires a < b
    ensures |a| < |b|
  {
    var x :| x in b && x !in a;
    var rest := b - a;
    assert x in rest && b == a + rest && a !! rest;
  }

  lemma AllFound(env: Env)
    ensures NextKnown(env, Known(env, |env|)) == Known(env, |env|)
  {
    hide NextKnown;
    FindsOrStops(env, |env|);
    KnownGrows(env, |env|);
    SubsetSize(Known(env, |env| + 1), env.Keys);
  }

  // What is found has a value.

  lemma {:induction false} KnownTypeHasValue(env: Env, t: Type, names: set<string>)
    requires KnownType(t, names) && forall name | name in names :: HasValue(env, Named(name))
    ensures HasValue(env, t)
  {
    match t
    case Leaf(BoolCodec) => assert Pieces(env, t, false, Bool(true)).Some? && SmallArrays(Bool(true));
    case Leaf(TextCodec) => assert Pieces(env, t, false, Str([])).Some? && SmallArrays(Str([]));
    case Optional(_) => assert Pieces(env, t, false, Null).Some? && SmallArrays(Null);
    case Array(of) => assert ItemPieces(env, of, Arr([]), 0).Some? && Pieces(env, t, false, Arr([])).Some? && SmallArrays(Arr([]));
    case Extension(of) =>
      KnownTypeHasValue(env, of, names);
      var j := SomeValue(env, of);
      assert Pieces(env, t, false, j).Some?;
    case Named(_) =>
  }

  lemma {:induction false} FoundHasValue(env: Env, rounds: nat, name: string)
    requires name in Known(env, rounds)
    ensures HasValue(env, Named(name))
    decreases rounds
  {
    hide HasValue, Pieces;
    var names := Known(env, rounds - 1);
    forall n | n in names ensures HasValue(env, Named(n)) {
      FoundHasValue(env, rounds - 1, n);
    }
    match env[name]
    case Struct(fields) => StructHasValue(env, name, names);
    case Variant(alternatives) =>
      var k :| 0 <= k < |alternatives| && KnownAlternative(alternatives, k, names);
      VariantHasValue(env, name, k, names);
  }

  lemma StructHasValue(env: Env, name: string, names: set<string>)
    requires name in env && env[name].Struct? && KnownDefinition(env[name], names)
    requires forall n | n in names :: HasValue(env, Named(n))
    ensures HasValue(env, Named(name))
  {
    hide HasValue, MemberPieces;
    var fields := env[name].fields;
    forall i | 0 <= i < |fields| ensures HasValue(env, fields[i].of) {
      KnownTypeHasValue(env, fields[i].of, names);
    }
    var j := Shortest(env, fields, |fields|);
    ShortestAccepted(env, fields, false, |fields|, 0);
    WitnessesValue(env, Named(name), j);
  }

  lemma WitnessesValue(env: Env, t: Type, j: Json)
    requires SmallArrays(j) && Pieces(env, t, false, j).Some?
    ensures HasValue(env, t)
  {
  }

  lemma VariantHasValue(env: Env, name: string, k: nat, names: set<string>)
    requires name in env && env[name].Variant? && k < |env[name].alternatives|
    requires KnownAlternative(env[name].alternatives, k, names)
    requires forall n | n in names :: HasValue(env, Named(n))
    ensures HasValue(env, Named(name))
  {
    hide HasValue;
    var alternatives := env[name].alternatives;
    KnownTypeHasValue(env, alternatives[k].of, names);
    var j := Arr([Str(alternatives[k].name), SomeValue(env, alternatives[k].of)]);
    assert SmallArrays(j.items[0]);
    WitnessesValue(env, Named(name), j);
  }

  // What has a value is found.

  lemma {:induction false} ValueIsKnown(env: Env, t: Type, j: Json, names: set<string>)
    requires Pieces(env, t, false, j).Some? && NextKnown(env, names) <= names
    ensures KnownType(t, names)
    decreases j, 1, t
  {
    hide ItemPieces, MemberPieces;
    match t
    case Extension(of) => ValueIsKnown(env, of, j, names);
    case Named(name) =>
      if env[name].Struct? {
        MembersKnown(env, env[name].fields, j, 0, names);
      } else {
        var alternatives := env[name].alternatives;
        var k := AlternativeOf(alternatives, j.items[0].s);
        ValueIsKnown(env, alternatives[k].of, j.items[1], names);
        assert KnownAlternative(alternatives, k, names);
      }
      assert name in NextKnown(env, names);
    case _ =>
  }

  lemma {:induction false} MembersKnown(env: Env, fields: seq<Field>, j: Json, i: nat, names: set<string>)
    requires j.Obj? && i <= |j.members| && MemberPieces(env, fields, false, j, i).Some? && NextKnown(env, names) <= names
    ensures |j.members| == |fields| && forall k | i <= k < |fields| :: KnownType(fields[k].of, names)
    decreases j, 0, |j.members| - i
  {
    hide Pieces, NextKnown;
    if i < |j.members| {
      ValueIsKnown(env, fields[i].of, j.members[i].value, names);
      MembersKnown(env, fields, j, i + 1, names);
    }
  }

  /** The check finds exactly the types that have values. */
  lemma InhabitedIff(env: Env, t: Type)
    ensures Inhabited(env, t) <==> HasValue(env, t)
  {
    hide Known, KnownType, NextKnown, Pieces, HasValue;
    var names := Known(env, |env|);
    if Inhabited(env, t) {
      forall n | n in names ensures HasValue(env, Named(n)) {
        FoundHasValue(env, |env|, n);
      }
      KnownTypeHasValue(env, t, names);
    }
    if HasValue(env, t) {
      AllFound(env);
      ValueIsKnown(env, t, SomeValue(env, t), names);
    }
  }

  ghost function SomeValue(env: Env, t: Type): (j: Json)
    requires HasValue(env, t)
    ensures SmallArrays(j) && Pieces(env, t, false, j).Some?
  {
    var j :| SmallArrays(j) && Pieces(env, t, false, j).Some?;
    j
  }

  /** The object with the fields before the e-th. */
  ghost function Shortest(env: Env, fields: seq<Field>, e: nat): (j: Json)
    requires e <= |fields| && forall i | 0 <= i < e :: HasValue(env, fields[i].of)
    ensures j.Obj? && |j.members| == e
    ensures forall i | 0 <= i < e :: j.members[i] == Member(fields[i].name, SomeValue(env, fields[i].of))
    ensures SmallArrays(j)
  {
    Obj(seq(e, i requires 0 <= i < e => Member(fields[i].name, SomeValue(env, fields[i].of))))
  }

  lemma {:induction false} ShortestAccepted(env: Env, fields: seq<Field>, allow: bool, e: nat, i: nat)
    requires i <= e <= |fields| && forall k | 0 <= k < e :: HasValue(env, fields[k].of)
    requires if e == |fields| then !allow else allow && fields[e].of.Extension?
    ensures MemberPieces(env, fields, allow, Shortest(env, fields, e), i).Some?
    decreases e - i
  {
    hide Pieces, HasValue, SmallArrays;
    if i < e {
      assert !(allow && i == |fields| - 1);
      ShortestAccepted(env, fields, allow, e, i + 1);
    }
  }

  // ---------------------------------------------------------------------------------------------
  // The condition
  // ---------------------------------------------------------------------------------------------

  /** An object can end before the e-th field, an extension, although a field behind it is none. */
  predicate CanStopBadly(env: Env, fields: seq<Field>, e: nat) {
    && e < |fields| && fields[e].of.Extension? && !RestExtensions(fields, e)
    && forall i | 0 <= i < e :: Inhabited(env, fields[i].of)
  }

  ghost predicate NeverStopsBadly(env: Env) {
    forall name, e: nat | name in env && env[name].Struct? :: !CanStopBadly(env, env[name].fields, e)
  }

  /** Encoding by name gives the bytes of the encoding in token order. */
  ghost predicate SameBytes(env: Env, t: Type, j: Json)
    requires Pieces(env, t, true, j).Some?
  {
    var w := Pieces(env, t, true, j).value;
    Encode(env, t, true, j, false) == Some(Encoded(Flatten(w.pieces), w.skipped))
  }

  /** The encoders agree on every value that the one in token order accepts. */
  ghost predicate AgreeAlways(env: Env) {
    forall t, j | SmallArrays(j) && Pieces(env, t, true, j).Some? :: SameBytes(env, t, j)
  }

  // ---------------------------------------------------------------------------------------------
  // Without such an object the encoders agree
  // ---------------------------------------------------------------------------------------------

  lemma {:induction false} AlwaysStopsWell(env: Env, t: Type, allow: bool, j: Json)
    requires NeverStopsBadly(env) && SmallArrays(j) && Pieces(env, t, allow, j).Some?
    ensures StopsWell(env, t, j)
    decreases j, 1, t
  {
    hide NeverStopsBadly, ItemPieces, MemberPieces, ItemsStopWell, MembersStopWell;
    match t
    case Leaf(_) =>
    case Optional(of) =>
      if !j.Null? {
        AlwaysStopsWell(env, of, allow, j);
      }
    case Extension(of) => AlwaysStopsWell(env, of, allow, j);
    case Array(of) => ItemsAlways(env, of, j, 0);
    case Named(name) =>
      if env[name].Struct? {
        MembersAlways(env, env[name].fields, allow, j, 0);
        EndsWell(env, name, allow, j);
      } else {
        var alternatives := env[name].alternatives;
        AlwaysStopsWell(env, alternatives[AlternativeOf(alternatives, j.items[0].s)].of, allow, j.items[1]);
      }
  }

  lemma {:induction false} ItemsAlways(env: Env, of: Type, j: Json, i: nat)
    requires NeverStopsBadly(env) && SmallArrays(j) && j.Arr? && i <= |j.items| && ItemPieces(env, of, j, i).Some?
    ensures ItemsStopWell(env, of, j, i)
    decreases j, 0, |j.items| - i
  {
    hide NeverStopsBadly, Pieces, StopsWell;
    if i < |j.items| {
      AlwaysStopsWell(env, of, false, j.items[i]);
      ItemsAlways(env, of, j, i + 1);
    }
  }

  lemma {:induction false} MembersAlways(env: Env, fields: seq<Field>, allow: bool, j: Json, i: nat)
    requires NeverStopsBadly(env) && SmallArrays(j) && j.Obj? && i <= |j.members| && MemberPieces(env, fields, allow, j, i).Some?
    ensures MembersStopWell(env, fields, j, i)
    ensures |j.members| <= |fields|
    ensures |j.members| < |fields| ==> fields[|j.members|].of.Extension?
    ensures forall k | i <= k < |j.members| :: Pieces(env, fields[k].of, allow && k == |fields| - 1, j.members[k].value).Some?
    decreases j, 0, |j.members| - i
  {
    hide NeverStopsBadly, Pieces, StopsWell;
    if i < |j.members| {
      AlwaysStopsWell(env, fields[i].of, allow && i == |fields| - 1, j.members[i].value);
      MembersAlways(env, fields, allow, j, i + 1);
    }
  }

  lemma EndsWell(env: Env, name: string, allow: bool, j: Json)
    requires NeverStopsBadly(env) && SmallArrays(j) && j.Obj? && name in env && env[name].Struct?
    requires var fields := env[name].fields;
      && |j.members| <= |fields| && (|j.members| < |fields| ==> fields[|j.members|].of.Extension?)
      && forall k | 0 <= k < |j.members| :: Pieces(env, fields[k].of, allow && k == |fields| - 1, j.members[k].value).Some?
    ensures RestExtensions(env[name].fields, |j.members|)
  {
    hide Pieces, Inhabited, HasValue;
    var fields, n := env[name].fields, |j.members|;
    assert !CanStopBadly(env, env[name].fields, n);
    if !RestExtensions(fields, n) {
      forall i | 0 <= i < n ensures Inhabited(env, fields[i].of) {
        assert SmallArrays(j.members[i].value) && Pieces(env, fields[i].of, false, j.members[i].value).Some?;
        WitnessesValue(env, fields[i].of, j.members[i].value);
        InhabitedIff(env, fields[i].of);
      }
    }
  }

  // ---------------------------------------------------------------------------------------------
  // With one they do not
  // ---------------------------------------------------------------------------------------------

  lemma ShortestDiffers(env: Env, name: string, e: nat) returns (j: Json)
    requires DistinctStructs(env) && name in env && env[name].Struct? && CanStopBadly(env, env[name].fields, e)
    ensures SmallArrays(j) && Pieces(env, Named(name), true, j).Some? && Encode(env, Named(name), true, j, false) == None
  {
    hide DistinctStructs, MemberPieces, Encode, EncodeFields, Flatten, Inhabited, HasValue, SmallArrays;
    var fields := env[name].fields;
    forall i | 0 <= i < e ensures HasValue(env, fields[i].of) {
      InhabitedIff(env, fields[i].of);
    }
    ShortestAccepted(env, fields, true, e, 0);
    j := Shortest(env, fields, e);
    OrderedAgrees(env, Named(name), true, j);
  }

  /** The encoders agree on every value of every type, if and only if no struct has a required field behind an
      extension up to which an object can be written. */
  lemma AgreeIff(env: Env)
    requires DistinctStructs(env)
    ensures AgreeAlways(env) <==> NeverStopsBadly(env)
  {
    hide DistinctStructs, CanStopBadly, Pieces, Encode, Flatten, StopsWell;
    if NeverStopsBadly(env) {
      forall t, j | SmallArrays(j) && Pieces(env, t, true, j).Some? ensures SameBytes(env, t, j) {
        AlwaysStopsWell(env, t, true, j);
        OrderedAgrees(env, t, true, j);
      }
    } else {
      var name, e: nat :| name in env && env[name].Struct? && CanStopBadly(env, env[name].fields, e);
      var j := ShortestDiffers(env, name, e);
      assert !SameBytes(env, Named(name), j);
    }
  }

  /** Extensions come after all other fields. */
  predicate ExtensionsLast(fields: seq<Field>) {
    forall i, j | 0 <= i < j < |fields| && fields[i].of.Extension? :: fields[j].of.Extension?
  }

  /** When every field has a value, this means that extensions come last in every struct. */
  lemma ExtensionsLastIff(env: Env)
    requires DistinctStructs(env)
    requires forall name, i | name in env && env[name].Struct? && 0 <= i < |env[name].fields| :: Inhabited(env, env[name].fields[i].of)
    ensures AgreeAlways(env) <==> forall name | name in env && env[name].Struct? :: ExtensionsLast(env[name].fields)
  {
    hide AgreeAlways, Inhabited, DistinctStructs;
    AgreeIff(env);
    forall name | name in env && env[name].Struct?
      ensures ExtensionsLast(env[name].fields) <==> forall e: nat :: !CanStopBadly(env, env[name].fields, e)
    {
      LastOrStuck(env, env[name].fields);
    }
  }

  lemma LastOrStuck(env: Env, fields: seq<Field>)
    requires forall i | 0 <= i < |fields| :: Inhabited(env, fields[i].of)
    ensures ExtensionsLast(fields) <==> forall e: nat :: !CanStopBadly(env, fields, e)
  {
    hide Inhabited;
    if !ExtensionsLast(fields) {
      var e, k :| 0 <= e < k < |fields| && fields[e].of.Extension? && !fields[k].of.Extension?;
      assert CanStopBadly(env, fields, e);
    }
  }
}
