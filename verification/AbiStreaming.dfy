/** The streaming encoder: an explicit stack over JSON tokens, sizes collected on the side
    (libraries/abieos/src/abieos.hpp, json_to_bin over json_to_bin_state). */
module AbiStreaming {
  import opened Basics
  import opened AbiTypes
  import opened AbiEncode
  import opened AbiPieces
  import opened AbiTokens

  datatype Entry = Entry(t: Type, allow: bool, position: int, sizeIndex: nat, variantIndex: nat)

  predicate Fine(env: Env, e: Entry) {
    match e.t
    case Array(_) => e.position >= -1
    case Named(name) =>
      name in env && (match env[name]
                      case Struct(fields) => -1 <= e.position < |fields|
                      case Variant(alternatives) => e.position >= -1 && (e.position == 0 ==> e.variantIndex < |alternatives|))
    case _ => false
  }

  predicate AllFine(env: Env, stack: seq<Entry>) {
    forall i | 0 <= i < |stack| :: Fine(env, stack[i])
  }

  // ---------------------------------------------------------------------------------------------
  // What is left to do
  // ---------------------------------------------------------------------------------------------

  /** What completing the top entry reads. */
  function Finish(env: Env, e: Entry, tokens: seq<Token>, skipped: bool, depth: nat): Option<Parsed>
    requires Fine(env, e)
  {
    if depth > MAX_STACK_SIZE then None else
    match e.t
    case Array(of) => ReadItems(env, of, tokens, skipped, depth)
    case Named(name) =>
      match env[name]
      case Struct(fields) => ReadMembers(env, fields, e.allow, e.position, tokens, skipped, depth)
      case Variant(alternatives) => ReadVariant(env, alternatives, e.allow, e.position, e.variantIndex, tokens, skipped, depth)
  }

  /** Completing an array fills in its size. */
  function Close(e: Entry, p: seq<Piece>, r: Parsed): seq<Piece>
    requires e.position >= -1
  {
    if e.t.Array? then SetSize(p + r.pieces, e.sizeIndex, e.position + 1 + r.count) else p + r.pieces
  }

  /** The final output of a state: the entries are completed from the top. */
  function Resume(env: Env, stack: seq<Entry>, p: seq<Piece>, tokens: seq<Token>, skipped: bool): Option<Parsed>
    requires AllFine(env, stack)
    decreases |stack|
  {
    if |stack| == 0 then Some(Parsed(p, 0, tokens, skipped)) else
      var n := |stack| - 1;
      match Finish(env, stack[n], tokens, skipped, |stack|)
      case None => None
      case Some(r) => Resume(env, stack[..n], Close(stack[n], p, r), r.rest, r.skipped)
  }

  function Continue(env: Env, stack: seq<Entry>, p: seq<Piece>, o: Option<Parsed>): Option<Parsed>
    requires AllFine(env, stack)
  {
    match o
    case None => None
    case Some(r) => Resume(env, stack, p + r.pieces, r.rest, r.skipped)
  }

  lemma ResumePush(env: Env, stack: seq<Entry>, e: Entry, p: seq<Piece>, tokens: seq<Token>, skipped: bool)
    requires AllFine(env, stack) && Fine(env, e)
    ensures AllFine(env, stack + [e])
    ensures Resume(env, stack + [e], p, tokens, skipped)
         == match Finish(env, e, tokens, skipped, |stack| + 1)
            case None => None
            case Some(r) => Resume(env, stack, Close(e, p, r), r.rest, r.skipped)
  {
    hide Fine, Finish, Close;
    assert (stack + [e])[..|stack|] == stack;
  }

  /** An array whose size is not known yet. */
  lemma ResumeArray(env: Env, stack: seq<Entry>, of: Type, p: seq<Piece>, tokens: seq<Token>, skipped: bool)
    requires AllFine(env, stack) && |tokens| > 0 && tokens[0].TStartArray?
    ensures var e := Entry(Array(of), false, -1, |Marks(p)|, 0);
      && AllFine(env, stack + [e])
      && Resume(env, stack + [e], p + [Size(0)], tokens[1..], skipped)
         == Continue(env, stack, p, ReadValue(env, Array(of), false, tokens, skipped, |stack|))
  {
    hide ReadItems, Resume, SetSize, AllFine;
    var e := Entry(Array(of), false, -1, |Marks(p)|, 0);
    ResumePush(env, stack, e, p + [Size(0)], tokens[1..], skipped);
    var r := ReadItems(env, of, tokens[1..], skipped, |stack| + 1);
    LimitStops(env, of, tokens[1..], skipped, |stack| + 1);
    if r.Some? {
      SetSizeFresh(p, r.value.pieces, 0, r.value.count);
      assert p + ([Size(r.value.count)] + r.value.pieces) == p + [Size(r.value.count)] + r.value.pieces;
    }
  }

  lemma LimitStops(env: Env, of: Type, tokens: seq<Token>, skipped: bool, depth: nat)
    ensures depth > MAX_STACK_SIZE ==> ReadItems(env, of, tokens, skipped, depth) == None
  {
  }

  lemma PiecesJoin(p: seq<Piece>, a: seq<Piece>, b: seq<Piece>)
    ensures p + (a + b) == (p + a) + b
  {
  }

  // ---------------------------------------------------------------------------------------------
  // The machine
  // ---------------------------------------------------------------------------------------------

  class JsonToBin {
    const env: Env
    var tokens: seq<Token>
    var out: seq<Byte>
    var inserts: seq<Insertion>
    var stack: seq<Entry>
    var skipped: bool

    /** The output with its sizes in place. */
    ghost var pieces: seq<Piece>

    ghost predicate Valid()
      reads this
    {
      && out == Raw(pieces) && inserts == Marks(pieces) && AllFine(env, stack)
      && forall i | 0 <= i < |stack| && stack[i].t.Array? :: stack[i].sizeIndex < |inserts|
    }

    ghost function Outcome(): Option<Parsed>
      reads this
      requires AllFine(env, stack)
    {
      Resume(env, stack, pieces, tokens, skipped)
    }

    constructor (env: Env, tokens: seq<Token>)
      ensures Valid() && this.env == env && this.tokens == tokens && stack == [] && !skipped && pieces == []
    {
      this.env, this.tokens := env, tokens;
      out, inserts, stack, skipped, pieces := [], [], [], false, [];
    }

    method Write(b: seq<Byte>)
      requires Valid()
      modifies this`out, this`pieces
      ensures Valid() && pieces == old(pieces) + [Data(b)]
    {
      hide Raw, Marks, AllFine;
      OneMore(pieces, Data(b));
      out := out + b;
      pieces := pieces + [Data(b)];
    }

    /** The i-th entry of the stack moves on. */
    method Advance(variantIndex: nat)
      requires Valid() && |stack| > 0
      requires Fine(env, stack[|stack| - 1].(position := stack[|stack| - 1].position + 1, variantIndex := variantIndex))
      modifies this`stack
      ensures Valid()
      ensures var n := |old(stack)| - 1;
        stack == old(stack)[..n] + [old(stack)[n].(position := old(stack)[n].position + 1, variantIndex := variantIndex)]
    {
      hide Raw, Marks, Fine;
      var n := |stack| - 1;
      stack := stack[..n] + [stack[n].(position := stack[n].position + 1, variantIndex := variantIndex)];
    }

    // -------------------------------------------------------------------------------------------
    // Starting a value
    // -------------------------------------------------------------------------------------------

    /** pseudo_array at its start: the size is reserved. */
    method StartArray(of: Type)
      requires Valid() && |tokens| > 0 && tokens[0].TStartArray?
      modifies this
      ensures Valid() && tokens == old(tokens)[1..]
      ensures Outcome() == Continue(env, old(stack), old(pieces), ReadValue(env, Array(of), false, old(tokens), old(skipped), |old(stack)|))
    {
      hide Raw, Marks, Resume, ReadValue, Continue;
      ResumeArray(env, stack, of, pieces, tokens, skipped);
      OneMore(pieces, Size(0));
      tokens := tokens[1..];
      stack := stack + [Entry(Array(of), false, -1, |inserts|, 0)];
      inserts := inserts + [Insertion(|out|, 0)];
      pieces := pieces + [Size(0)];
    }

    /** pseudo_variant at its start. */
    method StartVariant(name: string, allow: bool)
      requires Valid() && |tokens| > 0 && tokens[0].TStartArray? && name in env && env[name].Variant?
      modifies this
      ensures Valid() && tokens == old(tokens)[1..]
      ensures Outcome() == Continue(env, old(stack), old(pieces), ReadValue(env, Named(name), allow, old(tokens), old(skipped), |old(stack)|))
    {
      hide Raw, Marks, Resume, ReadVariant;
      var e := Entry(Named(name), allow, -1, 0, 0);
      ResumePush(env, stack, e, pieces, tokens[1..], skipped);
      VariantLimit(env, env[name].alternatives, allow, tokens[1..], skipped, |stack| + 1);
      tokens := tokens[1..];
      stack := stack + [e];
    }

    /** The start of a value: scalars are written, containers are pushed. */
    method StartValue(t: Type, allow: bool) returns (ok: bool)
      requires Valid()
      modifies this
      ensures ok ==> Valid() && |tokens| < |old(tokens)|
      ensures var r := ReadValue(env, t, allow, old(tokens), old(skipped), |old(stack)|);
        && (!ok ==> r == None)
        && (ok ==> Outcome() == Continue(env, old(stack), old(pieces), r))
      decreases |tokens|, 2, t
    {
      if |tokens| == 0 {
        return false;
      }
      match t
      case Leaf(c) =>
        var b := LeafToken(c, tokens[0]);
        if b.None? {
          return false;
        }
        tokens := tokens[1..];
        Write(b.value);
        ok := true;
      case Optional(of) =>
        if tokens[0].TNull? {
          tokens := tokens[1..];
          Write([0]);
          ok := true;
        } else {
          ghost var p := pieces;
          Write([1]);
          ok := StartValue(of, allow);
          ContinueBefore(env, old(stack), p, Data([1]), ReadValue(env, of, allow, old(tokens), old(skipped), |old(stack)|));
        }
      case Extension(of) =>
        ok := StartValue(of, allow);
      case Array(of) =>
        if !tokens[0].TStartArray? {
          return false;
        }
        StartArray(of);
        ok := true;
      case Named(name) =>
        if name !in env {
          return false;
        }
        if env[name].Struct? {
          if !tokens[0].TStartObject? {
            return false;
          }
          ok := StartObject(name, allow);
        } else {
          if !tokens[0].TStartArray? {
            return false;
          }
          StartVariant(name, allow);
          ok := true;
        }
    }

    /** pseudo_object at its start goes on with the first token of the object. */
    method StartObject(name: string, allow: bool) returns (ok: bool)
      requires Valid() && |tokens| > 0 && tokens[0].TStartObject? && name in env && env[name].Struct?
      modifies this
      ensures ok ==> Valid() && |tokens| < |old(tokens)|
      ensures var r := ReadValue(env, Named(name), allow, old(tokens), old(skipped), |old(stack)|);
        && (!ok ==> r == None)
        && (ok ==> Outcome() == Continue(env, old(stack), old(pieces), r))
      decreases |tokens|, 1
    {
      tokens := tokens[1..];
      stack := stack + [Entry(Named(name), allow, -1, 0, 0)];
      ok := ContinueObject();
    }

    /** pseudo_object with its entry on top: the end, a key, or a value. */
    method ContinueObject() returns (ok: bool)
      requires Valid() && |stack| > 0 && IsStruct(env, stack[|stack| - 1])
      modifies this
      ensures ok ==> Valid() && |tokens| < |old(tokens)|
      ensures var n := |old(stack)| - 1;
        var e := old(stack)[n];
        var r := ReadMembers(env, env[e.t.name].fields, e.allow, e.position, old(tokens), old(skipped), n + 1);
        && (!ok ==> r == None)
        && (ok ==> Outcome() == Continue(env, old(stack)[..n], old(pieces), r))
      decreases |tokens|, 4
    {
      hide Raw, Marks, Resume;
      var n := |stack| - 1;
      var e := stack[n];
      var fields := env[e.t.name].fields;
      if |tokens| == 0 {
        return false;
      }
      if tokens[0].TEndObject? {
        if e.position + 1 != |fields| {
          if !fields[e.position + 1].of.Extension? || !e.allow {
            return false;
          }
          skipped := true;
        }
        EmptyTail(pieces);
        tokens := tokens[1..];
        stack := stack[..n];
        ok := true;
      } else if tokens[0].TKey? {
        if e.position + 1 >= |fields| || skipped || tokens[0].s != fields[e.position + 1].name {
          return false;
        }
        ResumeObject(env, stack[..n], e.(position := e.position + 1, variantIndex := 0), pieces, tokens[1..], skipped);
        tokens := tokens[1..];
        Advance(0);
        ok := true;
      } else {
        if e.position < 0 {
          return false;
        }
        ok := ContinueMember();
      }
    }

    /** The value of the member whose key was read. */
    method ContinueMember() returns (ok: bool)
      requires Valid() && |stack| > 0 && IsStruct(env, stack[|stack| - 1]) && stack[|stack| - 1].position >= 0
      requires |tokens| > 0 && !tokens[0].TEndObject? && !tokens[0].TKey?
      modifies this
      ensures ok ==> Valid() && |tokens| < |old(tokens)|
      ensures var n := |old(stack)| - 1;
        var e := old(stack)[n];
        var r := ReadMembers(env, env[e.t.name].fields, e.allow, e.position, old(tokens), old(skipped), n + 1);
        && (!ok ==> r == None)
        && (ok ==> Outcome() == Continue(env, old(stack)[..n], old(pieces), r))
      decreases |tokens|, 3
    {
      hide Raw, Marks, Resume, ReadValue;
      ghost var s, p, n := stack, pieces, |stack| - 1;
      var e := stack[|stack| - 1];
      var fields := env[e.t.name].fields;
      ghost var v := ReadValue(env, fields[e.position].of, e.allow && e.position == |fields| - 1, tokens, skipped, |stack|);
      ok := StartValue(fields[e.position].of, e.allow && e.position == |fields| - 1);
      if v.Some? {
        assert s == s[..n] + [e];
        ResumeObject(env, s[..n], e, p + v.value.pieces, v.value.rest, v.value.skipped);
        ContinueMore(env, s[..n], p, v.value.pieces,
                     ReadMembers(env, fields, e.allow, e.position, v.value.rest, v.value.skipped, n + 1));
      }
    }

    /** pseudo_array with its entry on top: the end fills in the size. */
    method ContinueArray() returns (ok: bool)
      requires Valid() && |stack| > 0 && stack[|stack| - 1].t.Array? && |stack| <= MAX_STACK_SIZE
      modifies this
      ensures ok ==> Valid() && |tokens| < |old(tokens)|
      ensures !ok ==> old(Outcome()) == None
      ensures ok ==> Outcome() == old(Outcome())
      decreases |tokens|, 4
    {
      hide Raw, Marks, Resume, SetSize, ReadValue;
      ghost var s, p := stack, pieces;
      var n := |stack| - 1;
      var e := stack[n];
      assert s == s[..n] + [e];
      ResumePush(env, s[..n], e, p, tokens, skipped);
      if |tokens| == 0 {
        return false;
      }
      if tokens[0].TEndArray? {
        EmptyTail(pieces);
        SetSizeMarks(pieces, e.sizeIndex, e.position + 1);
        tokens := tokens[1..];
        inserts := inserts[e.sizeIndex := Insertion(inserts[e.sizeIndex].position, e.position + 1)];
        pieces := SetSize(pieces, e.sizeIndex, e.position + 1);
        stack := stack[..n];
        ok := true;
      } else {
        ghost var v := ReadValue(env, e.t.of, false, tokens, skipped, |stack|);
        ghost var e' := e.(position := e.position + 1, variantIndex := 0);
        if v.Some? {
          ResumePush(env, s[..n], e', p + v.value.pieces, v.value.rest, v.value.skipped);
          CloseMore(e, p, v.value.pieces, ReadItems(env, e.t.of, v.value.rest, v.value.skipped, n + 1));
        }
        Advance(0);
        ok := StartValue(e.t.of, false);
      }
    }

    /** pseudo_variant with its entry on top: the name, the value, the end. */
    method ContinueVariant() returns (ok: bool)
      requires Valid() && |stack| > 0 && IsVariant(env, stack[|stack| - 1]) && |stack| <= MAX_STACK_SIZE
      modifies this
      ensures ok ==> Valid() && |tokens| < |old(tokens)|
      ensures !ok ==> old(Outcome()) == None
      ensures ok ==> Outcome() == old(Outcome())
      decreases |tokens|, 4
    {
      hide Raw, Marks, Resume, ReadValue;
      var n := |stack| - 1;
      var e := stack[n];
      var alternatives := env[e.t.name].alternatives;
      assert stack == stack[..n] + [e];
      ResumeVariant(env, stack[..n], e, pieces, tokens, skipped);
      if |tokens| == 0 {
        return false;
      }
      if tokens[0].TEndArray? {
        if e.position + 1 != 2 {
          return false;
        }
        EmptyTail(pieces);
        tokens := tokens[1..];
        stack := stack[..n];
        ok := true;
      } else if e.position + 1 == 0 {
        if !tokens[0].TString? {
          return false;
        }
        var k := AlternativeOf(alternatives, tokens[0].s);
        if k == |alternatives| || k >= TWO32 {
          return false;
        }
        ContinueName(k);
        ok := true;
      } else if e.position + 1 == 1 {
        ok := ContinueAlternative();
      } else {
        return false;
      }
    }

    /** The index of the alternative is written. */
    method ContinueName(k: nat)
      requires Valid() && |stack| > 0 && IsVariant(env, stack[|stack| - 1]) && |stack| <= MAX_STACK_SIZE
      requires stack[|stack| - 1].position == -1 && |tokens| > 0 && tokens[0].TString?
      requires k == AlternativeOf(env[stack[|stack| - 1].t.name].alternatives, tokens[0].s)
      requires k < |env[stack[|stack| - 1].t.name].alternatives| && k < TWO32
      modifies this
      ensures Valid() && |tokens| < |old(tokens)|
      ensures var n := |old(stack)| - 1;
        var e := old(stack)[n];
        Outcome() == Continue(env, old(stack)[..n], old(pieces),
                              ReadVariant(env, env[e.t.name].alternatives, e.allow, -1, e.variantIndex, old(tokens), old(skipped), n + 1))
    {
      hide Raw, Marks, Resume, ReadValue;
      var n := |stack| - 1;
      ghost var s, e, p := stack, stack[n], pieces;
      ghost var more := ReadVariant(env, env[e.t.name].alternatives, e.allow, 0, k, tokens[1..], skipped, n + 1);
      ResumeVariant(env, s[..n], e.(position := 0, variantIndex := k), p + [Data(Varuint(k))], tokens[1..], skipped);
      ContinueMore(env, s[..n], p, [Data(Varuint(k))], more);
      Advance(k);
      Write(Varuint(k));
      tokens := tokens[1..];
    }

    /** The value of the alternative. */
    method ContinueAlternative() returns (ok: bool)
      requires Valid() && |stack| > 0 && IsVariant(env, stack[|stack| - 1]) && |stack| <= MAX_STACK_SIZE
      requires stack[|stack| - 1].position == 0 && |tokens| > 0 && !tokens[0].TEndArray?
      modifies this
      ensures ok ==> Valid() && |tokens| < |old(tokens)|
      ensures var n := |old(stack)| - 1;
        var e := old(stack)[n];
        var r := ReadVariant(env, env[e.t.name].alternatives, e.allow, 0, e.variantIndex, old(tokens), old(skipped), n + 1);
        && (!ok ==> r == None)
        && (ok ==> Outcome() == Continue(env, old(stack)[..n], old(pieces), r))
      decreases |tokens|, 3
    {
      hide Raw, Marks, Resume, ReadValue;
      var n := |stack| - 1;
      var e := stack[n];
      ghost var s, p := stack, pieces;
      var of := env[e.t.name].alternatives[e.variantIndex].of;
      ghost var v := ReadValue(env, of, e.allow, tokens, skipped, |stack|);
      Advance(e.variantIndex);
      ghost var e' := stack[n];
      ok := StartValue(of, e.allow);
      if v.Some? {
        ResumeVariant(env, s[..n], e', p + v.value.pieces, v.value.rest, v.value.skipped);
        ContinueMore(env, s[..n], p, v.value.pieces,
                     ReadVariant(env, env[e.t.name].alternatives, e.allow, 1, e.variantIndex, v.value.rest, v.value.skipped, n + 1));
      }
    }

    // -------------------------------------------------------------------------------------------
    // The driver
    // -------------------------------------------------------------------------------------------

    /** One iteration of the driver's loop. */
    method Step() returns (ok: bool)
      requires Valid() && |stack| > 0
      modifies this
      ensures ok ==> Valid() && |tokens| < |old(tokens)|
      ensures !ok ==> old(Outcome()) == None
      ensures ok ==> Outcome() == old(Outcome())
    {
      var n := |stack| - 1;
      var e := stack[n];
      assert stack == stack[..n] + [e];
      ResumePush(env, stack[..n], e, pieces, tokens, skipped);
      assert Fine(env, e);
      hide Raw, Marks, Resume;
      if |stack| > MAX_STACK_SIZE {
        return false;
      }
      if e.t.Array? {
        ok := ContinueArray();
      } else if env[e.t.name].Struct? {
        ResumeObject(env, stack[..n], e, pieces, tokens, skipped);
        ok := ContinueObject();
      } else {
        ok := ContinueVariant();
      }
    }
  }

  /** json_to_bin over the tokens of a text: the loop, the check that nothing is left, and the sizes. */
  method Run(env: Env, t: Type, tokens: seq<Token>) returns (r: Option<seq<Byte>>)
    ensures r == match ReadValue(env, t, true, tokens, false, 0)
                 case None => None
                 case Some(x) => if |x.rest| == 0 then Some(Flatten(x.pieces)) else None
  {
    hide ReadValue, Flatten, Resume, Raw, Marks;
    ghost var x := ReadValue(env, t, true, tokens, false, 0);
    var m := new JsonToBin(env, tokens);
    var ok := m.StartValue(t, true);
    while ok && |m.stack| > 0
      invariant ok ==> m.Valid() && m.Outcome() == Continue(env, [], [], x)
      invariant !ok ==> x == None
      decreases ok, |m.tokens|
    {
      ContinueNone(env, x);
      ok := m.Step();
    }
    if !ok {
      return None;
    }
    ResumeDone(env, m.pieces, m.tokens, m.skipped, x);
    if |m.tokens| != 0 {
      return None;
    }
    SplicedIsFlat(m.pieces);
    var bin := Splice(m.out, m.inserts);
    r := Some(bin);
  }

  lemma ContinueNone(env: Env, x: Option<Parsed>)
    ensures Continue(env, [], [], x) == None ==> x == None
  {
  }

  lemma ResumeDone(env: Env, p: seq<Piece>, tokens: seq<Token>, skipped: bool, x: Option<Parsed>)
    requires Resume(env, [], p, tokens, skipped) == Continue(env, [], [], x)
    ensures x.Some? && x.value.pieces == p && x.value.rest == tokens && x.value.skipped == skipped
  {
    if x.Some? {
      assert [] + x.value.pieces == x.value.pieces;
    }
  }

  /** A variant entry on top is completed by reading the rest of the pair. */
  lemma ResumeVariant(env: Env, stack: seq<Entry>, e: Entry, p: seq<Piece>, tokens: seq<Token>, skipped: bool)
    requires AllFine(env, stack) && IsVariant(env, e)
    ensures AllFine(env, stack + [e])
    ensures Resume(env, stack + [e], p, tokens, skipped)
         == if |stack| + 1 > MAX_STACK_SIZE then None
            else Continue(env, stack, p, ReadVariant(env, env[e.t.name].alternatives, e.allow, e.position, e.variantIndex, tokens, skipped, |stack| + 1))
  {
    hide Resume, ReadVariant;
    ResumePush(env, stack, e, p, tokens, skipped);
  }

  lemma EmptyTail(p: seq<Piece>)
    ensures p + [] == p
  {
  }

  /** A struct entry on top is completed by reading its members. */
  lemma ResumeObject(env: Env, stack: seq<Entry>, e: Entry, p: seq<Piece>, tokens: seq<Token>, skipped: bool)
    requires AllFine(env, stack) && IsStruct(env, e)
    ensures AllFine(env, stack + [e])
    ensures Resume(env, stack + [e], p, tokens, skipped)
         == if |stack| + 1 > MAX_STACK_SIZE then None
            else Continue(env, stack, p, ReadMembers(env, env[e.t.name].fields, e.allow, e.position, tokens, skipped, |stack| + 1))
  {
    hide Resume, ReadMembers;
    ResumePush(env, stack, e, p, tokens, skipped);
  }

  lemma ContinueMore(env: Env, stack: seq<Entry>, p: seq<Piece>, q: seq<Piece>, o: Option<Parsed>)
    requires AllFine(env, stack)
    ensures Continue(env, stack, p + q, o) == Continue(env, stack, p, Before(q, o))
  {
    if o.Some? {
      PiecesJoin(p, q, o.value.pieces);
    }
  }

  lemma CloseMore(e: Entry, p: seq<Piece>, q: seq<Piece>, o: Option<Parsed>)
    requires e.t.Array? && e.position >= -1
    ensures o.Some? ==>
      Close(e.(position := e.position + 1, variantIndex := 0), p + q, o.value)
        == Close(e, p, Parsed(q + o.value.pieces, o.value.count + 1, o.value.rest, o.value.skipped))
  {
    if o.Some? {
      PiecesJoin(p, q, o.value.pieces);
    }
  }

  predicate IsStruct(env: Env, e: Entry) {
    e.t.Named? && e.t.name in env && env[e.t.name].Struct? && -1 <= e.position < |env[e.t.name].fields|
  }

  predicate IsVariant(env: Env, e: Entry) {
    e.t.Named? && e.t.name in env && env[e.t.name].Variant?
    && e.position >= -1 && (e.position == 0 ==> e.variantIndex < |env[e.t.name].alternatives|)
  }

  lemma VariantLimit(env: Env, alternatives: seq<Field>, allow: bool, tokens: seq<Token>, skipped: bool, depth: nat)
    ensures depth > MAX_STACK_SIZE ==> ReadVariant(env, alternatives, allow, -1, 0, tokens, skipped, depth) == None
  {
  }

  lemma ContinueBefore(env: Env, stack: seq<Entry>, p: seq<Piece>, x: Piece, o: Option<Parsed>)
    requires AllFine(env, stack)
    ensures Continue(env, stack, p + [x], o) == Continue(env, stack, p, Before([x], o))
  {
    if o.Some? {
      PiecesJoin(p, [x], o.value.pieces);
    }
  }
}
