/** The encoder over a JSON tree: an explicit stack of positions in the tree
    (libraries/abieos/src/abieos.hpp, json_to_bin over jvalue_to_bin_state). */
module AbiTree {
  import opened Basics
  import opened AbiTypes
  import opened AbiEncode

  datatype Entry = Entry(t: Type, allow: bool, value: Json, position: int)

  predicate Fine(env: Env, e: Entry) {
    match e.t
    case Array(_) => e.value.Arr? && -1 <= e.position < |e.value.items| < TWO32
    case Named(name) =>
      name in env && (match env[name]
                      case Struct(fields) => e.value.Obj? && -1 <= e.position < |fields|
                      case Variant(alternatives) => e.value.Arr? && |e.value.items| == 2 && e.value.items[0].Str? && 0 <= e.position <= 1)
    case _ => false
  }

  predicate AllFine(env: Env, stack: seq<Entry>) {
    forall i | 0 <= i < |stack| :: Fine(env, stack[i])
  }

  // ---------------------------------------------------------------------------------------------
  // What is left to do
  // ---------------------------------------------------------------------------------------------

  /** What completing the top entry writes. */
  function Finish(env: Env, e: Entry, skipped: bool): Option<Encoded>
    requires Fine(env, e)
  {
    match e.t
    case Array(of) => EncodeItems(env, of, e.value, e.position + 1, skipped)
    case Named(name) =>
      match env[name]
      case Struct(fields) => EncodeFields(env, fields, e.allow, e.value, e.position + 1, skipped)
      case Variant(alternatives) =>
        if e.position == 0 then EncodeAlternative(env, alternatives, e.allow, e.value, skipped) else Some(Encoded([], skipped))
  }

  /** The final output of a state: the entries are completed from the top. */
  function Resume(env: Env, stack: seq<Entry>, out: seq<Byte>, skipped: bool): Option<Encoded>
    requires AllFine(env, stack)
    decreases |stack|
  {
    if |stack| == 0 then Some(Encoded(out, skipped)) else
      var n := |stack| - 1;
      Continue(env, stack[..n], out, Finish(env, stack[n], skipped))
  }

  function Continue(env: Env, stack: seq<Entry>, out: seq<Byte>, o: Option<Encoded>): Option<Encoded>
    requires AllFine(env, stack)
    decreases |stack| + 1, 0
  {
    match o
    case None => None
    case Some(e) => Resume(env, stack, out + e.bytes, e.skipped)
  }

  lemma ResumePush(env: Env, stack: seq<Entry>, e: Entry, out: seq<Byte>, skipped: bool)
    requires AllFine(env, stack) && Fine(env, e)
    ensures AllFine(env, stack + [e])
    ensures Resume(env, stack + [e], out, skipped) == Continue(env, stack, out, Finish(env, e, skipped))
  {
    hide Fine, Finish;
    assert (stack + [e])[..|stack|] == stack;
  }

  lemma ContinueMore(env: Env, stack: seq<Entry>, out: seq<Byte>, b: seq<Byte>, o: Option<Encoded>)
    requires AllFine(env, stack)
    ensures Continue(env, stack, out + b, o) == Continue(env, stack, out, Prefixed(b, o))
  {
    if o.Some? {
      assert out + (b + o.value.bytes) == (out + b) + o.value.bytes;
    }
  }

  // ---------------------------------------------------------------------------------------------
  // How many steps are left
  // ---------------------------------------------------------------------------------------------

  /** A bound on the steps after a value has been started. */
  function Work(env: Env, t: Type, v: Json): nat
    decreases v, 1, t, 0
  {
    match t
    case Leaf(_) => 0
    case Optional(of) => Work(env, of, v)
    case Extension(of) => Work(env, of, v)
    case Array(of) => if v.Arr? then ItemWork(env, of, v, 0) else 0
    case Named(name) =>
      if name !in env then 0 else
        match env[name]
        case Struct(fields) => if v.Obj? then FieldWork(env, fields, v, 0) else 0
        case Variant(alternatives) => PairWork(env, alternatives, v)
  }

  function ItemWork(env: Env, of: Type, v: Json, i: nat): nat
    requires v.Arr? && i <= |v.items|
    decreases v, 0, |v.items| - i
  {
    1 + if i == |v.items| then 0 else Work(env, of, v.items[i]) + ItemWork(env, of, v, i + 1)
  }

  function FieldWork(env: Env, fields: seq<Field>, v: Json, i: nat): nat
    requires v.Obj? && i <= |fields|
    decreases v, 0, |fields| - i
  {
    1 + if i == |fields| then 0 else
      var k := MemberOf(v, fields[i].name, |v.members|);
      (if k < 0 then 0 else Work(env, fields[i].of, v.members[k].value)) + FieldWork(env, fields, v, i + 1)
  }

  function PairWork(env: Env, alternatives: seq<Field>, v: Json): nat
    decreases v, 0, 0
  {
    2 + if !v.Arr? || |v.items| != 2 || !v.items[0].Str? then 0 else
      var k := AlternativeOf(alternatives, v.items[0].s);
      if k == |alternatives| then 0 else Work(env, alternatives[k].of, v.items[1])
  }

  function EntryWork(env: Env, e: Entry): nat
    requires Fine(env, e)
  {
    match e.t
    case Array(of) => ItemWork(env, of, e.value, e.position + 1)
    case Named(name) =>
      match env[name]
      case Struct(fields) => FieldWork(env, fields, e.value, e.position + 1)
      case Variant(alternatives) => if e.position == 0 then PairWork(env, alternatives, e.value) else 1
  }

  function StackWork(env: Env, stack: seq<Entry>): nat
    requires AllFine(env, stack)
  {
    if |stack| == 0 then 0 else StackWork(env, stack[..|stack| - 1]) + EntryWork(env, stack[|stack| - 1])
  }

  lemma WorkPush(env: Env, stack: seq<Entry>, e: Entry)
    requires AllFine(env, stack) && Fine(env, e)
    ensures AllFine(env, stack + [e]) && StackWork(env, stack + [e]) == StackWork(env, stack) + EntryWork(env, e)
  {
    hide Fine, EntryWork;
    assert (stack + [e])[..|stack|] == stack;
  }

  // ---------------------------------------------------------------------------------------------
  // The machine
  // ---------------------------------------------------------------------------------------------

  class JvalueToBin {
    const env: Env
    var out: seq<Byte>
    var stack: seq<Entry>
    var skipped: bool

    ghost predicate Valid()
      reads this
    {
      AllFine(env, stack)
    }

    ghost function Outcome(): Option<Encoded>
      reads this
      requires Valid()
    {
      Resume(env, stack, out, skipped)
    }

    ghost function Left(): nat
      reads this
      requires Valid()
    {
      StackWork(env, stack)
    }

    constructor (env: Env)
      ensures Valid() && this.env == env && stack == [] && !skipped && out == []
    {
      this.env := env;
      out, stack, skipped := [], [], false;
    }

    /** The start of a value; an object or array goes on with its first child. */
    method StartValue(t: Type, allow: bool, v: Json) returns (ok: bool)
      requires Valid()
      modifies this
      ensures ok ==> Valid() && Left() <= old(Left()) + Work(env, t, v)
      ensures var r := Encode(env, t, allow, v, old(skipped));
        && (!ok ==> r == None)
        && (ok ==> Outcome() == Continue(env, old(stack), old(out), r))
      decreases v, 1, t
    {
      hide Resume, StackWork, AllFine;
      match t
      case Leaf(c) =>
        var b := LeafBytes(c, v);
        if b.None? {
          return false;
        }
        out := out + b.value;
        ok := true;
      case Optional(of) =>
        if v.Null? {
          out := out + [0];
          ok := true;
        } else {
          out := out + [1];
          ContinueMore(env, stack, old(out), [1], Encode(env, of, allow, v, skipped));
          ok := StartValue(of, allow, v);
        }
      case Extension(of) =>
        ok := StartValue(of, allow, v);
      case Array(of) =>
        ok := StartArray(of, v);
      case Named(name) =>
        if name !in env {
          return false;
        }
        if env[name].Struct? {
          ok := StartObject(name, allow, v);
        } else {
          ok := StartVariant(name, allow, v);
        }
    }

    /** pseudo_array at its start: the size, then the first item or the end. */
    method StartArray(of: Type, v: Json) returns (ok: bool)
      requires Valid()
      modifies this
      ensures ok ==> Valid() && Left() <= old(Left()) + Work(env, Array(of), v)
      ensures var r := Encode(env, Array(of), false, v, old(skipped));
        && (!ok ==> r == None)
        && (ok ==> Outcome() == Continue(env, old(stack), old(out), r))
      decreases v, 0, 1
    {
      hide Resume, StackWork, AllFine;
      if !v.Arr? || |v.items| >= TWO32 {
        return false;
      }
      var e := Entry(Array(of), false, v, -1);
      ContinueMore(env, stack, out, Varuint(|v.items|), EncodeItems(env, of, v, 0, skipped));
      ResumePush(env, stack, e, out + Varuint(|v.items|), skipped);
      WorkPush(env, stack, e);
      out := out + Varuint(|v.items|);
      stack := stack + [e];
      ok := ContinueArray();
    }

    method StartObject(name: string, allow: bool, v: Json) returns (ok: bool)
      requires Valid() && name in env && env[name].Struct?
      modifies this
      ensures ok ==> Valid() && Left() <= old(Left()) + Work(env, Named(name), v)
      ensures var r := Encode(env, Named(name), allow, v, old(skipped));
        && (!ok ==> r == None)
        && (ok ==> Outcome() == Continue(env, old(stack), old(out), r))
      decreases v, 0, 1
    {
      hide Resume, StackWork, AllFine;
      if !v.Obj? {
        return false;
      }
      var e := Entry(Named(name), allow, v, -1);
      ResumePush(env, stack, e, out, skipped);
      WorkPush(env, stack, e);
      stack := stack + [e];
      ok := ContinueObject();
    }

    /** pseudo_variant at its start only looks at the shape. */
    method StartVariant(name: string, allow: bool, v: Json) returns (ok: bool)
      requires Valid() && name in env && env[name].Variant?
      modifies this
      ensures ok ==> Valid() && Left() <= old(Left()) + Work(env, Named(name), v)
      ensures var r := Encode(env, Named(name), allow, v, old(skipped));
        && (!ok ==> r == None)
        && (ok ==> Outcome() == Continue(env, old(stack), old(out), r))
      decreases v, 0, 1
    {
      hide Resume, StackWork, AllFine;
      if !v.Arr? || |v.items| != 2 || !v.items[0].Str? {
        return false;
      }
      var e := Entry(Named(name), allow, v, 0);
      ResumePush(env, stack, e, out, skipped);
      WorkPush(env, stack, e);
      stack := stack + [e];
      ok := true;
    }

    /** The top entry is replaced. */
    method Advance()
      requires Valid() && |stack| > 0
      requires Fine(env, stack[|stack| - 1].(position := stack[|stack| - 1].position + 1))
      modifies this`stack
      ensures Valid()
      ensures var n := |old(stack)| - 1; stack == old(stack)[..n] + [old(stack)[n].(position := old(stack)[n].position + 1)]
    {
      hide Fine;
      var n := |stack| - 1;
      stack := stack[..n] + [stack[n].(position := stack[n].position + 1)];
    }

    /** pseudo_array with its entry on top. */
    method ContinueArray() returns (ok: bool)
      requires Valid() && |stack| > 0 && stack[|stack| - 1].t.Array? && Fine(env, stack[|stack| - 1])
      modifies this
      ensures ok ==> Valid() && Left() < old(Left())
      ensures !ok ==> Finish(env, old(stack)[|old(stack)| - 1], old(skipped)) == None
      ensures ok ==> Outcome() == old(Outcome())
      decreases stack[|stack| - 1].value, 0, 0
    {
      hide Resume, StackWork, Encode, Work;
      ghost var s, o, was := stack, out, skipped;
      var n := |stack| - 1;
      var e := stack[n];
      var i := e.position + 1;
      assert s == s[..n] + [e];
      ResumePush(env, s[..n], e, o, was);
      WorkPush(env, s[..n], e);
      if i == |e.value.items| {
        assert out + [] == out;
        stack := stack[..n];
        return true;
      }
      ghost var x := Encode(env, e.t.of, false, e.value.items[i], was);
      ghost var e' := e.(position := i);
      WorkPush(env, s[..n], e');
      if x.Some? {
        ResumePush(env, s[..n], e', o + x.value.bytes, x.value.skipped);
        ContinueMore(env, s[..n], o, x.value.bytes, EncodeItems(env, e.t.of, e.value, i + 1, x.value.skipped));
      }
      Advance();
      ok := StartValue(e.t.of, false, e.value.items[i]);
    }

    /** pseudo_object with its entry on top: the next field in declared order, looked up by name. */
    method ContinueObject() returns (ok: bool)
      requires Valid() && |stack| > 0 && IsStruct(env, stack[|stack| - 1])
      modifies this
      ensures ok ==> Valid() && Left() < old(Left())
      ensures !ok ==> Finish(env, old(stack)[|old(stack)| - 1], old(skipped)) == None
      ensures ok ==> Outcome() == old(Outcome())
      decreases stack[|stack| - 1].value, 0, 0
    {
      hide Resume, StackWork, Encode, Work;
      ghost var s, o, was := stack, out, skipped;
      var n := |stack| - 1;
      var e := stack[n];
      var fields := env[e.t.name].fields;
      var i := e.position + 1;
      assert s == s[..n] + [e];
      ResumePush(env, s[..n], e, o, was);
      WorkPush(env, s[..n], e);
      if i == |fields| {
        assert out + [] == out;
        stack := stack[..n];
        return true;
      }
      var k := MemberOf(e.value, fields[i].name, |e.value.members|);
      ghost var e' := e.(position := i);
      WorkPush(env, s[..n], e');
      if k < 0 {
        if !fields[i].of.Extension? || !e.allow {
          return false;
        }
        ResumePush(env, s[..n], e', o, true);
        skipped := true;
        Advance();
        return true;
      }
      if skipped {
        return false;
      }
      var v := e.value.members[k].value;
      var inner := e.allow && i == |fields| - 1;
      ghost var x := Encode(env, fields[i].of, inner, v, was);
      if x.Some? {
        ResumePush(env, s[..n], e', o + x.value.bytes, x.value.skipped);
        ContinueMore(env, s[..n], o, x.value.bytes, EncodeFields(env, fields, e.allow, e.value, i + 1, x.value.skipped));
      }
      Advance();
      ok := StartValue(fields[i].of, inner, v);
    }

    /** pseudo_variant with its entry on top: the alternative, then the end. */
    method ContinueVariant() returns (ok: bool)
      requires Valid() && |stack| > 0 && Fine(env, stack[|stack| - 1])
      requires stack[|stack| - 1].t.Named? && env[stack[|stack| - 1].t.name].Variant?
      modifies this
      ensures ok ==> Valid() && Left() < old(Left())
      ensures !ok ==> Finish(env, old(stack)[|old(stack)| - 1], old(skipped)) == None
      ensures ok ==> Outcome() == old(Outcome())
      decreases stack[|stack| - 1].value, 0, 0
    {
      hide Resume, StackWork, Encode, Work;
      ghost var s, o, was := stack, out, skipped;
      var n := |stack| - 1;
      var e := stack[n];
      var alternatives := env[e.t.name].alternatives;
      assert s == s[..n] + [e];
      ResumePush(env, s[..n], e, o, was);
      WorkPush(env, s[..n], e);
      if e.position != 0 {
        assert out + [] == out;
        stack := stack[..n];
        return true;
      }
      var k := AlternativeOf(alternatives, e.value.items[0].s);
      if k == |alternatives| || k >= TWO32 {
        return false;
      }
      ghost var e' := e.(position := 1);
      ghost var x := Encode(env, alternatives[k].of, e.allow, e.value.items[1], was);
      WorkPush(env, s[..n], e');
      if x.Some? {
        ResumePush(env, s[..n], e', o + Varuint(k) + x.value.bytes, x.value.skipped);
        PairWritten(env, s[..n], o, Varuint(k), x.value.bytes, x.value.skipped);
      }
      out := out + Varuint(k);
      Advance();
      ok := StartValue(alternatives[k].of, e.allow, e.value.items[1]);
    }

    /** One iteration of the driver's loop. */
    method Step() returns (ok: bool)
      requires Valid() && |stack| > 0
      modifies this
      ensures ok ==> Valid() && Left() < old(Left())
      ensures !ok ==> old(Outcome()) == None
      ensures ok ==> Outcome() == old(Outcome())
    {
      var n := |stack| - 1;
      var e := stack[n];
      assert stack == stack[..n] + [e];
      ResumePush(env, stack[..n], e, out, skipped);
      hide Resume, StackWork, Finish;
      if e.t.Array? {
        ok := ContinueArray();
      } else if env[e.t.name].Struct? {
        ok := ContinueObject();
      } else {
        ok := ContinueVariant();
      }
    }
  }

  /** The driver of json_to_bin over a tree; it has no stack limit of its own. */
  method Run(env: Env, t: Type, v: Json) returns (r: Option<seq<Byte>>)
    ensures r == match Encode(env, t, true, v, false)
                 case None => None
                 case Some(e) => Some(e.bytes)
  {
    hide Encode, Resume, StackWork, Work;
    ghost var x := Encode(env, t, true, v, false);
    var m := new JvalueToBin(env);
    var ok := m.StartValue(t, true, v);
    while ok && |m.stack| > 0
      invariant ok ==> m.Valid() && m.Outcome() == Continue(env, [], [], x)
      invariant !ok ==> x == None
      decreases ok, if ok then m.Left() else 0
    {
      ContinueNone(env, x);
      ok := m.Step();
    }
    if !ok {
      return None;
    }
    ResumeDone(env, m.out, m.skipped, x);
    r := Some(m.out);
  }

  lemma ContinueNone(env: Env, x: Option<Encoded>)
    ensures Continue(env, [], [], x) == None ==> x == None
  {
  }

  lemma ResumeDone(env: Env, out: seq<Byte>, skipped: bool, x: Option<Encoded>)
    requires Resume(env, [], out, skipped) == Continue(env, [], [], x)
    ensures x == Some(Encoded(out, skipped))
  {
    if x.Some? {
      assert [] + x.value.bytes == x.value.bytes;
    }
  }

  predicate IsStruct(env: Env, e: Entry) {
    e.t.Named? && e.t.name in env && env[e.t.name].Struct? && e.value.Obj? && -1 <= e.position < |env[e.t.name].fields|
  }

  lemma PairWritten(env: Env, stack: seq<Entry>, out: seq<Byte>, a: seq<Byte>, b: seq<Byte>, skipped: bool)
    requires AllFine(env, stack)
    ensures Continue(env, stack, (out + a) + b, Some(Encoded([], skipped))) == Continue(env, stack, out, Some(Encoded(a + b, skipped)))
  {
    assert ((out + a) + b) + [] == out + (a + b);
  }
}
