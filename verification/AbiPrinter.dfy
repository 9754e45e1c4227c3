/** The printer: an explicit stack over the bytes, with a stack limit (libraries/abieos/src/abieos.hpp,
    bin_to_json over bin_to_json_state). */
module AbiPrinter {
  import opened Basics
  import opened Powers
  import opened AbiTypes
  import opened AbiEncode
  import opened AbiShow

  datatype Entry = Entry(t: Type, allow: bool, position: int, arraySize: nat)

  predicate Fine(env: Env, e: Entry) {
    match e.t
    case Array(_) => -1 <= e.position < e.arraySize < TWO32 || (e.position == -1 && e.arraySize == 0)
    case Named(name) =>
      name in env && (match env[name]
                      case Struct(fields) => -1 <= e.position < |fields| || (e.position == -1 && |fields| == 0)
                      case Variant(_) => -1 <= e.position <= 0)
    case _ => false
  }

  predicate AllFine(env: Env, stack: seq<Entry>) {
    forall i | 0 <= i < |stack| :: Fine(env, stack[i])
  }

  // ---------------------------------------------------------------------------------------------
  // What is left to do
  // ---------------------------------------------------------------------------------------------

  /** What completing the top entry prints. */
  function Finish(env: Env, e: Entry, bin: seq<Byte>, depth: nat): Option<Shown>
    requires Fine(env, e) && depth <= MAX_STACK_SIZE
  {
    match e.t
    case Array(of) => ShowItems(env, of, e.arraySize, e.position + 1, bin, depth)
    case Named(name) =>
      match env[name]
      case Struct(fields) => ShowFields(env, fields, e.allow, e.position + 1, bin, depth)
      case Variant(alternatives) =>
        if e.position == -1 then ShowAlternative(env, alternatives, e.allow, bin, depth) else Some(Shown([LCloseArray], bin))
  }

  /** The final output of a state: the entries are completed from the top. */
  function Resume(env: Env, stack: seq<Entry>, writer: seq<Lexeme>, bin: seq<Byte>): Option<Shown>
    requires AllFine(env, stack) && |stack| <= MAX_STACK_SIZE
    decreases |stack|
  {
    if |stack| == 0 then Some(Shown(writer, bin)) else
      var n := |stack| - 1;
      Continue(env, stack[..n], writer, Finish(env, stack[n], bin, |stack|))
  }

  function Continue(env: Env, stack: seq<Entry>, writer: seq<Lexeme>, o: Option<Shown>): Option<Shown>
    requires AllFine(env, stack) && |stack| <= MAX_STACK_SIZE
    decreases |stack| + 1, 0
  {
    match o
    case None => None
    case Some(s) => Resume(env, stack, writer + s.lex, s.rest)
  }

  lemma ResumePush(env: Env, stack: seq<Entry>, e: Entry, writer: seq<Lexeme>, bin: seq<Byte>)
    requires AllFine(env, stack) && Fine(env, e) && |stack| < MAX_STACK_SIZE
    ensures AllFine(env, stack + [e])
    ensures Resume(env, stack + [e], writer, bin) == Continue(env, stack, writer, Finish(env, e, bin, |stack| + 1))
  {
    hide Fine, Finish;
    assert (stack + [e])[..|stack|] == stack;
  }

  lemma ContinueMore(env: Env, stack: seq<Entry>, writer: seq<Lexeme>, l: seq<Lexeme>, o: Option<Shown>)
    requires AllFine(env, stack) && |stack| <= MAX_STACK_SIZE
    ensures Continue(env, stack, writer + l, o) == Continue(env, stack, writer, Lead(l, o))
  {
    if o.Some? {
      assert writer + (l + o.value.lex) == (writer + l) + o.value.lex;
    }
  }

  // ---------------------------------------------------------------------------------------------
  // Termination, also for types that contain themselves without reading any input
  // ---------------------------------------------------------------------------------------------

  /** No struct or array has more steps than this. */
  predicate Bounds(env: Env, bound: nat) {
    bound > TWO32 + 2 && forall name | name in env && env[name].Struct? :: |env[name].fields| + 2 < bound
  }

  lemma {:induction false} BoundExists(env: Env)
    ensures exists bound :: Bounds(env, bound)
    decreases |env|
  {
    if env == map[] {
      assert Bounds(env, TWO32 + 3);
    } else {
      var name :| name in env;
      var rest := env - {name};
      BoundExists(rest);
      var b: nat :| Bounds(rest, b);
      var bound: nat := if env[name].Struct? then b + |env[name].fields| + 3 else b;
      forall k | k in env && env[k].Struct? ensures |env[k].fields| + 2 < bound {
        assert k == name || (k in rest && rest[k] == env[k]);
      }
      assert Bounds(env, bound);
    }
  }

  function StepsOf(env: Env, e: Entry): nat
    requires Fine(env, e)
  {
    match e.t
    case Array(_) => e.arraySize - e.position
    case Named(name) =>
      match env[name]
      case Struct(fields) => |fields| - e.position
      case Variant(_) => 1 - e.position
  }

  /** Every entry counts more than all that can be above it. */
  ghost function Rank(env: Env, stack: seq<Entry>, bound: nat): nat
    requires AllFine(env, stack) && |stack| <= MAX_STACK_SIZE + 1
  {
    if |stack| == 0 then 0 else
      Rank(env, stack[..|stack| - 1], bound) + StepsOf(env, stack[|stack| - 1]) * Pow(bound, MAX_STACK_SIZE + 1 - |stack|)
  }

  lemma RankPush(env: Env, stack: seq<Entry>, e: Entry, bound: nat)
    requires AllFine(env, stack) && Fine(env, e) && |stack| <= MAX_STACK_SIZE
    ensures AllFine(env, stack + [e])
    ensures Rank(env, stack + [e], bound) == Rank(env, stack, bound) + StepsOf(env, e) * Pow(bound, MAX_STACK_SIZE - |stack|)
  {
    hide Fine, StepsOf, Pow;
    assert (stack + [e])[..|stack|] == stack;
  }

  lemma StepsBounded(env: Env, e: Entry, bound: nat)
    requires Fine(env, e) && Bounds(env, bound)
    ensures 0 < StepsOf(env, e) < bound
  {
  }

  /** Moving on and pushing at most one entry lowers the rank. */
  lemma RankDrops(env: Env, stack: seq<Entry>, e: Entry, next: Entry, above: seq<Entry>, bound: nat)
    requires AllFine(env, stack) && Fine(env, e) && Fine(env, next) && AllFine(env, above) && Bounds(env, bound)
    requires StepsOf(env, next) < StepsOf(env, e) && |above| <= 1 && |stack| + 1 + |above| <= MAX_STACK_SIZE + 1
    ensures AllFine(env, stack + [e]) && AllFine(env, stack + [next] + above)
    ensures Rank(env, stack + [next] + above, bound) < Rank(env, stack + [e], bound)
  {
    hide Fine, StepsOf, Bounds, Rank, Pow;
    RankPush(env, stack, e, bound);
    RankPush(env, stack, next, bound);
    StepsBounded(env, e, bound);
    var k := MAX_STACK_SIZE - |stack|;
    PowPositive(bound, k);
    MulLess(StepsOf(env, next), StepsOf(env, e), Pow(bound, k));
    if |above| == 1 {
      assert above == [above[0]];
      RankPush(env, stack + [next], above[0], bound);
      StepsBounded(env, above[0], bound);
      PowStep(bound, k);
      MulLess(StepsOf(env, above[0]), bound, Pow(bound, k - 1));
    } else {
      assert stack + [next] + above == stack + [next];
    }
  }

  lemma PowStep(b: nat, k: nat)
    requires k > 0
    ensures Pow(b, k) == b * Pow(b, k - 1)
    ensures b > 0 ==> Pow(b, k - 1) > 0
  {
    if b > 0 {
      PowPositive(b, k - 1);
    }
  }

  lemma RankPops(env: Env, stack: seq<Entry>, e: Entry, bound: nat)
    requires AllFine(env, stack) && Fine(env, e) && |stack| <= MAX_STACK_SIZE && Bounds(env, bound)
    ensures AllFine(env, stack + [e]) && Rank(env, stack, bound) < Rank(env, stack + [e], bound)
  {
    hide Fine, StepsOf, Bounds, Rank, Pow;
    RankPush(env, stack, e, bound);
    StepsBounded(env, e, bound);
    PowPositive(bound, MAX_STACK_SIZE - |stack|);
    MulPositive(StepsOf(env, e), Pow(bound, MAX_STACK_SIZE - |stack|));
  }

  // ---------------------------------------------------------------------------------------------
  // The machine
  // ---------------------------------------------------------------------------------------------

  class BinToJson {
    const env: Env
    var bin: seq<Byte>
    var writer: seq<Lexeme>
    var stack: seq<Entry>
    var skipped: bool

    /** One more entry than the limit is possible until the driver looks. */
    ghost predicate Valid()
      reads this
    {
      AllFine(env, stack) && |stack| <= MAX_STACK_SIZE + 1
    }

    ghost function Outcome(): Option<Shown>
      reads this
      requires Valid()
    {
      if |stack| > MAX_STACK_SIZE then None else Resume(env, stack, writer, bin)
    }

    constructor (env: Env, bin: seq<Byte>)
      ensures Valid() && this.env == env && this.bin == bin && stack == [] && writer == []
    {
      this.env, this.bin := env, bin;
      writer, stack, skipped := [], [], false;
    }

    /** A new entry on the stack, and the bracket that opens it. */
    method Push(e: Entry, bracket: Lexeme)
      requires Valid() && |stack| <= MAX_STACK_SIZE && Fine(env, e)
      modifies this`stack, this`writer
      ensures Valid() && stack == old(stack) + [e] && writer == old(writer) + [bracket]
      ensures Outcome() == if |old(stack)| == MAX_STACK_SIZE then None
                           else Continue(env, old(stack), old(writer), Lead([bracket], Finish(env, e, bin, |old(stack)| + 1)))
    {
      hide Fine, Finish, Resume;
      if |stack| < MAX_STACK_SIZE {
        ResumePush(env, stack, e, writer + [bracket], bin);
        ContinueMore(env, stack, writer, [bracket], Finish(env, e, bin, |stack| + 1));
      }
      stack := stack + [e];
      writer := writer + [bracket];
    }

    /** The start of a value: scalars are printed, containers are pushed. */
    method StartValue(t: Type, allow: bool) returns (ok: bool)
      requires Valid() && |stack| <= MAX_STACK_SIZE
      modifies this
      ensures ok ==> Valid() && |stack| <= |old(stack)| + 1 && old(stack) <= stack
      ensures var r := ShowValue(env, t, allow, old(bin), |old(stack)|);
        && (!ok ==> r == None)
        && (ok ==> Outcome() == Continue(env, old(stack), old(writer), r))
      decreases t
    {
      hide Resume, ShowItems, ShowFields, ShowAlternative, Fine, AllFine;
      match t
      case Leaf(c) =>
        var s := ShowLeaf(c, bin);
        if s.None? {
          return false;
        }
        writer, bin := writer + s.value.lex, s.value.rest;
        ok := true;
      case Optional(of) =>
        if |bin| == 0 {
          return false;
        }
        var present := bin[0] != 0;
        bin := bin[1..];
        if present {
          ok := StartValue(of, allow);
        } else {
          writer := writer + [LNull];
          ok := true;
        }
      case Extension(of) =>
        ok := StartValue(of, allow);
      case Array(of) =>
        ok := StartArray(of);
      case Named(name) =>
        if name !in env {
          return false;
        }
        ok := true;
        if env[name].Struct? {
          FineNamed(env, name, allow);
          Push(Entry(Named(name), allow, -1, 0), LOpenObject);
        } else {
          FineNamed(env, name, allow);
          Push(Entry(Named(name), allow, -1, 0), LOpenArray);
        }
    }

    method StartArray(of: Type) returns (ok: bool)
      requires Valid() && |stack| <= MAX_STACK_SIZE
      modifies this
      ensures ok ==> Valid() && |stack| <= |old(stack)| + 1 && old(stack) <= stack
      ensures var r := ShowValue(env, Array(of), false, old(bin), |old(stack)|);
        && (!ok ==> r == None)
        && (ok ==> Outcome() == Continue(env, old(stack), old(writer), r))
    {
      hide Resume, ShowItems, AllFine;
      var size := ReadVaruint(bin);
      if size.None? {
        return false;
      }
      bin := size.value.1;
      Push(Entry(Array(of), false, -1, size.value.0), LOpenArray);
      ok := true;
    }

    /** The top entry moves on. */
    method Advance()
      requires Valid() && |stack| > 0
      requires Fine(env, stack[|stack| - 1].(position := stack[|stack| - 1].position + 1))
      modifies this`stack
      ensures Valid()
      ensures var n := |old(stack)| - 1; stack == old(stack)[..n] + [old(stack)[n].(position := old(stack)[n].position + 1)]
    {
      hide Fine;
      var n := |stack| - 1;
      stack := stack[..n] + [stack[n].(position := stack[n].position + 1)];
    }

    /** The top entry is complete. */
    method Pop(bracket: Lexeme, ghost bound: nat)
      requires Valid() && 0 < |stack| <= MAX_STACK_SIZE && Bounds(env, bound)
      requires Finish(env, stack[|stack| - 1], bin, |stack|) == Some(Shown([bracket], bin))
      modifies this`stack, this`writer
      ensures Valid() && |stack| <= MAX_STACK_SIZE && Rank(env, stack, bound) < Rank(env, old(stack), bound)
      ensures Outcome() == old(Outcome())
    {
      hide Fine, Finish, Bounds, Rank, Resume;
      var n := |stack| - 1;
      ghost var e := stack[n];
      assert stack == stack[..n] + [e];
      ResumePush(env, stack[..n], e, writer, bin);
      RankPops(env, stack[..n], e, bound);
      stack := stack[..n];
      writer := writer + [bracket];
    }

    /** The top entry moves on to a value, after some punctuation; `more` is what follows it. */
    method NextValue(lead: seq<Lexeme>, of: Type, allow: bool, ghost bound: nat) returns (ok: bool)
      requires Valid() && 0 < |stack| <= MAX_STACK_SIZE && Bounds(env, bound)
      requires var e := stack[|stack| - 1];
        && Fine(env, e.(position := e.position + 1))
        && StepsOf(env, e.(position := e.position + 1)) < StepsOf(env, e)
        && Finish(env, e, bin, |stack|) == AfterValue(env, e.(position := e.position + 1), lead, ShowValue(env, of, allow, bin, |stack|), |stack|)
      modifies this
      ensures ok ==> Valid()
      ensures ok && |stack| <= MAX_STACK_SIZE ==> Rank(env, stack, bound) < Rank(env, old(stack), bound)
      ensures !ok ==> old(Outcome()) == None
      ensures ok ==> Outcome() == old(Outcome())
    {
      hide Fine, Finish, Bounds, Rank, Resume, ShowValue, StepsOf;
      ghost var s, w, n := stack, writer, |stack| - 1;
      ghost var e := stack[n];
      ghost var next := e.(position := e.position + 1);
      assert s == s[..n] + [e];
      ResumePush(env, s[..n], e, w, bin);
      ghost var r := ShowValue(env, of, allow, bin, n + 1);
      if r.Some? {
        ResumePush(env, s[..n], next, (w + lead) + r.value.lex, r.value.rest);
        LeadTwice(env, s[..n], w, lead, r.value.lex, Finish(env, next, r.value.rest, n + 1));
      }
      Advance();
      writer := writer + lead;
      ok := StartValue(of, allow);
      if ok && |stack| <= MAX_STACK_SIZE {
        ghost var above := stack[n + 1..];
        assert stack == s[..n] + [next] + above;
        RankDrops(env, s[..n], e, next, above, bound);
      }
    }

    /** pseudo_array with its entry on top. */
    method ContinueArray(ghost bound: nat) returns (ok: bool)
      requires Valid() && 0 < |stack| <= MAX_STACK_SIZE && Bounds(env, bound) && stack[|stack| - 1].t.Array?
      modifies this
      ensures ok ==> Valid()
      ensures ok && |stack| <= MAX_STACK_SIZE ==> Rank(env, stack, bound) < Rank(env, old(stack), bound)
      ensures !ok ==> old(Outcome()) == None
      ensures ok ==> Outcome() == old(Outcome())
    {
      hide Rank, Resume, Bounds, ShowValue, AllFine;
      var e := stack[|stack| - 1];
      TopIsFine(env, stack);
      if e.position + 1 < e.arraySize {
        NextSteps(env, e);
        ok := NextValue(if e.position + 1 != 0 then [LComma] else [], e.t.of, false, bound);
      } else {
        Pop(LCloseArray, bound);
        ok := true;
      }
    }

    /** pseudo_object with its entry on top: the next field; at the end of the input a trailing
        extension is left out. */
    method ContinueObject(ghost bound: nat) returns (ok: bool)
      requires Valid() && 0 < |stack| <= MAX_STACK_SIZE && Bounds(env, bound) && IsStruct(env, stack[|stack| - 1])
      modifies this
      ensures ok ==> Valid()
      ensures ok && |stack| <= MAX_STACK_SIZE ==> Rank(env, stack, bound) < Rank(env, old(stack), bound)
      ensures !ok ==> old(Outcome()) == None
      ensures ok ==> Outcome() == old(Outcome())
    {
      hide Rank, Resume, Bounds, ShowValue, AllFine;
      var e := stack[|stack| - 1];
      var fields := env[e.t.name].fields;
      var i := e.position + 1;
      TopIsFine(env, stack);
      if i < |fields| {
        NextSteps(env, e);
        if |bin| == 0 && fields[i].of.Extension? && e.allow {
          LeaveOut(bound);
          ok := true;
        } else {
          ok := NextValue((if i != 0 then [LComma] else []) + [LString(fields[i].name), LColon], fields[i].of,
                          e.allow && i == |fields| - 1, bound);
        }
      } else {
        Pop(LCloseObject, bound);
        ok := true;
      }
    }

    /** The next field is an extension that is not there. */
    method LeaveOut(ghost bound: nat)
      requires Valid() && 0 < |stack| <= MAX_STACK_SIZE && Bounds(env, bound)
      requires var e := stack[|stack| - 1];
        && Fine(env, e.(position := e.position + 1))
        && StepsOf(env, e.(position := e.position + 1)) < StepsOf(env, e)
        && Finish(env, e, bin, |stack|) == Finish(env, e.(position := e.position + 1), bin, |stack|)
      modifies this`stack, this`skipped
      ensures Valid() && |stack| <= MAX_STACK_SIZE && Rank(env, stack, bound) < Rank(env, old(stack), bound)
      ensures Outcome() == old(Outcome())
    {
      hide Fine, Finish, Bounds, Rank, Resume, StepsOf;
      var n := |stack| - 1;
      ghost var s, e := stack, stack[n];
      ghost var next := e.(position := e.position + 1);
      assert s == s[..n] + [e];
      ResumePush(env, s[..n], e, writer, bin);
      ResumePush(env, s[..n], next, writer, bin);
      RankDrops(env, s[..n], e, next, [], bound);
      skipped := true;
      Advance();
      assert stack == s[..n] + [next] + [];
    }

    /** pseudo_variant with its entry on top: the index and the value, then the end. */
    method ContinueVariant(ghost bound: nat) returns (ok: bool)
      requires Valid() && 0 < |stack| <= MAX_STACK_SIZE && Bounds(env, bound) && IsVariant(env, stack[|stack| - 1])
      modifies this
      ensures ok ==> Valid()
      ensures ok && |stack| <= MAX_STACK_SIZE ==> Rank(env, stack, bound) < Rank(env, old(stack), bound)
      ensures !ok ==> old(Outcome()) == None
      ensures ok ==> Outcome() == old(Outcome())
    {
      hide Rank, Resume, Bounds, ShowValue, AllFine;
      var e := stack[|stack| - 1];
      var alternatives := env[e.t.name].alternatives;
      TopIsFine(env, stack);
      if e.position == -1 {
        var index := ReadVaruint(bin);
        OutcomeIs();
        if index.None? || index.value.0 >= |alternatives| {
          return false;
        }
        ok := NextAlternative(index.value.0, index.value.1, bound);
      } else {
        Pop(LCloseArray, bound);
        ok := true;
      }
    }

    lemma OutcomeIs()
      requires Valid() && 0 < |stack| <= MAX_STACK_SIZE
      ensures Finish(env, stack[|stack| - 1], bin, |stack|) == None ==> Outcome() == None
    {
      hide Finish, Fine, Resume;
      var n := |stack| - 1;
      assert stack == stack[..n] + [stack[n]];
      ResumePush(env, stack[..n], stack[n], writer, bin);
    }

    /** The alternative with the index that was read. */
    method NextAlternative(k: nat, rest: seq<Byte>, ghost bound: nat) returns (ok: bool)
      requires Valid() && 0 < |stack| <= MAX_STACK_SIZE && Bounds(env, bound) && IsVariant(env, stack[|stack| - 1])
      requires stack[|stack| - 1].position == -1
      requires ReadVaruint(bin) == Some((k, rest)) && k < |env[stack[|stack| - 1].t.name].alternatives|
      modifies this
      ensures ok ==> Valid()
      ensures ok && |stack| <= MAX_STACK_SIZE ==> Rank(env, stack, bound) < Rank(env, old(stack), bound)
      ensures !ok ==> old(Outcome()) == None
      ensures ok ==> Outcome() == old(Outcome())
    {
      hide Rank, Resume, Bounds, ShowValue, ReadVaruint, StepsOf, Fine;
      TopIsFine(env, stack);
      ghost var s, w, n := stack, writer, |stack| - 1;
      var e := stack[|stack| - 1];
      var f := env[e.t.name].alternatives[k];
      ghost var next := e.(position := 0);
      VariantSteps(env, e);
      assert s == s[..n] + [e];
      ResumePush(env, s[..n], e, w, bin);
      ghost var lead := [LString(f.name), LComma];
      ghost var r := ShowValue(env, f.of, e.allow, rest, n + 1);
      if r.Some? {
        ResumePush(env, s[..n], next, (w + lead) + r.value.lex, r.value.rest);
        LeadTwice(env, s[..n], w, lead, r.value.lex, Some(Shown([LCloseArray], r.value.rest)));
      }
      bin := rest;
      Advance();
      writer := writer + [LString(f.name), LComma];
      ok := StartValue(f.of, e.allow);
      if ok && |stack| <= MAX_STACK_SIZE {
        ghost var above := stack[n + 1..];
        assert stack == s[..n] + [next] + above;
        RankDrops(env, s[..n], e, next, above, bound);
      }
    }

    /** One iteration of the driver's loop, with the check after it. */
    method Step(ghost bound: nat) returns (ok: bool)
      requires Valid() && 0 < |stack| <= MAX_STACK_SIZE && Bounds(env, bound)
      modifies this
      ensures ok ==> Valid() && |stack| <= MAX_STACK_SIZE && Rank(env, stack, bound) < Rank(env, old(stack), bound)
      ensures !ok ==> old(Outcome()) == None
      ensures ok ==> Outcome() == old(Outcome())
    {
      hide Rank, Resume, Bounds, AllFine;
      var e := stack[|stack| - 1];
      TopIsFine(env, stack);
      if e.t.Array? {
        ok := ContinueArray(bound);
      } else if env[e.t.name].Struct? {
        ok := ContinueObject(bound);
      } else {
        ok := ContinueVariant(bound);
      }
      if ok && |stack| > MAX_STACK_SIZE {
        return false;
      }
    }
  }

  /** bin_to_json: terminates on any bytes and any types. */
  method Run(env: Env, t: Type, bin: seq<Byte>) returns (r: Option<Shown>)
    ensures r == ShowValue(env, t, true, bin, 0)
  {
    hide ShowValue, Resume, Rank, Bounds;
    BoundExists(env);
    ghost var bound: nat :| Bounds(env, bound);
    ghost var x := ShowValue(env, t, true, bin, 0);
    var m := new BinToJson(env, bin);
    var ok := m.StartValue(t, true);
    while ok && |m.stack| > 0
      invariant ok ==> m.Valid() && |m.stack| <= MAX_STACK_SIZE && m.Outcome() == Continue(env, [], [], x)
      invariant !ok ==> x == None
      decreases ok, if ok then Rank(env, m.stack, bound) else 0
    {
      ContinueNone(env, x);
      ok := m.Step(bound);
    }
    if !ok {
      return None;
    }
    ResumeDone(env, m.writer, m.bin, x);
    r := Some(Shown(m.writer, m.bin));
  }

  lemma ContinueNone(env: Env, x: Option<Shown>)
    ensures Continue(env, [], [], x) == None ==> x == None
  {
  }

  lemma ResumeDone(env: Env, writer: seq<Lexeme>, bin: seq<Byte>, x: Option<Shown>)
    requires Resume(env, [], writer, bin) == Continue(env, [], [], x)
    ensures x == Some(Shown(writer, bin))
  {
    if x.Some? {
      assert [] + x.value.lex == x.value.lex;
    }
  }

  predicate IsStruct(env: Env, e: Entry) {
    e.t.Named? && e.t.name in env && env[e.t.name].Struct?
  }

  predicate IsVariant(env: Env, e: Entry) {
    e.t.Named? && e.t.name in env && env[e.t.name].Variant?
  }

  lemma TopIsFine(env: Env, stack: seq<Entry>)
    requires AllFine(env, stack) && |stack| > 0
    ensures Fine(env, stack[|stack| - 1])
  {
    hide Fine;
  }

  lemma NextSteps(env: Env, e: Entry)
    requires Fine(env, e)
    requires e.t.Array? ==> e.position + 1 < e.arraySize
    requires IsStruct(env, e) ==> e.position + 1 < |env[e.t.name].fields|
    requires e.t.Array? || IsStruct(env, e)
    ensures Fine(env, e.(position := e.position + 1)) && StepsOf(env, e.(position := e.position + 1)) < StepsOf(env, e)
  {
  }

  lemma VariantSteps(env: Env, e: Entry)
    requires Fine(env, e) && IsVariant(env, e) && e.position == -1
    ensures Fine(env, e.(position := 0)) && StepsOf(env, e.(position := 0)) < StepsOf(env, e)
  {
  }

  /** The rest of an entry once its next value is shown. */
  function AfterValue(env: Env, next: Entry, lead: seq<Lexeme>, o: Option<Shown>, depth: nat): Option<Shown>
    requires Fine(env, next) && depth <= MAX_STACK_SIZE
  {
    match o
    case None => None
    case Some(s) => Lead(lead + s.lex, Finish(env, next, s.rest, depth))
  }

  lemma LeadTwice(env: Env, stack: seq<Entry>, w: seq<Lexeme>, a: seq<Lexeme>, b: seq<Lexeme>, o: Option<Shown>)
    requires AllFine(env, stack) && |stack| <= MAX_STACK_SIZE
    ensures Continue(env, stack, (w + a) + b, o) == Continue(env, stack, w, Lead(a + b, o))
  {
    hide Resume;
    assert (w + a) + b == w + (a + b);
    ContinueMore(env, stack, w, a + b, o);
  }

  lemma FineNamed(env: Env, name: string, allow: bool)
    requires name in env
    ensures Fine(env, Entry(Named(name), allow, -1, 0))
  {
  }
}
