/** Recursive decoding to JSON text: the printer without its explicit stack
    (libraries/abieos/src/abieos.hpp, bin_to_json). */
module AbiShow {
  import opened Basics
  import opened AbiTypes
  import opened AbiEncode

  datatype Lexeme =
    | LNull
    | LBool(b: bool)
    | LString(s: Text)
    | LOpenObject
    | LCloseObject
    | LOpenArray
    | LCloseArray
    | LComma
    | LColon

  datatype Shown = Shown(lex: seq<Lexeme>, rest: seq<Byte>)

  function Lead(l: seq<Lexeme>, o: Option<Shown>): Option<Shown> {
    match o
    case None => None
    case Some(s) => Some(Shown(l + s.lex, s.rest))
  }

  /** A byte that is not 0 reads as true. */
  function ReadBool(bin: seq<Byte>): Option<(bool, seq<Byte>)> {
    if |bin| == 0 then None else Some((bin[0] != 0, bin[1..]))
  }

  function ShowLeaf(c: Codec, bin: seq<Byte>): Option<Shown> {
    match c
    case BoolCodec =>
      (match ReadBool(bin)
       case None => None
       case Some((b, rest)) => Some(Shown([LBool(b)], rest)))
    case TextCodec =>
      match ReadVaruint(bin)
      case None => None
      case Some((n, rest)) => if n <= |rest| then Some(Shown([LString(rest[..n])], rest[n..])) else None
  }

  /** `depth` is the height of the stack below the value; a container needs one more entry. */
  function ShowValue(env: Env, t: Type, allow: bool, bin: seq<Byte>, depth: nat): Option<Shown>
    requires depth <= MAX_STACK_SIZE
    decreases MAX_STACK_SIZE - depth, 0, t
  {
    match t
    case Leaf(c) => ShowLeaf(c, bin)
    case Optional(of) =>
      (match ReadBool(bin)
       case None => None
       case Some((present, rest)) =>
         if present then ShowValue(env, of, allow, rest, depth) else Some(Shown([LNull], rest)))
    case Extension(of) => ShowValue(env, of, allow, bin, depth)
    case Array(of) =>
      if depth == MAX_STACK_SIZE then None else
        (match ReadVaruint(bin)
         case None => None
         case Some((n, rest)) => Lead([LOpenArray], ShowItems(env, of, n, 0, rest, depth + 1)))
    case Named(name) =>
      if name !in env || depth == MAX_STACK_SIZE then None else
        match env[name]
        case Struct(fields) => Lead([LOpenObject], ShowFields(env, fields, allow, 0, bin, depth + 1))
        case Variant(alternatives) => Lead([LOpenArray], ShowAlternative(env, alternatives, allow, bin, depth + 1))
  }

  function Separator(i: nat): seq<Lexeme> {
    if i == 0 then [] else [LComma]
  }

  function ShowItems(env: Env, of: Type, size: nat, i: nat, bin: seq<Byte>, depth: nat): Option<Shown>
    requires i <= size && depth <= MAX_STACK_SIZE
    decreases MAX_STACK_SIZE - depth, 1, size - i
  {
    if i == size then Some(Shown([LCloseArray], bin)) else
      match ShowValue(env, of, false, bin, depth)
      case None => None
      case Some(s) => Lead(Separator(i) + s.lex, ShowItems(env, of, size, i + 1, s.rest, depth))
  }

  /** At the end of the input an extension is left out. */
  function ShowFields(env: Env, fields: seq<Field>, allow: bool, i: nat, bin: seq<Byte>, depth: nat): Option<Shown>
    requires i <= |fields| && depth <= MAX_STACK_SIZE
    decreases MAX_STACK_SIZE - depth, 1, |fields| - i
  {
    if i == |fields| then Some(Shown([LCloseObject], bin))
    else if |bin| == 0 && fields[i].of.Extension? && allow then ShowFields(env, fields, allow, i + 1, bin, depth)
    else
      match ShowValue(env, fields[i].of, allow && i == |fields| - 1, bin, depth)
      case None => None
      case Some(s) =>
        Lead(Separator(i) + [LString(fields[i].name), LColon] + s.lex, ShowFields(env, fields, allow, i + 1, s.rest, depth))
  }

  function ShowAlternative(env: Env, alternatives: seq<Field>, allow: bool, bin: seq<Byte>, depth: nat): Option<Shown>
    requires depth <= MAX_STACK_SIZE
    decreases MAX_STACK_SIZE - depth, 1, 0
  {
    match ReadVaruint(bin)
    case None => None
    case Some((k, rest)) =>
      if k >= |alternatives| then None else
        match ShowValue(env, alternatives[k].of, allow, rest, depth)
        case None => None
        case Some(s) => Some(Shown([LString(alternatives[k].name), LComma] + s.lex + [LCloseArray], s.rest))
  }

  // ---------------------------------------------------------------------------------------------
  // Text of a JSON value
  // ---------------------------------------------------------------------------------------------

  function Print(j: Json): seq<Lexeme>
    decreases j, 1, 0
  {
    match j
    case Null => [LNull]
    case Bool(b) => [LBool(b)]
    case Str(s) => [LString(s)]
    case Obj(_) => [LOpenObject] + PrintMembers(j, 0)
    case Arr(_) => [LOpenArray] + PrintItems(j, 0)
  }

  function PrintMembers(j: Json, i: nat): seq<Lexeme>
    requires j.Obj? && i <= |j.members|
    decreases j, 0, |j.members| - i
  {
    if i == |j.members| then [LCloseObject] else
      Separator(i) + [LString(j.members[i].key), LColon] + Print(j.members[i].value) + PrintMembers(j, i + 1)
  }

  function PrintItems(j: Json, i: nat): seq<Lexeme>
    requires j.Arr? && i <= |j.items|
    decreases j, 0, |j.items| - i
  {
    if i == |j.items| then [LCloseArray] else Separator(i) + Print(j.items[i]) + PrintItems(j, i + 1)
  }

  /** The tokens a reader sees: no separators, and a name before a colon is a key. */
  function Strip(l: seq<Lexeme>): seq<Token> {
    if |l| == 0 then []
    else
      match l[0]
      case LComma => Strip(l[1..])
      case LColon => Strip(l[1..])
      case LNull => [TNull] + Strip(l[1..])
      case LBool(b) => [TBool(b)] + Strip(l[1..])
      case LString(s) => [if |l| > 1 && l[1].LColon? then TKey(s) else TString(s)] + Strip(l[1..])
      case LOpenObject => [TStartObject] + Strip(l[1..])
      case LCloseObject => [TEndObject] + Strip(l[1..])
      case LOpenArray => [TStartArray] + Strip(l[1..])
      case LCloseArray => [TEndArray] + Strip(l[1..])
  }
}
