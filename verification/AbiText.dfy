/** The printed text is JSON with every comma, colon and bracket in its place (libraries/abieos/src/abieos.hpp,
    bin_to_json). */
module AbiText {
  import opened Basics
  import opened AbiTypes
  import opened AbiShow

  // ---------------------------------------------------------------------------------------------
  // A strict reader
  // ---------------------------------------------------------------------------------------------

  datatype Read<T> = Read(value: T, rest: seq<Lexeme>)

  /** One value at the front, by the grammar of RFC 8259, sections 2 to 5, over lexemes. */
  function ReadJson(l: seq<Lexeme>): (r: Option<Read<Json>>)
    ensures r.Some? ==> |r.value.rest| < |l|
    decreases |l|, 0
  {
    if |l| == 0 then None else
      match l[0]
      case LNull => Some(Read(Null, l[1..]))
      case LBool(b) => Some(Read(Bool(b), l[1..]))
      case LString(s) => Some(Read(Str(s), l[1..]))
      case LOpenArray =>
        if |l| > 1 && l[1].LCloseArray? then Some(Read(Arr([]), l[2..])) else
          (match ReadItems(l[1..])
           case None => None
           case Some(Read(items, rest)) => Some(Read(Arr(items), rest)))
      case LOpenObject =>
        if |l| > 1 && l[1].LCloseObject? then Some(Read(Obj([]), l[2..])) else
          (match ReadMembers(l[1..])
           case None => None
           case Some(Read(members, rest)) => Some(Read(Obj(members), rest)))
      case _ => None
  }

  /** At least one item, commas between them, and the closing bracket. */
  function ReadItems(l: seq<Lexeme>): (r: Option<Read<seq<Json>>>)
    ensures r.Some? ==> |r.value.rest| < |l|
    decreases |l|, 1
  {
    match ReadJson(l)
    case None => None
    case Some(Read(j, rest)) =>
      if |rest| == 0 then None
      else if rest[0].LCloseArray? then Some(Read([j], rest[1..]))
      else if rest[0].LComma? then
        match ReadItems(rest[1..])
        case None => None
        case Some(Read(items, more)) => Some(Read([j] + items, more))
      else None
  }

  /** At least one member: a name, a colon and a value; commas between them, and the closing brace. */
  function ReadMembers(l: seq<Lexeme>): (r: Option<Read<seq<Member>>>)
    ensures r.Some? ==> |r.value.rest| < |l|
    decreases |l|, 1
  {
    if |l| < 2 || !l[0].LString? || !l[1].LColon? then None else
      match ReadJson(l[2..])
      case None => None
      case Some(Read(j, rest)) =>
        if |rest| == 0 then None
        else if rest[0].LCloseObject? then Some(Read([Member(l[0].s, j)], rest[1..]))
        else if rest[0].LComma? then
          match ReadMembers(rest[1..])
          case None => None
          case Some(Read(members, more)) => Some(Read([Member(l[0].s, j)] + members, more))
        else None
  }

  // ---------------------------------------------------------------------------------------------
  // Printed text is read back
  // ---------------------------------------------------------------------------------------------

  /** Reading the printed text of a value gives the value and leaves what follows. */
  lemma {:induction false} PrintedIsRead(j: Json, rest: seq<Lexeme>)
    ensures ReadJson(Print(j) + rest) == Some(Read(j, rest))
    decreases j, 1, 0
  {
    match j
    case Obj(members) => ObjectIsRead(j, rest);
    case Arr(items) => ArrayIsRead(j, rest);
    case _ => assert (Print(j) + rest)[1..] == rest;
  }

  lemma OpensArray(l: seq<Lexeme>, items: seq<Json>, rest: seq<Lexeme>)
    requires |l| > 1 && l[0].LOpenArray? && !l[1].LCloseArray? && ReadItems(l[1..]) == Some(Read(items, rest))
    ensures ReadJson(l) == Some(Read(Arr(items), rest))
  {
    hide ReadItems;
  }

  lemma OpensObject(l: seq<Lexeme>, members: seq<Member>, rest: seq<Lexeme>)
    requires |l| > 1 && l[0].LOpenObject? && !l[1].LCloseObject? && ReadMembers(l[1..]) == Some(Read(members, rest))
    ensures ReadJson(l) == Some(Read(Obj(members), rest))
  {
    hide ReadMembers;
  }

  lemma Empty(rest: seq<Lexeme>)
    ensures ReadJson([LOpenArray, LCloseArray] + rest) == Some(Read(Arr([]), rest))
    ensures ReadJson([LOpenObject, LCloseObject] + rest) == Some(Read(Obj([]), rest))
  {
    assert ([LOpenArray, LCloseArray] + rest)[2..] == rest;
    assert ([LOpenObject, LCloseObject] + rest)[2..] == rest;
  }

  lemma {:induction false} ArrayIsRead(j: Json, rest: seq<Lexeme>)
    requires j.Arr?
    ensures ReadJson(Print(j) + rest) == Some(Read(j, rest))
    decreases j, 0, |j.items| + 1
  {
    hide ReadJson, ReadItems;
    var l := Print(j) + rest;
    assert l[1..] == PrintItems(j, 0) + rest;
    if |j.items| == 0 {
      assert l == [LOpenArray, LCloseArray] + rest;
      Empty(rest);
    } else {
      ItemsAreRead(j, 0, rest);
      StartsValue(j.items[0]);
      assert PrintItems(j, 0) == ItemsFrom(j, 0);
      assert l[1] == Print(j.items[0])[0];
      assert j.items[0..] == j.items;
      OpensArray(l, j.items, rest);
    }
  }

  /** The items from the i-th on, without the separator in front. */
  function ItemsFrom(j: Json, i: nat): seq<Lexeme>
    requires j.Arr? && i < |j.items|
  {
    Print(j.items[i]) + PrintItems(j, i + 1)
  }

  lemma ItemStep(l: seq<Lexeme>, j: Json, more: seq<Lexeme>)
    requires ReadJson(l) == Some(Read(j, more)) && |more| > 0
    ensures more[0].LCloseArray? ==> ReadItems(l) == Some(Read([j], more[1..]))
    ensures more[0].LComma? && ReadItems(more[1..]).Some? ==>
      var r := ReadItems(more[1..]).value;
      ReadItems(l) == Some(Read([j] + r.value, r.rest))
  {
    hide ReadJson;
  }

  lemma {:induction false} ItemsAreRead(j: Json, i: nat, rest: seq<Lexeme>)
    requires j.Arr? && i < |j.items|
    ensures ReadItems(ItemsFrom(j, i) + rest) == Some(Read(j.items[i..], rest))
    decreases j, 0, |j.items| - i
  {
    hide ReadJson, ReadItems, Print;
    var more := PrintItems(j, i + 1) + rest;
    PrintedIsRead(j.items[i], more);
    assert ItemsFrom(j, i) + rest == Print(j.items[i]) + more;
    ItemStep(ItemsFrom(j, i) + rest, j.items[i], more);
    if i + 1 == |j.items| {
      assert more == [LCloseArray] + rest;
      assert more[1..] == rest;
      assert j.items[i..] == [j.items[i]];
    } else {
      assert PrintItems(j, i + 1) == [LComma] + ItemsFrom(j, i + 1);
      assert more[1..] == ItemsFrom(j, i + 1) + rest;
      ItemsAreRead(j, i + 1, rest);
      assert j.items[i..] == [j.items[i]] + j.items[i + 1..];
    }
  }

  /** A value does not start with a closing bracket or brace. */
  lemma StartsValue(j: Json)
    ensures |Print(j)| > 0 && !Print(j)[0].LCloseArray? && !Print(j)[0].LCloseObject?
  {
  }

  lemma {:induction false} ObjectIsRead(j: Json, rest: seq<Lexeme>)
    requires j.Obj?
    ensures ReadJson(Print(j) + rest) == Some(Read(j, rest))
    decreases j, 0, |j.members| + 1
  {
    hide ReadJson, ReadMembers;
    var l := Print(j) + rest;
    assert l[1..] == PrintMembers(j, 0) + rest;
    if |j.members| == 0 {
      assert l == [LOpenObject, LCloseObject] + rest;
      Empty(rest);
    } else {
      MembersAreRead(j, 0, rest);
      assert PrintMembers(j, 0) == MembersFrom(j, 0);
      assert l[1] == LString(j.members[0].key);
      assert j.members[0..] == j.members;
      OpensObject(l, j.members, rest);
    }
  }

  function MembersFrom(j: Json, i: nat): seq<Lexeme>
    requires j.Obj? && i < |j.members|
  {
    [LString(j.members[i].key), LColon] + Print(j.members[i].value) + PrintMembers(j, i + 1)
  }

  lemma MemberStep(l: seq<Lexeme>, m: Member, more: seq<Lexeme>)
    requires |l| >= 2 && l[0] == LString(m.key) && l[1] == LColon
    requires ReadJson(l[2..]) == Some(Read(m.value, more)) && |more| > 0
    ensures more[0].LCloseObject? ==> ReadMembers(l) == Some(Read([m], more[1..]))
    ensures more[0].LComma? && ReadMembers(more[1..]).Some? ==>
      var r := ReadMembers(more[1..]).value;
      ReadMembers(l) == Some(Read([m] + r.value, r.rest))
  {
    hide ReadJson;
  }

  lemma {:induction false} MembersAreRead(j: Json, i: nat, rest: seq<Lexeme>)
    requires j.Obj? && i < |j.members|
    ensures ReadMembers(MembersFrom(j, i) + rest) == Some(Read(j.members[i..], rest))
    decreases j, 0, |j.members| - i
  {
    hide ReadJson, ReadMembers, Print;
    var m := j.members[i];
    var more := PrintMembers(j, i + 1) + rest;
    var l := MembersFrom(j, i) + rest;
    PrintedIsRead(m.value, more);
    assert l[0] == LString(m.key) && l[1] == LColon;
    assert l[2..] == Print(m.value) + more;
    MemberStep(l, m, more);
    if i + 1 == |j.members| {
      assert more == [LCloseObject] + rest;
      assert more[1..] == rest;
      assert j.members[i..] == [m];
    } else {
      assert PrintMembers(j, i + 1) == [LComma] + MembersFrom(j, i + 1);
      assert more[1..] == MembersFrom(j, i + 1) + rest;
      MembersAreRead(j, i + 1, rest);
      assert j.members[i..] == [m] + j.members[i + 1..];
    }
  }
}
