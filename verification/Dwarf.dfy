/** Line-number programs of DWARF Version 4, section 6.2, and the ranges the parser keeps of them
    (libraries/debug_eos_vm/dwarf.cpp, parse_debug_line_unit and get_location). */
module Dwarf {
  import opened Basics
  import opened AbiTypes

  /** `opcodeLengths` has an entry for every standard opcode, `fileNames` starts with an unused one. */
  datatype Header = Header(lineBase: int, lineRange: nat, opcodeBase: nat, opcodeLengths: seq<nat>, fileNames: seq<string>)

  predicate Usable(h: Header) {
    0 < h.lineRange < 256 && 0 < h.opcodeBase < 256 && |h.opcodeLengths| == h.opcodeBase && -128 <= h.lineBase < 128
  }

  // ---------------------------------------------------------------------------------------------
  // Instructions
  // ---------------------------------------------------------------------------------------------

  /** Instructions on registers other than the address, the file and the line have no effect here. */
  datatype Instruction =
    | Copy
    | AdvancePc(n: nat)
    | AdvanceLine(d: int)
    | SetFile(n: nat)
    | ConstAddPc
    | FixedAdvancePc(n: nat)
    | Special(opcode: nat)
    | EndSequence
    | SetAddress(a: nat)
    | NoEffect

  /** Signed base 128: at most five bytes, the sign in bit 6 of the last unless all 32 bits are given. */
  function ReadSigned(bin: seq<Byte>, digits: nat): Option<(int, seq<Byte>)>
    decreases digits
  {
    if digits == 0 || |bin| == 0 then None
    else if bin[0] < 128 then
      var n: int := bin[0];
      Some((if digits > 1 && n >= 64 then n - 128 else n, bin[1..]))
    else
      match ReadSigned(bin[1..], digits - 1)
      case None => None
      case Some((n, rest)) => Some((bin[0] - 128 + 128 * n, rest))
  }

  /** Little-endian. */
  function ReadFixed(bin: seq<Byte>, size: nat): Option<(nat, seq<Byte>)>
    decreases size
  {
    if size == 0 then Some((0, bin))
    else if |bin| == 0 then None
    else
      match ReadFixed(bin[1..], size - 1)
      case None => None
      case Some((n, rest)) => Some((bin[0] + 256 * n, rest))
  }

  function SkipVaruints(bin: seq<Byte>, n: nat): Option<seq<Byte>>
    decreases n
  {
    if n == 0 then Some(bin) else
      match ReadVaruint(bin)
      case None => None
      case Some((_, rest)) => SkipVaruints(rest, n - 1)
  }

  function Operand(o: Option<(nat, seq<Byte>)>, make: nat -> Instruction): Option<(Instruction, seq<Byte>)> {
    match o
    case None => None
    case Some((n, rest)) => Some((make(n), rest))
  }

  function Extended(body: seq<Byte>): Option<Instruction> {
    if |body| == 0 then None
    else if body[0] == 1 then Some(EndSequence)
    else if body[0] == 2 then
      (match ReadFixed(body[1..], 4)
       case None => None
       case Some((a, _)) => Some(SetAddress(a)))
    else if body[0] == 4 then if ReadVaruint(body[1..]).None? then None else Some(NoEffect)
    else Some(NoEffect)
  }

  function Decode(h: Header, bin: seq<Byte>): Option<(Instruction, seq<Byte>)>
    requires Usable(h) && |bin| > 0
  {
    var op, rest := bin[0], bin[1..];
    if op == 0 then
      match ReadVaruint(rest)
      case None => None
      case Some((size, body)) =>
        if size > |body| then None else
          match Extended(body[..size])
          case None => None
          case Some(i) => Some((i, body[size..]))
    else if op >= h.opcodeBase then Some((Special(op), rest))
    else if op == 1 then Some((Copy, rest))
    else if op == 2 then Operand(ReadVaruint(rest), (n: nat) => AdvancePc(n))
    else if op == 3 then
      (match ReadSigned(rest, 5)
       case None => None
       case Some((d, after)) => Some((AdvanceLine(d), after)))
    else if op == 4 then Operand(ReadVaruint(rest), (n: nat) => SetFile(n))
    else if op == 5 || op == 12 then Operand(ReadVaruint(rest), (n: nat) => NoEffect)
    else if op == 8 then Some((ConstAddPc, rest))
    else if op == 9 then Operand(ReadFixed(rest, 2), (n: nat) => FixedAdvancePc(n))
    else if op == 6 || op == 7 || op == 10 || op == 11 then Some((NoEffect, rest))
    else
      match SkipVaruints(rest, h.opcodeLengths[op])
      case None => None
      case Some(after) => Some((NoEffect, after))
  }

  lemma DecodeConsumes(h: Header, bin: seq<Byte>)
    requires Usable(h) && |bin| > 0 && Decode(h, bin).Some?
    ensures |Decode(h, bin).value.1| < |bin|
  {
    var op, rest := bin[0], bin[1..];
    VaruintConsumes(rest);
    if op == 3 {
      SignedConsumes(rest, 5);
    } else if op == 9 {
      FixedConsumes(rest, 2);
    } else if 0 < op < h.opcodeBase {
      SkipConsumes(rest, h.opcodeLengths[op]);
    }
  }

  lemma {:induction false} DigitsConsume(bin: seq<Byte>, digits: nat)
    ensures var r := ReadDigits(bin, digits); r.Some? ==> |r.value.1| < |bin|
    decreases digits
  {
    if digits > 0 && |bin| > 0 {
      DigitsConsume(bin[1..], digits - 1);
    }
  }

  lemma VaruintConsumes(bin: seq<Byte>)
    ensures var r := ReadVaruint(bin); r.Some? ==> |r.value.1| < |bin|
  {
    DigitsConsume(bin, 5);
  }

  lemma {:induction false} SignedConsumes(bin: seq<Byte>, digits: nat)
    ensures var r := ReadSigned(bin, digits); r.Some? ==> |r.value.1| < |bin|
    decreases digits
  {
    if digits > 0 && |bin| > 0 {
      SignedConsumes(bin[1..], digits - 1);
    }
  }

  lemma {:induction false} FixedConsumes(bin: seq<Byte>, size: nat)
    ensures var r := ReadFixed(bin, size); r.Some? ==> |r.value.1| <= |bin|
    decreases size
  {
    if size > 0 && |bin| > 0 {
      FixedConsumes(bin[1..], size - 1);
    }
  }

  lemma {:induction false} SkipConsumes(bin: seq<Byte>, n: nat)
    ensures var r := SkipVaruints(bin, n); r.Some? ==> |r.value| <= |bin|
    decreases n
  {
    if n > 0 && ReadVaruint(bin).Some? {
      VaruintConsumes(bin);
      SkipConsumes(ReadVaruint(bin).value.1, n - 1);
    }
  }

  // ---------------------------------------------------------------------------------------------
  // The plain row matrix
  // ---------------------------------------------------------------------------------------------

  datatype Registers = Registers(address: nat, file: nat, line: nat)

  const INITIAL := Registers(0, 1, 1)

  datatype Row = Row(address: nat, file: nat, line: nat, end: bool)

  /** The registers after an instruction, and the row it appends, if any. All registers have 32 bits. */
  function Execute(h: Header, r: Registers, i: Instruction): (Registers, seq<Row>)
    requires Usable(h)
  {
    match i
    case Copy => (r, [Row(r.address, r.file, r.line, false)])
    case AdvancePc(n) => (r.(address := (r.address + n) % TWO32), [])
    case AdvanceLine(d) => (r.(line := (r.line + d) % TWO32), [])
    case SetFile(n) => (r.(file := n), [])
    case ConstAddPc => (r.(address := (r.address + (255 - h.opcodeBase) / h.lineRange) % TWO32), [])
    case FixedAdvancePc(n) => (r.(address := (r.address + n) % TWO32), [])
    case Special(opcode) =>
      var adjusted: nat := if opcode >= h.opcodeBase then opcode - h.opcodeBase else 0;
      var next := Registers((r.address + adjusted / h.lineRange) % TWO32, r.file,
                            (r.line + h.lineBase + adjusted % h.lineRange) % TWO32);
      (next, [Row(next.address, next.file, next.line, false)])
    case EndSequence => (INITIAL, [Row(r.address, r.file, r.line, true)])
    case SetAddress(a) => (r.(address := a), [])
    case NoEffect => (r, [])
  }

  /** The rows of a program, or none when it is malformed. */
  function Rows(h: Header, r: Registers, bin: seq<Byte>): Option<seq<Row>>
    requires Usable(h)
    decreases |bin|
  {
    if |bin| == 0 then Some([]) else
      match Decode(h, bin)
      case None => None
      case Some((i, rest)) =>
        DecodeConsumes(h, bin);
        var (next, rows) := Execute(h, r, i);
        match Rows(h, next, rest)
        case None => None
        case Some(more) => Some(rows + more)
  }

  /** What a reader of the matrix finds at an address of a sequence that ends at `end`: the last row
      at or before it, unless its line is 0. */
  function RowAt(rows: seq<Row>, end: nat, address: nat): Option<(nat, nat)> {
    if |rows| == 0 then None else
      var last := rows[|rows| - 1];
      if last.address <= address then
        if address < end && last.line != 0 then Some((last.file, last.line)) else None
      else RowAt(rows[..|rows| - 1], end, address)
  }

  // ---------------------------------------------------------------------------------------------
  // Coalescing
  // ---------------------------------------------------------------------------------------------

  datatype Location = Location(begin: nat, end: nat, file: nat, line: nat)

  /** `begin` is the address of the first row of the sequence. */
  datatype Builder = Builder(begin: Option<nat>, current: Option<Location>, done: seq<Location>)

  predicate ValidStart(begin: nat) {
    0 < begin < 0xFFFF_FFFF
  }

  /** The running range ends. */
  function Closed(b: Builder, address: nat): seq<Location>
    requires b.begin.Some? && b.current.Some?
  {
    if ValidStart(b.begin.value) && b.current.value.line != 0 then b.done + [b.current.value.(end := address)] else b.done
  }

  /** add_row. */
  function AddRow(b: Builder, r: Row): Builder {
    var begun := if b.begin.None? then b.(begin := Some(r.address)) else b;
    var closing := begun.current.Some? && (r.end || r.file != begun.current.value.file || r.line != begun.current.value.line);
    var after := if closing then begun.(current := None, done := Closed(begun, r.address)) else begun;
    var opened' := if !r.end && after.current.None? then after.(current := Some(Location(r.address, r.address, r.file, r.line))) else after;
    if r.end then opened'.(begin := None) else opened'
  }

  function AddRows(b: Builder, rows: seq<Row>): Builder {
    if |rows| == 0 then b else AddRow(AddRows(b, rows[..|rows| - 1]), rows[|rows| - 1])
  }

  /** get_location: the last range that begins at or before the address, if it contains it. */
  function Find(l: seq<Location>, address: nat): Option<Location> {
    if |l| == 0 then None else
      var last := l[|l| - 1];
      if last.begin <= address then if address < last.end then Some(last) else None
      else Find(l[..|l| - 1], address)
  }

  function FileAndLine(o: Option<Location>): Option<(nat, nat)> {
    match o
    case None => None
    case Some(l) => Some((l.file, l.line))
  }

  predicate NonDecreasing(rows: seq<Row>) {
    forall i, j | 0 <= i < j < |rows| :: rows[i].address <= rows[j].address
  }

  predicate NoEnd(rows: seq<Row>) {
    forall i | 0 <= i < |rows| :: !rows[i].end
  }

  predicate Within(l: seq<Location>, end: nat) {
    forall i | 0 <= i < |l| :: l[i].begin <= l[i].end <= end
  }

  /** What is known while the rows of a sequence are added, after at least one row. */
  ghost predicate Tracks(b: Builder, base: seq<Location>, rows: seq<Row>) {
    && |rows| > 0 && b.begin == Some(rows[0].address) && b.current.Some?
    && var last := rows[|rows| - 1];
       && b.current.value.file == last.file && b.current.value.line == last.line && b.current.value.begin <= last.address
       && base <= b.done
       && Within(b.done[|base|..], b.current.value.begin)
       && (ValidStart(rows[0].address) ==>
             forall end: nat, a: nat | last.address <= end :: FileAndLine(Find(Closed(b, end)[|base|..], a)) == RowAt(rows, end, a))
       && (!ValidStart(rows[0].address) ==> b.done == base)
  }

  // ---------------------------------------------------------------------------------------------
  // Coalescing preserves meaning
  // ---------------------------------------------------------------------------------------------

  lemma LastBefore(rows: seq<Row>, r: Row)
    requires |rows| > 0 && NonDecreasing(rows + [r])
    ensures NonDecreasing(rows) && rows[|rows| - 1].address <= r.address
  {
    var all := rows + [r];
    assert all[|rows| - 1].address <= all[|rows|].address;
    forall i, j | 0 <= i < j < |rows| ensures rows[i].address <= rows[j].address {
      assert all[i].address <= all[j].address;
    }
  }

  lemma {:induction false} RowAtBelow(rows: seq<Row>, r: Row, end: nat, a: nat)
    requires |rows| > 0 && NonDecreasing(rows + [r]) && a < r.address <= end
    ensures RowAt(rows + [r], end, a) == RowAt(rows, r.address, a)
    decreases |rows|
  {
    assert (rows + [r])[..|rows|] == rows;
    EndMatters(rows, r.address, end, a);
  }

  /** Only whether the address is before the end matters. */
  lemma {:induction false} EndMatters(rows: seq<Row>, e: nat, f: nat, a: nat)
    requires (a < e) == (a < f)
    ensures RowAt(rows, e, a) == RowAt(rows, f, a)
    decreases |rows|
  {
    if |rows| > 0 {
      EndMatters(rows[..|rows| - 1], e, f, a);
    }
  }

  lemma {:induction false} FindNothing(l: seq<Location>, end: nat, a: nat)
    requires Within(l, end) && end <= a
    ensures Find(l, a) == None
    decreases |l|
  {
    if |l| > 0 {
      FindNothing(l[..|l| - 1], end, a);
    }
  }

  lemma FindLast(l: seq<Location>, x: Location, a: nat)
    ensures Find(l + [x], a) == if x.begin <= a then (if a < x.end then Some(x) else None) else Find(l, a)
  {
    assert (l + [x])[..|l|] == l;
  }

  /** The first row of a sequence opens a range. */
  lemma FirstRow(base: seq<Location>, r: Row)
    requires !r.end
    ensures Tracks(AddRow(Builder(None, None, base), r), base, [r])
  {
    var b := AddRow(Builder(None, None, base), r);
    assert base[|base|..] == [];
    if ValidStart(r.address) {
      forall end: nat, a: nat | r.address <= end ensures FileAndLine(Find(Closed(b, end)[|base|..], a)) == RowAt([r], end, a) {
        if r.line != 0 {
          assert Closed(b, end)[|base|..] == [b.current.value.(end := end)];
        }
      }
    }
  }

  /** A row with the same file and line as the last one changes nothing. */
  lemma SameRow(b: Builder, base: seq<Location>, rows: seq<Row>, r: Row)
    requires Tracks(b, base, rows) && !r.end && NonDecreasing(rows + [r])
    requires r.file == b.current.value.file && r.line == b.current.value.line
    ensures Tracks(AddRow(b, r), base, rows + [r])
  {
    LastBefore(rows, r);
    if ValidStart(rows[0].address) {
      forall end: nat, a: nat | r.address <= end ensures FileAndLine(Find(Closed(b, end)[|base|..], a)) == RowAt(rows + [r], end, a) {
        assert (rows + [r])[..|rows|] == rows;
        SameMeaning(rows, r, end, a);
      }
    }
  }

  lemma SameMeaning(rows: seq<Row>, r: Row, end: nat, a: nat)
    requires |rows| > 0 && rows[|rows| - 1].file == r.file && rows[|rows| - 1].line == r.line
    requires rows[|rows| - 1].address <= r.address
    ensures RowAt(rows + [r], end, a) == RowAt(rows, end, a)
  {
    assert (rows + [r])[..|rows|] == rows;
  }

  /** A row with another file or line ends the range and opens the next. */
  lemma OtherRow(b: Builder, base: seq<Location>, rows: seq<Row>, r: Row)
    requires Tracks(b, base, rows) && !r.end && NonDecreasing(rows + [r])
    requires r.file != b.current.value.file || r.line != b.current.value.line
    ensures Tracks(AddRow(b, r), base, rows + [r])
  {
    LastBefore(rows, r);
    var b' := AddRow(b, r);
    ClosedWithin(b, base, r.address);
    if ValidStart(rows[0].address) {
      var done := b'.done[|base|..];
      assert b'.done == Closed(b, r.address);
      forall end: nat, a: nat | r.address <= end ensures FileAndLine(Find(Closed(b', end)[|base|..], a)) == RowAt(rows + [r], end, a) {
        if r.line != 0 {
          assert Closed(b', end)[|base|..] == done + [b'.current.value.(end := end)];
          FindLast(done, b'.current.value.(end := end), a);
        }
        if a < r.address {
          RowAtBelow(rows, r, end, a);
        } else {
          FindNothing(done, r.address, a);
        }
      }
    }
  }

  lemma ClosedWithin(b: Builder, base: seq<Location>, end: nat)
    requires b.begin.Some? && b.current.Some? && base <= b.done
    requires Within(b.done[|base|..], b.current.value.begin) && b.current.value.begin <= end
    ensures base <= Closed(b, end) && Within(Closed(b, end)[|base|..], end)
  {
    if Closed(b, end) != b.done {
      assert Closed(b, end)[|base|..] == b.done[|base|..] + [b.current.value.(end := end)];
    }
  }

  lemma {:induction false} Tracked(base: seq<Location>, rows: seq<Row>)
    requires |rows| > 0 && NonDecreasing(rows) && NoEnd(rows)
    ensures Tracks(AddRows(Builder(None, None, base), rows), base, rows)
    decreases |rows|
  {
    hide Tracks;
    var n := |rows| - 1;
    if n == 0 {
      assert rows == [rows[0]];
      assert AddRows(Builder(None, None, base), []) == Builder(None, None, base);
      FirstRow(base, rows[0]);
    } else {
      Tracked(base, rows[..n]);
      assert rows[..n] + [rows[n]] == rows;
      var b := AddRows(Builder(None, None, base), rows[..n]);
      CurrentIs(b, base, rows[..n]);
      if rows[n].file == b.current.value.file && rows[n].line == b.current.value.line {
        SameRow(b, base, rows[..n], rows[n]);
      } else {
        OtherRow(b, base, rows[..n], rows[n]);
      }
    }
  }

  lemma CurrentIs(b: Builder, base: seq<Location>, rows: seq<Row>)
    requires Tracks(b, base, rows)
    ensures b.current.Some? && b.begin.Some?
  {
  }

  /** A whole sequence: looking up any address in the ranges that were added finds what the matrix
      says. A sequence with an invalid start adds nothing. */
  lemma SequencePreserved(base: seq<Location>, rows: seq<Row>, end: Row)
    requires |rows| > 0 && NonDecreasing(rows + [end]) && NoEnd(rows) && end.end
    ensures var b := AddRows(Builder(None, None, base), rows + [end]);
      && b.begin == None && b.current == None && base <= b.done
      && (rows[0].address == 0 || rows[0].address >= 4294967295 ==> b.done == base)
      && (0 < rows[0].address < 4294967295 ==>
            forall a: nat :: FileAndLine(Find(b.done[|base|..], a)) == RowAt(rows, end.address, a))
  {
    LastBefore(rows, end);
    Tracked(base, rows);
    assert (rows + [end])[..|rows|] == rows;
    var b := AddRows(Builder(None, None, base), rows);
    assert AddRow(b, end).done == Closed(b, end.address);
    ClosedWithin(b, base, end.address);
  }

  // ---------------------------------------------------------------------------------------------
  // The parser
  // ---------------------------------------------------------------------------------------------

  predicate Closes(b: Builder, r: Row) {
    b.current.Some? && (r.end || r.file != b.current.value.file || r.line != b.current.value.line)
  }

  /** A range that ends must have a file of the header. */
  function CheckedRow(h: Header, b: Builder, r: Row): Option<Builder> {
    if Closes(b, r) && b.current.value.file >= |h.fileNames| then None else Some(AddRow(b, r))
  }

  function CheckedRows(h: Header, b: Builder, rows: seq<Row>): Option<Builder>
    decreases |rows|
  {
    if |rows| == 0 then Some(b) else
      match CheckedRow(h, b, rows[0])
      case None => None
      case Some(b') => CheckedRows(h, b', rows[1..])
  }

  /** All the ranges of a unit with the file numbers of its header. */
  function Unit(h: Header, bin: seq<Byte>): Option<seq<Location>>
    requires Usable(h)
  {
    match Rows(h, INITIAL, bin)
    case None => None
    case Some(rows) =>
      match CheckedRows(h, Builder(None, None, []), rows)
      case None => None
      case Some(b) => Some(b.done)
  }

  /** A unit is its rows, coalesced. */
  lemma {:induction false} CheckedIsAdded(h: Header, b: Builder, rows: seq<Row>)
    ensures CheckedRows(h, b, rows).Some? ==> CheckedRows(h, b, rows).value == AddRows(b, rows)
    decreases |rows|
  {
    hide AddRow;
    if |rows| > 0 && CheckedRow(h, b, rows[0]).Some? {
      CheckedIsAdded(h, CheckedRow(h, b, rows[0]).value, rows[1..]);
      AddFirst(b, rows);
    }
  }

  lemma {:induction false} AddFirst(b: Builder, rows: seq<Row>)
    requires |rows| > 0
    ensures AddRows(b, rows) == AddRows(AddRow(b, rows[0]), rows[1..])
    decreases |rows|
  {
    hide AddRow;
    if |rows| > 1 {
      var init := rows[..|rows| - 1];
      AddFirst(b, init);
      assert rows[1..][..|rows| - 2] == init[1..];
    } else {
      assert rows[..0] == [];
    }
  }

  /** The units' ranges with file numbers resolved: `index` is the inverse of `names`. */
  class LineTable {
    var names: seq<string>
    var index: map<string, nat>
    var locations: seq<Location>

    ghost predicate Valid()
      reads this
    {
      && (forall f | f in index :: index[f] < |names| && names[index[f]] == f)
      && (forall i | 0 <= i < |locations| :: locations[i].file < |names|)
    }

    constructor ()
      ensures Valid() && locations == [] && names == []
    {
      names, index, locations := [], map[], [];
    }

    /** The number of a file name in the table; a new name is appended. */
    method FileIndex(name: string) returns (k: nat)
      requires Valid()
      modifies this`names, this`index
      ensures Valid() && old(names) <= names && k < |names| && names[k] == name
    {
      if name !in index {
        index := index[name := |names|];
        names := names + [name];
      }
      k := index[name];
    }

    /** The ranges from `from` on are `raw` with the names of the header. */
    ghost predicate Resolves(h: Header, from: nat, raw: seq<Location>)
      reads this
    {
      && |locations| == from + |raw|
      && forall i | 0 <= i < |raw| :: Resolved(h, names, raw[i], locations[from + i])
    }

    /** add_row in its place: `current` and `begin` belong to the running sequence. */
    method AddTableRow(h: Header, begin: Option<nat>, current: Option<Location>, r: Row, ghost from: nat, ghost b: Builder)
      returns (ok: bool, begin': Option<nat>, current': Option<Location>)
      requires Valid() && from <= |locations| && Resolves(h, from, b.done) && b.begin == begin && b.current == current
      modifies this
      ensures ok <==> CheckedRow(h, b, r).Some?
      ensures ok ==> Valid() && from <= |locations| && old(names) <= names && old(locations) <= locations
      ensures ok ==> var a := AddRow(b, r); Resolves(h, from, a.done) && a.begin == begin' && a.current == current'
    {
      begin', current' := begin, current;
      if begin'.None? {
        begin' := Some(r.address);
      }
      if current.Some? && (r.end || r.file != current.value.file || r.line != current.value.line) {
        if current.value.file >= |h.fileNames| {
          return false, begin', current';
        }
        var k := FileIndex(h.fileNames[current.value.file]);
        if 0 < begin'.value < 0xFFFF_FFFF && current.value.line != 0 {
          locations := locations + [Location(current.value.begin, r.address, k, current.value.line)];
        }
        current' := None;
      }
      if !r.end && current'.None? {
        current' := Some(Location(r.address, r.address, r.file, r.line));
      }
      if r.end {
        begin' := None;
      }
      ok := true;
    }

    /** parse_debug_line_unit after its header. */
    method ParseUnit(h: Header, program: seq<Byte>) returns (ok: bool)
      requires Valid() && Usable(h)
      modifies this
      ensures ok <==> Unit(h, program).Some?
      ensures ok ==> Valid() && old(names) <= names && old(locations) <= locations
      ensures ok ==> Resolves(h, |old(locations)|, Unit(h, program).value)
    {
      hide Decode, Execute, AddRow;
      var bin, state := program, INITIAL;
      var begin: Option<nat>, current: Option<Location> := None, None;
      ghost var b := Builder(None, None, []);
      ghost var from := |locations|;
      while |bin| > 0
        invariant Valid() && from <= |locations| && old(names) <= names && old(locations) <= locations
        invariant Resolves(h, from, b.done) && b.begin == begin && b.current == current
        invariant Unit(h, program) == UnitFrom(h, b, state, bin)
        decreases |bin|
      {
        UnitStep(h, b, state, bin);
        var step := Decode(h, bin);
        if step.None? {
          return false;
        }
        DecodeConsumes(h, bin);
        var (next, rows) := Execute(h, state, step.value.0);
        OneRow(h, state, step.value.0);
        if |rows| == 1 {
          ghost var checked := CheckedRow(h, b, rows[0]);
          ok, begin, current := AddTableRow(h, begin, current, rows[0], from, b);
          if !ok {
            return;
          }
          b := AddRow(b, rows[0]);
        }
        state, bin := next, step.value.1;
      }
      ok := true;
    }
  }

  predicate Resolved(h: Header, names: seq<string>, raw: Location, l: Location) {
    && raw.file < |h.fileNames| && l.file < |names| && names[l.file] == h.fileNames[raw.file]
    && l.begin == raw.begin && l.end == raw.end && l.line == raw.line
  }

  /** The rest of a unit. */
  function UnitFrom(h: Header, b: Builder, r: Registers, bin: seq<Byte>): Option<seq<Location>>
    requires Usable(h)
  {
    match Rows(h, r, bin)
    case None => None
    case Some(rows) =>
      match CheckedRows(h, b, rows)
      case None => None
      case Some(b') => Some(b'.done)
  }

  lemma OneRow(h: Header, r: Registers, i: Instruction)
    requires Usable(h)
    ensures |Execute(h, r, i).1| <= 1
  {
  }

  lemma UnitStep(h: Header, b: Builder, r: Registers, bin: seq<Byte>)
    requires Usable(h) && |bin| > 0
    ensures match Decode(h, bin)
      case None => UnitFrom(h, b, r, bin) == None
      case Some((i, rest)) =>
        var (next, rows) := Execute(h, r, i);
        if |rows| == 0 then UnitFrom(h, b, r, bin) == UnitFrom(h, b, next, rest)
        else if CheckedRow(h, b, rows[0]).None? then UnitFrom(h, b, r, bin) == None
        else UnitFrom(h, b, r, bin) == UnitFrom(h, CheckedRow(h, b, rows[0]).value, next, rest)
  {
    hide Decode, Execute, AddRow, CheckedRow;
    if Decode(h, bin).Some? {
      var (i, rest) := Decode(h, bin).value;
      DecodeConsumes(h, bin);
      OneRow(h, r, i);
      var (next, rows) := Execute(h, r, i);
      var more := Rows(h, next, rest);
      if more.Some? {
        if |rows| == 0 {
          assert rows + more.value == more.value;
        } else {
          assert (rows + more.value)[1..] == more.value;
        }
      }
    }
  }

  // ---------------------------------------------------------------------------------------------
  // Several sequences
  // ---------------------------------------------------------------------------------------------

  /** Rows up to and including the one that ends the sequence. */
  datatype Sequence = Sequence(rows: seq<Row>, end: Row)

  function Start(s: Sequence): nat {
    if |s.rows| > 0 then s.rows[0].address else s.end.address
  }

  /** Addresses matter only in a sequence with a valid start; the others are dropped. */
  ghost predicate Ordered(s: Sequence) {
    && NoEnd(s.rows) && s.end.end
    && (ValidStart(Start(s)) ==> NonDecreasing(s.rows + [s.end]))
  }

  ghost predicate OrderedRows(rows: seq<Row>) {
    NoEnd(rows) && (|rows| > 0 && ValidStart(rows[0].address) ==> NonDecreasing(rows))
  }

  lemma {:induction false} DroppedRows(rows: seq<Row>)
    requires |rows| > 0 && NoEnd(rows) && !ValidStart(rows[0].address)
    ensures var b := AddRows(Builder(None, None, []), rows);
      b.begin == Some(rows[0].address) && b.current.Some? && b.done == []
    decreases |rows|
  {
    var n := |rows| - 1;
    if n == 0 {
      assert rows[..0] == [];
    } else {
      DroppedRows(rows[..n]);
    }
  }

  /** The builder after a whole sequence; one with an invalid start, or without rows, has no ranges. */
  lemma SequenceAdds(s: Sequence)
    requires Ordered(s)
    ensures AddRows(Builder(None, None, []), s.rows + [s.end]) == Builder(None, None, RangesOf(s))
    ensures Meaning(s)
  {
    AddLast(Builder(None, None, []), s.rows, s.end);
    if |s.rows| == 0 {
      NothingAdded(Builder(None, None, []));
    } else if ValidStart(Start(s)) {
      var empty: seq<Location> := [];
      SequencePreserved(empty, s.rows, s.end);
      WholeRanges(RangesOf(s));
    } else {
      DroppedRows(s.rows);
    }
  }

  function AllRows(ss: seq<Sequence>): seq<Row> {
    if |ss| == 0 then [] else AllRows(ss[..|ss| - 1]) + (ss[|ss| - 1].rows + [ss[|ss| - 1].end])
  }

  /** The ranges of one sequence. */
  function RangesOf(s: Sequence): seq<Location> {
    AddRows(Builder(None, None, []), s.rows + [s.end]).done
  }

  function AllRanges(ss: seq<Sequence>): seq<Location> {
    if |ss| == 0 then [] else AllRanges(ss[..|ss| - 1]) + RangesOf(ss[|ss| - 1])
  }

  lemma {:induction false} AddRowsMore(b: Builder, p: seq<Row>, q: seq<Row>)
    ensures AddRows(b, p + q) == AddRows(AddRows(b, p), q)
    decreases |q|
  {
    hide AddRow;
    if |q| == 0 {
      assert p + q == p;
    } else {
      assert (p + q)[..|p + q| - 1] == p + q[..|q| - 1];
      AddRowsMore(b, p, q[..|q| - 1]);
    }
  }

  /** Ranges that are done stay as they are. */
  lemma {:induction false} DoneStays(base: seq<Location>, b: Builder, rows: seq<Row>)
    ensures var x := AddRows(b, rows);
      AddRows(Builder(b.begin, b.current, base + b.done), rows) == Builder(x.begin, x.current, base + x.done)
    decreases |rows|
  {
    if |rows| > 0 {
      DoneStays(base, b, rows[..|rows| - 1]);
      DoneStep(base, AddRows(b, rows[..|rows| - 1]), rows[|rows| - 1]);
    }
  }

  lemma DoneStep(base: seq<Location>, b: Builder, r: Row)
    ensures var x := AddRow(b, r);
      AddRow(Builder(b.begin, b.current, base + b.done), r) == Builder(x.begin, x.current, base + x.done)
  {
    if b.current.Some? {
      var l := b.current.value.(end := r.address);
      assert (base + b.done) + [l] == base + (b.done + [l]);
    }
  }

  /** The first of the last rows that share file and line. */
  function RunStart(rows: seq<Row>): (k: nat)
    requires |rows| > 0
    ensures k < |rows|
  {
    var n := |rows| - 1;
    if n > 0 && rows[n].file == rows[n - 1].file && rows[n].line == rows[n - 1].line then RunStart(rows[..n]) else n
  }

  function EndAt(address: nat): Row {
    Row(address, 1, 1, true)
  }

  /** The sequences of a program whose last rows are not followed by an end: their last run is dropped, as if
      the sequence ended where that run begins. */
  function Finished(ss: seq<Sequence>, open: seq<Row>): seq<Sequence> {
    if |open| == 0 || RunStart(open) == 0 then ss
    else ss + [Sequence(open[..RunStart(open)], EndAt(open[RunStart(open)].address))]
  }

  ghost predicate OpenIs(b: Builder, rows: seq<Row>)
    requires |rows| > 0
  {
    var k := RunStart(rows);
    && b.begin == Some(rows[0].address)
    && b.current == Some(Location(rows[k].address, rows[k].address, rows[k].file, rows[k].line))
    && rows[k].file == rows[|rows| - 1].file && rows[k].line == rows[|rows| - 1].line
    && b.done == if k == 0 then [] else AddRows(Builder(None, None, []), rows[..k] + [EndAt(rows[k].address)]).done
  }

  lemma {:induction false} OpenRows(rows: seq<Row>)
    requires |rows| > 0 && NoEnd(rows)
    ensures OpenIs(AddRows(Builder(None, None, []), rows), rows)
    decreases |rows|
  {
    var n := |rows| - 1;
    if n == 0 {
      NoRows();
      assert rows[..0] == [];
    } else {
      var init := rows[..n];
      OpenRows(init);
      OpenStep(AddRows(Builder(None, None, []), init), init, rows[n]);
      assert init + [rows[n]] == rows;
    }
  }

  lemma OpenStep(b: Builder, rows: seq<Row>, r: Row)
    requires |rows| > 0 && OpenIs(b, rows) && b == AddRows(Builder(None, None, []), rows) && !r.end
    ensures OpenIs(AddRow(b, r), rows + [r])
  {
    hide AddRows;
    var all, last := rows + [r], rows[|rows| - 1];
    RunMore(rows, r);
    if r.file == last.file && r.line == last.line {
      assert all[..RunStart(rows)] == rows[..RunStart(rows)];
    } else {
      AddLast(Builder(None, None, []), rows, EndAt(r.address));
      ChangeEnds(b, r);
      assert all[..|rows|] == rows;
    }
  }

  lemma RunMore(rows: seq<Row>, r: Row)
    requires |rows| > 0
    ensures var last := rows[|rows| - 1];
      RunStart(rows + [r]) == if r.file == last.file && r.line == last.line then RunStart(rows) else |rows|
  {
    assert (rows + [r])[..|rows|] == rows;
  }

  /** A change of file or line ends the running range just as the end of the sequence does. */
  lemma ChangeEnds(b: Builder, r: Row)
    requires b.begin.Some? && b.current.Some? && !r.end && (r.file != b.current.value.file || r.line != b.current.value.line)
    ensures var next := AddRow(b, r);
      && next.begin == b.begin && next.current == Some(Location(r.address, r.address, r.file, r.line))
      && next.done == AddRow(b, EndAt(r.address)).done
  {
  }

  lemma AddLast(b: Builder, rows: seq<Row>, r: Row)
    ensures AddRows(b, rows + [r]) == AddRow(AddRows(b, rows), r)
  {
    assert (rows + [r])[..|rows|] == rows;
  }

  lemma FinishedOrdered(ss: seq<Sequence>, open: seq<Row>)
    requires (forall i | 0 <= i < |ss| :: Ordered(ss[i])) && OrderedRows(open)
    ensures forall i | 0 <= i < |Finished(ss, open)| :: Ordered(Finished(ss, open)[i])
  {
  }

  /** The ranges of a program are the ranges of its sequences, and each of these is the meaning of
      its part of the matrix. Rows without an end count up to the beginning of their last run. */
  lemma ProgramPreserved(ss: seq<Sequence>, open: seq<Row>)
    requires (forall i | 0 <= i < |ss| :: Ordered(ss[i])) && OrderedRows(open)
    ensures AddRows(Builder(None, None, []), AllRows(ss) + open).done == AllRanges(Finished(ss, open))
    ensures forall i | 0 <= i < |Finished(ss, open)| :: Meaning(Finished(ss, open)[i])
  {
    hide AddRows, RowAt, Ordered, OrderedRows, RangesOf, Meaning;
    OpenHasNoEnd(open);
    var all := Finished(ss, open);
    FinishedOrdered(ss, open);
    SequencesPreserved(all);
    SequencesPreserved(ss);
    AddRowsMore(Builder(None, None, []), AllRows(ss), open);
    if |open| == 0 {
      NothingAdded(Builder(None, None, AllRanges(ss)));
      assert open == [];
    } else {
      OpenRows(open);
      var empty: seq<Location> := [];
      DoneStays(AllRanges(ss), Builder(None, None, empty), open);
      assert AllRanges(ss) + empty == AllRanges(ss);
      if RunStart(open) > 0 {
        assert all[..|ss|] == ss;
        RangesAre(all[|ss|]);
      }
    }
  }

  lemma OpenHasNoEnd(open: seq<Row>)
    requires OrderedRows(open)
    ensures NoEnd(open)
  {
  }

  lemma RangesAre(s: Sequence)
    ensures RangesOf(s) == AddRows(Builder(None, None, []), s.rows + [s.end]).done
  {
  }

  lemma NothingAdded(b: Builder)
    ensures AddRows(b, []) == b
  {
  }

  /** Looking up an address in the ranges of a sequence finds what the matrix says; a sequence with an invalid
      start has no ranges. */
  ghost predicate Meaning(s: Sequence) {
    if ValidStart(Start(s)) then forall a: nat :: FileAndLine(Find(RangesOf(s), a)) == RowAt(s.rows, s.end.address, a)
    else RangesOf(s) == []
  }

  lemma {:induction false} SequencesPreserved(ss: seq<Sequence>)
    requires forall i | 0 <= i < |ss| :: Ordered(ss[i])
    ensures AddRows(Builder(None, None, []), AllRows(ss)) == Builder(None, None, AllRanges(ss))
    ensures forall i | 0 <= i < |ss| :: Meaning(ss[i])
    decreases |ss|
  {
    hide AddRows, RowAt, Ordered, RangesOf, Meaning;
    if |ss| == 0 {
      NoRows();
    } else {
      var n := |ss| - 1;
      SequencesPreserved(ss[..n]);
      var last := ss[n].rows + [ss[n].end];
      AddRowsMore(Builder(None, None, []), AllRows(ss[..n]), last);
      SequenceAdds(ss[n]);
      var empty: seq<Location> := [];
      DoneStays(AllRanges(ss[..n]), Builder(None, None, empty), last);
      assert AllRanges(ss[..n]) + empty == AllRanges(ss[..n]);
    }
  }

  lemma NoRows()
    ensures AddRows(Builder(None, None, []), []) == Builder(None, None, [])
  {
  }

  lemma WholeRanges(l: seq<Location>)
    ensures l[0..] == l
  {
  }

  // ---------------------------------------------------------------------------------------------
  // Looking up an address in the sorted table
  // ---------------------------------------------------------------------------------------------

  predicate Sorted(l: seq<Location>) {
    forall i, j | 0 <= i < j < |l| :: l[i].begin <= l[j].begin
  }

  lemma {:induction false} FindBefore(l: seq<Location>, k: nat, a: nat)
    requires k <= |l| && forall i | k <= i < |l| :: l[i].begin > a
    ensures Find(l, a) == Find(l[..k], a)
    decreases |l|
  {
    if k < |l| {
      FindBefore(l[..|l| - 1], k, a);
      assert l[..|l| - 1][..k] == l[..k];
    } else {
      assert l[..k] == l;
    }
  }

  /** get_location: a binary search for the first range that begins later. */
  method GetLocation(l: seq<Location>, address: nat) returns (r: Option<Location>)
    requires Sorted(l)
    ensures r == Find(l, address)
  {
    var lo, hi := 0, |l|;
    while lo < hi
      invariant 0 <= lo <= hi <= |l|
      invariant forall i | 0 <= i < lo :: l[i].begin <= address
      invariant forall i | hi <= i < |l| :: l[i].begin > address
    {
      var mid := (lo + hi) / 2;
      if address < l[mid].begin {
        hi := mid;
      } else {
        lo := mid + 1;
      }
    }
    FindBefore(l, lo, address);
    if lo > 0 && address < l[lo - 1].end {
      return Some(l[lo - 1]);
    }
    r := None;
  }
}
