/** What the instructions of a line-number program mean, from their bytes: sections 6.2.5 and 7.6 of DWARF Version 4
    (libraries/debug_eos_vm/dwarf.cpp, parse_debug_line_unit). */
module DwarfProgram {
  import opened Basics
  import opened Powers
  import opened AbiTypes
  import opened Dwarf

  /** The rows of an instruction before those of the rest of a program. */
  function Then(rows: seq<Row>, more: Option<seq<Row>>): Option<seq<Row>> {
    match more
    case None => None
    case Some(m) => Some(rows + m)
  }

  lemma RowsDecoded(h: Header, r: Registers, bin: seq<Byte>, i: Instruction, rest: seq<Byte>)
    requires Usable(h) && |bin| > 0 && Decode(h, bin) == Some((i, rest))
    ensures Rows(h, r, bin) == var (next, rows) := Execute(h, r, i); Then(rows, Rows(h, next, rest))
  {
    hide Decode, Execute;
    DecodeConsumes(h, bin);
  }

  lemma Silent(h: Header, r: Registers, bin: seq<Byte>, i: Instruction, rest: seq<Byte>, next: Registers)
    requires Usable(h) && |bin| > 0 && Decode(h, bin) == Some((i, rest)) && Execute(h, r, i) == (next, [])
    ensures Rows(h, r, bin) == Rows(h, next, rest)
  {
    hide Decode, Execute;
    RowsDecoded(h, r, bin, i, rest);
    if Rows(h, next, rest).Some? {
      assert [] + Rows(h, next, rest).value == Rows(h, next, rest).value;
    }
  }

  lemma ExecutesLine(h: Header, r: Registers, n: int)
    requires Usable(h)
    ensures Execute(h, r, AdvanceLine(n)) == (r.(line := (r.line + n) % 0x1_0000_0000), [])
  {
  }

  lemma ExecutesAddress(h: Header, r: Registers, n: nat)
    requires Usable(h)
    ensures Execute(h, r, FixedAdvancePc(n)) == (r.(address := (r.address + n) % 0x1_0000_0000), [])
    ensures Execute(h, r, AdvancePc(n)) == (r.(address := (r.address + n) % 0x1_0000_0000), [])
  {
  }

  // ---------------------------------------------------------------------------------------------
  // Opcodes that depend on the header
  // ---------------------------------------------------------------------------------------------

  lemma QuotientIs(n: nat, d: nat, q: nat, rem: nat)
    requires d > 0 && rem < d && n == rem + d * q
    ensures n / d == q && n % d == rem
  {
    DivUnique(n, d, q);
    assert n == n / d * d + n % d;
  }

  /** The advances of address and line that a special opcode stands for. */
  predicate Encodes(h: Header, opcode: int, a: nat, l: int) {
    opcode == h.opcodeBase + (l - h.lineBase) + h.lineRange * a && 0 <= l - h.lineBase < h.lineRange
  }

  lemma SpecialExecutes(h: Header, r: Registers, op: Byte, a: nat, l: int)
    requires Usable(h) && h.opcodeBase <= op && Encodes(h, op, a, l)
    ensures var next := Registers((r.address + a) % 0x1_0000_0000, r.file, (r.line + l) % 0x1_0000_0000);
      Execute(h, r, Special(op)) == (next, [Row(next.address, next.file, next.line, false)])
  {
    QuotientIs(op - h.opcodeBase, h.lineRange, a, l - h.lineBase);
  }

  /** A special opcode advances address and line by the only amounts that it encodes, and appends a row. */
  lemma SpecialOpcode(h: Header, r: Registers, op: Byte, a: nat, l: int, rest: seq<Byte>)
    requires Usable(h) && h.opcodeBase <= op && Encodes(h, op, a, l)
    ensures var next := Registers((r.address + a) % 0x1_0000_0000, r.file, (r.line + l) % 0x1_0000_0000);
      Rows(h, r, [op] + rest) == Then([Row(next.address, next.file, next.line, false)], Rows(h, next, rest))
  {
    hide Rows, Execute, Encodes;
    SpecialExecutes(h, r, op, a, l);
    assert ([op] + rest)[1..] == rest;
    RowsDecoded(h, r, [op] + rest, Special(op), rest);
  }

  /** Every special opcode encodes such amounts. */
  lemma SpecialOpcodeEncodes(h: Header, op: nat) returns (a: nat, l: int)
    requires Usable(h) && h.opcodeBase <= op
    ensures Encodes(h, op, a, l)
  {
    var n := op - h.opcodeBase;
    a, l := n / h.lineRange, n % h.lineRange + h.lineBase;
    assert n == n / h.lineRange * h.lineRange + n % h.lineRange;
  }

  lemma ConstAddExecutes(h: Header, r: Registers, a: nat, l: int)
    requires Usable(h) && Encodes(h, 255, a, l)
    ensures Execute(h, r, ConstAddPc) == (r.(address := (r.address + a) % 0x1_0000_0000), [])
  {
    QuotientIs(255 - h.opcodeBase, h.lineRange, a, l - h.lineBase);
  }

  /** const_add_pc advances the address as the special opcode 255 would, and appends no row. */
  lemma ConstAdd(h: Header, r: Registers, a: nat, l: int, rest: seq<Byte>)
    requires Usable(h) && h.opcodeBase > 8 && Encodes(h, 255, a, l)
    ensures Rows(h, r, [8] + rest) == Rows(h, r.(address := (r.address + a) % 0x1_0000_0000), rest)
  {
    hide Rows, Execute, Encodes;
    ConstAddExecutes(h, r, a, l);
    assert ([8] + rest)[1..] == rest;
    Silent(h, r, [8] + rest, ConstAddPc, rest, r.(address := (r.address + a) % 0x1_0000_0000));
  }

  // ---------------------------------------------------------------------------------------------
  // Standard opcodes
  // ---------------------------------------------------------------------------------------------

  lemma CopyRow(h: Header, r: Registers, rest: seq<Byte>)
    requires Usable(h) && h.opcodeBase > 1
    ensures Rows(h, r, [1] + rest) == Then([Row(r.address, r.file, r.line, false)], Rows(h, r, rest))
  {
    assert ([1] + rest)[1..] == rest;
    RowsDecoded(h, r, [1] + rest, Copy, rest);
  }

  lemma AdvanceAddress(h: Header, r: Registers, n: nat, rest: seq<Byte>)
    requires Usable(h) && h.opcodeBase > 2 && n < 0x1_0000_0000
    ensures Rows(h, r, [2] + (Varuint(n) + rest)) == Rows(h, r.(address := (r.address + n) % 0x1_0000_0000), rest)
  {
    hide Rows, Execute;
    ExecutesAddress(h, r, n);
    var bin := [2] + (Varuint(n) + rest);
    assert bin[1..] == Varuint(n) + rest;
    VaruintRoundTrip(n, rest);
    hide Varuint, ReadVaruint;
    Silent(h, r, bin, AdvancePc(n), rest, r.(address := (r.address + n) % 0x1_0000_0000));
  }

  lemma SetFileNumber(h: Header, r: Registers, n: nat, rest: seq<Byte>)
    requires Usable(h) && h.opcodeBase > 4 && n < 0x1_0000_0000
    ensures Rows(h, r, [4] + (Varuint(n) + rest)) == Rows(h, r.(file := n), rest)
  {
    hide Rows;
    var bin := [4] + (Varuint(n) + rest);
    assert bin[1..] == Varuint(n) + rest;
    VaruintRoundTrip(n, rest);
    hide Varuint, ReadVaruint;
    Silent(h, r, bin, SetFile(n), rest, r.(file := n));
  }

  /** Two bytes, the lower one first. */
  lemma FixedAdvance(h: Header, r: Registers, lo: Byte, hi: Byte, rest: seq<Byte>)
    requires Usable(h) && h.opcodeBase > 9
    ensures Rows(h, r, [9, lo, hi] + rest) == Rows(h, r.(address := (r.address + (lo + 256 * hi)) % 0x1_0000_0000), rest)
  {
    hide Rows, Decode, Execute, ReadFixed;
    var n: nat := lo + 256 * hi;
    ExecutesAddress(h, r, n);
    TwoBytes(lo, hi, rest);
    DecodesFixed(h, [lo, hi] + rest, n, rest);
    assert [9, lo, hi] + rest == [9] + ([lo, hi] + rest);
    Silent(h, r, [9, lo, hi] + rest, FixedAdvancePc(n), rest, r.(address := (r.address + n) % 0x1_0000_0000));
  }

  lemma DecodesFixed(h: Header, arguments: seq<Byte>, n: nat, rest: seq<Byte>)
    requires Usable(h) && h.opcodeBase > 9 && ReadFixed(arguments, 2) == Some((n, rest))
    ensures Decode(h, [9] + arguments) == Some((FixedAdvancePc(n), rest))
  {
    hide ReadFixed, ReadSigned, ReadVaruint;
    assert ([9] + arguments)[1..] == arguments;
  }

  lemma TwoBytes(lo: Byte, hi: Byte, rest: seq<Byte>)
    ensures ReadFixed([lo, hi] + rest, 2) == Some(((lo + 256 * hi) as nat, rest))
  {
    var b := [lo, hi] + rest;
    assert b[1..][1..] == rest;
    assert ReadFixed(b[1..][1..], 0) == Some((0, rest));
    assert ReadFixed(b[1..], 1) == Some((hi as nat, rest));
  }

  /** Column, basic block, statement, prologue, epilogue and instruction set change no register of the rows. */
  lemma OtherStandard(h: Header, r: Registers, op: Byte, n: nat, rest: seq<Byte>)
    requires Usable(h) && n < 0x1_0000_0000
    ensures h.opcodeBase > op && op in {6, 7, 10, 11} ==> Rows(h, r, [op] + rest) == Rows(h, r, rest)
    ensures h.opcodeBase > op && op in {5, 12} ==> Rows(h, r, [op] + (Varuint(n) + rest)) == Rows(h, r, rest)
  {
    VaruintRoundTrip(n, rest);
    hide Varuint, ReadVaruint;
    if h.opcodeBase > op && op in {6, 7, 10, 11} {
      assert ([op] + rest)[1..] == rest;
      Silent(h, r, [op] + rest, NoEffect, rest, r);
    } else if h.opcodeBase > op && op in {5, 12} {
      assert ([op] + (Varuint(n) + rest))[1..] == Varuint(n) + rest;
      Silent(h, r, [op] + (Varuint(n) + rest), NoEffect, rest, r);
    }
  }

  function Arguments(ns: seq<nat>): seq<Byte> {
    if |ns| == 0 then [] else Varuint(ns[0]) + Arguments(ns[1..])
  }

  predicate Fits(ns: seq<nat>) {
    forall i | 0 <= i < |ns| :: ns[i] < 0x1_0000_0000
  }

  lemma {:induction false} ArgumentsSkipped(ns: seq<nat>, rest: seq<Byte>)
    requires Fits(ns)
    ensures SkipVaruints(Arguments(ns) + rest, |ns|) == Some(rest)
    decreases |ns|
  {
    hide Varuint, ReadVaruint;
    if |ns| == 0 {
      assert [] + rest == rest;
    } else {
      assert Arguments(ns) + rest == Varuint(ns[0]) + (Arguments(ns[1..]) + rest);
      VaruintRoundTrip(ns[0], Arguments(ns[1..]) + rest);
      ArgumentsSkipped(ns[1..], rest);
    }
  }

  /** A standard opcode that is not known is skipped with as many arguments as the header says. */
  lemma UnknownStandard(h: Header, r: Registers, op: Byte, ns: seq<nat>, rest: seq<Byte>)
    requires Usable(h) && 12 < op < h.opcodeBase && |ns| == h.opcodeLengths[op] && Fits(ns)
    ensures Rows(h, r, [op] + (Arguments(ns) + rest)) == Rows(h, r, rest)
  {
    hide Rows;
    var bin := [op] + (Arguments(ns) + rest);
    assert bin[1..] == Arguments(ns) + rest;
    ArgumentsSkipped(ns, rest);
    Silent(h, r, bin, NoEffect, rest, r);
  }

  // ---------------------------------------------------------------------------------------------
  // Signed numbers
  // ---------------------------------------------------------------------------------------------

  /** The signed number of at most five digits: two's complement of the width given by the digits; with five digits all
      32 bits are there and the number is taken as it is. */
  predicate SignedIs(b: seq<Byte>, n: int) {
    if |b| == 5 then n == Sevens(b)
    else
      && (n == Sevens(b) || n == Sevens(b) - Power128(|b|))
      && 2 * n + Power128(|b|) >= 0 && 2 * n < Power128(|b|)
  }

  /** The number that the digits from the second on stand for. */
  lemma LaterDigits(b0: Byte, v: nat, p: nat, n: int) returns (m: int)
    requires (n == b0 % 128 + 128 * v || n == b0 % 128 + 128 * v - 128 * p) && p % 2 == 0
    ensures n == b0 % 128 + 128 * m && (m == v || m == v - p)
    ensures n == b0 % 128 + 128 * v ==> m == v
    ensures 2 * n + 128 * p >= 0 && 2 * n < 128 * p ==> 2 * m + p >= 0 && 2 * m < p
  {
    m := if n == b0 % 128 + 128 * v then v else v - p;
  }

  lemma PowerEven(k: nat)
    requires k > 0
    ensures Power128(k) % 2 == 0 && Power128(k) == 2 * (64 * Power128(k - 1))
  {
  }

  lemma {:induction false} ReadsSigned(b: seq<Byte>, digits: nat, n: int, rest: seq<Byte>)
    requires Terminated(b) && |b| <= digits
    requires if |b| == digits then n == Sevens(b)
      else (n == Sevens(b) || n == Sevens(b) - Power128(|b|)) && 2 * n + Power128(|b|) >= 0 && 2 * n < Power128(|b|)
    ensures ReadSigned(b + rest, digits) == Some((n, rest))
    decreases |b|
  {
    assert (b + rest)[1..] == b[1..] + rest;
    if |b| == 1 {
      assert b[1..] == [] && [] + rest == rest;
      assert Sevens(b[1..]) == 0 && Power128(0) == 1;
    } else {
      hide Power128;
      PowerStep(|b|);
      PowerEven(|b| - 1);
      var m := LaterDigits(b[0], Sevens(b[1..]), Power128(|b| - 1), n);
      ReadsSigned(b[1..], digits - 1, m, rest);
    }
  }

  lemma PowerStep(k: nat)
    requires k > 0
    ensures Power128(k) == 128 * Power128(k - 1)
  {
  }

  lemma ReadsLine(b: seq<Byte>, n: int, rest: seq<Byte>)
    requires Terminated(b) && |b| <= 5 && SignedIs(b, n)
    ensures ReadSigned(b + rest, 5) == Some((n, rest))
  {
    hide Sevens, Power128, ReadSigned;
    ReadsSigned(b, 5, n, rest);
  }

  lemma DecodesLine(h: Header, b: seq<Byte>, n: int, rest: seq<Byte>)
    requires Usable(h) && h.opcodeBase > 3 && ReadSigned(b + rest, 5) == Some((n, rest))
    ensures Decode(h, [3] + (b + rest)) == Some((AdvanceLine(n), rest))
  {
    hide ReadSigned;
    assert ([3] + (b + rest))[1..] == b + rest;
  }

  lemma AdvanceLineBy(h: Header, r: Registers, b: seq<Byte>, n: int, rest: seq<Byte>)
    requires Usable(h) && h.opcodeBase > 3 && Terminated(b) && |b| <= 5 && SignedIs(b, n)
    ensures Rows(h, r, [3] + (b + rest)) == Rows(h, r.(line := (r.line + n) % 0x1_0000_0000), rest)
  {
    hide Rows, Decode, Execute, SignedIs, Terminated, ReadSigned;
    ExecutesLine(h, r, n);
    ReadsLine(b, n, rest);
    DecodesLine(h, b, n, rest);
    Silent(h, r, [3] + (b + rest), AdvanceLine(n), rest, r.(line := (r.line + n) % 0x1_0000_0000));
  }

  // ---------------------------------------------------------------------------------------------
  // Extended opcodes
  // ---------------------------------------------------------------------------------------------

  /** An extended opcode: a 0, its size, and its body. */
  function ExtendedBytes(body: seq<Byte>): (r: seq<Byte>)
    ensures |r| > 0
  {
    [0] + Varuint(|body|) + body
  }

  lemma DecodesExtended(h: Header, body: seq<Byte>, i: Instruction, rest: seq<Byte>)
    requires Usable(h) && |body| < 0x1_0000_0000 && Extended(body) == Some(i)
    ensures Decode(h, ExtendedBytes(body) + rest) == Some((i, rest))
  {
    hide Extended;
    var bin := ExtendedBytes(body) + rest;
    assert bin[1..] == Varuint(|body|) + (body + rest);
    VaruintRoundTrip(|body|, body + rest);
    assert (body + rest)[..|body|] == body && (body + rest)[|body|..] == rest;
    hide Varuint, ReadVaruint;
  }

  /** The end of a sequence appends its last row and starts over at address 0, file 1, line 1. */
  lemma EndOfSequence(h: Header, r: Registers, more: seq<Byte>, rest: seq<Byte>)
    requires Usable(h) && |more| + 1 < 0x1_0000_0000
    ensures Rows(h, r, ExtendedBytes([1] + more) + rest)
         == Then([Row(r.address, r.file, r.line, true)], Rows(h, Registers(0, 1, 1), rest))
  {
    hide Rows, Decode, ExtendedBytes;
    DecodesExtended(h, [1] + more, EndSequence, rest);
    RowsDecoded(h, r, ExtendedBytes([1] + more) + rest, EndSequence, rest);
  }

  /** Four bytes, the lowest first. */
  lemma SetAddressTo(h: Header, r: Registers, b0: Byte, b1: Byte, b2: Byte, b3: Byte, more: seq<Byte>, rest: seq<Byte>)
    requires Usable(h) && |more| + 5 < 0x1_0000_0000
    ensures Rows(h, r, ExtendedBytes([2, b0, b1, b2, b3] + more) + rest)
         == Rows(h, r.(address := b0 + 256 * b1 + 65536 * b2 + 16777216 * b3), rest)
  {
    hide Rows, Decode, ExtendedBytes, ReadFixed;
    var a: nat := b0 + 256 * b1 + 65536 * b2 + 16777216 * b3;
    var body := [2, b0, b1, b2, b3] + more;
    FourBytes(b0, b1, b2, b3, more);
    assert body[1..] == [b0, b1, b2, b3] + more;
    DecodesExtended(h, body, SetAddress(a), rest);
    Silent(h, r, ExtendedBytes(body) + rest, SetAddress(a), rest, r.(address := a));
  }

  lemma FourBytes(b0: Byte, b1: Byte, b2: Byte, b3: Byte, more: seq<Byte>)
    ensures ReadFixed([b0, b1, b2, b3] + more, 4) == Some(((b0 + 256 * b1 + 65536 * b2 + 16777216 * b3) as nat, more))
  {
    var b := [b0, b1, b2, b3] + more;
    assert b[1..][1..][1..][1..] == more;
    assert ReadFixed(b[1..][1..][1..][1..], 0) == Some((0, more));
    assert ReadFixed(b[1..][1..][1..], 1) == Some((b3 as nat, more));
    assert ReadFixed(b[1..][1..], 2) == Some(((b2 + 256 * b3) as nat, more));
    assert ReadFixed(b[1..], 3) == Some(((b1 + 256 * b2 + 65536 * b3) as nat, more));
  }

  /** Other extended opcodes are skipped; the discriminator must hold a number. */
  lemma OtherExtended(h: Header, r: Registers, op: Byte, more: seq<Byte>, n: nat, rest: seq<Byte>)
    requires Usable(h) && |more| + 1 < 0x1_0000_0000 && op !in {1, 2, 4}
    requires n < 0x1_0000_0000 && |Varuint(n) + more| + 1 < 0x1_0000_0000
    ensures Rows(h, r, ExtendedBytes([op] + more) + rest) == Rows(h, r, rest)
    ensures Rows(h, r, ExtendedBytes([4] + (Varuint(n) + more)) + rest) == Rows(h, r, rest)
  {
    hide Rows, Decode, ExtendedBytes, Varuint, ReadVaruint;
    DecodesExtended(h, [op] + more, NoEffect, rest);
    Silent(h, r, ExtendedBytes([op] + more) + rest, NoEffect, rest, r);
    var body := [4] + (Varuint(n) + more);
    assert body[1..] == Varuint(n) + more;
    VaruintRoundTrip(n, more);
    DecodesExtended(h, body, NoEffect, rest);
    Silent(h, r, ExtendedBytes(body) + rest, NoEffect, rest, r);
  }

  // ---------------------------------------------------------------------------------------------
  // Reading the matrix
  // ---------------------------------------------------------------------------------------------

  /** The last row at or before an address decides, unless the address is at or beyond the end or the line is 0. */
  lemma {:induction false} RowAtIs(rows: seq<Row>, end: nat, a: nat, i: nat)
    requires i < |rows| && rows[i].address <= a && forall j | i < j < |rows| :: rows[j].address > a
    ensures RowAt(rows, end, a) == if a < end && rows[i].line != 0 then Some((rows[i].file, rows[i].line)) else None
    decreases |rows|
  {
    if i < |rows| - 1 {
      RowAtIs(rows[..|rows| - 1], end, a, i);
    }
  }

  lemma {:induction false} NoRowBefore(rows: seq<Row>, end: nat, a: nat)
    requires forall j | 0 <= j < |rows| :: rows[j].address > a
    ensures RowAt(rows, end, a) == None
    decreases |rows|
  {
    if |rows| > 0 {
      NoRowBefore(rows[..|rows| - 1], end, a);
    }
  }

  // ---------------------------------------------------------------------------------------------
  // Unknown files
  // ---------------------------------------------------------------------------------------------

  /** The range of the first row ends at the second. */
  predicate Changes(x: Row, y: Row) {
    !x.end && (y.end || y.file != x.file || y.line != x.line)
  }

  predicate KnownFiles(h: Header, rows: seq<Row>) {
    forall i | 0 <= i < |rows| - 1 && Changes(rows[i], rows[i + 1]) :: rows[i].file < |h.fileNames|
  }

  /** The builder has just taken a row. */
  predicate Took(b: Builder, x: Row) {
    if x.end then b.current.None? else b.current.Some? && b.current.value.file == x.file && b.current.value.line == x.line
  }

  lemma TakesRow(b: Builder, x: Row)
    ensures Took(AddRow(b, x), x)
  {
  }

  lemma {:induction false} CheckedFrom(h: Header, b: Builder, x: Row, rows: seq<Row>)
    requires Took(b, x)
    ensures CheckedRows(h, b, rows).Some? <==> KnownFiles(h, [x] + rows)
    decreases |rows|
  {
    hide AddRow;
    if |rows| > 0 {
      var all := [x] + rows;
      TakesRow(b, rows[0]);
      assert Closes(b, rows[0]) <==> Changes(all[0], all[1]);
      CheckedFrom(h, AddRow(b, rows[0]), rows[0], rows[1..]);
      assert all[1..] == [rows[0]] + rows[1..];
      KnownRest(h, all);
    }
  }

  lemma KnownRest(h: Header, rows: seq<Row>)
    requires |rows| > 1
    ensures KnownFiles(h, rows) <==> (Changes(rows[0], rows[1]) ==> rows[0].file < |h.fileNames|) && KnownFiles(h, rows[1..])
  {
    hide Changes;
    var more := rows[1..];
    if KnownFiles(h, rows) {
      forall i | 0 <= i < |more| - 1 && Changes(more[i], more[i + 1]) ensures more[i].file < |h.fileNames| {
        assert Changes(rows[i + 1], rows[i + 2]);
      }
    }
    if KnownFiles(h, more) && (Changes(rows[0], rows[1]) ==> rows[0].file < |h.fileNames|) {
      forall i | 0 <= i < |rows| - 1 && Changes(rows[i], rows[i + 1]) ensures rows[i].file < |h.fileNames| {
        if i > 0 {
          assert Changes(more[i - 1], more[i]);
        }
      }
    }
  }

  /** A program is accepted exactly when its instructions are well formed and every range that ends has a file of the
      header; ranges that never end may have any. */
  lemma AcceptedIff(h: Header, bin: seq<Byte>)
    requires Usable(h)
    ensures Unit(h, bin).Some? <==> Rows(h, Registers(0, 1, 1), bin).Some? && KnownFiles(h, Rows(h, Registers(0, 1, 1), bin).value)
  {
    hide Rows, CheckedRow, KnownFiles;
    var rows := Rows(h, INITIAL, bin);
    if rows.Some? {
      AcceptedRows(h, rows.value);
    }
  }

  lemma AcceptedRows(h: Header, rows: seq<Row>)
    ensures CheckedRows(h, Builder(None, None, []), rows).Some? <==> KnownFiles(h, rows)
  {
    var none := Builder(None, None, []);
    if |rows| > 0 {
      TakesRow(none, rows[0]);
      CheckedFrom(h, AddRow(none, rows[0]), rows[0], rows[1..]);
      assert [rows[0]] + rows[1..] == rows;
    }
  }
}
