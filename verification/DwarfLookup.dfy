/** Looking up addresses in the table of all ranges, sorted by first address only
    (libraries/debug_eos_vm/dwarf.cpp, get_location; libraries/debug_eos_vm/include/debug_eos_vm/dwarf.hpp). */
module DwarfLookup {
  import opened Basics
  import opened AbiTypes
  import opened Dwarf

  // ---------------------------------------------------------------------------------------------
  // Exact look-ups
  // ---------------------------------------------------------------------------------------------

  predicate Contains(x: Location, a: nat) {
    x.begin <= a < x.end
  }

  predicate Apart(x: Location, y: Location) {
    x.end <= y.begin || y.end <= x.begin
  }

  /** Ranges do not overlap; they may be empty. */
  predicate Proper(l: seq<Location>) {
    && (forall i | 0 <= i < |l| :: l[i].begin <= l[i].end)
    && (forall i, j | 0 <= i < j < |l| :: Apart(l[i], l[j]))
  }

  /** Every look-up finds the range that contains the address. */
  ghost predicate Exact(l: seq<Location>) {
    forall a: nat, x: Location :: Find(l, a) == Some(x) <==> x in l && Contains(x, a)
  }

  /** An empty range with the first address of a range that is not empty. */
  predicate Hides(y: Location, x: Location) {
    y.end == y.begin == x.begin < x.end
  }

  predicate HidesNone(l: seq<Location>) {
    forall i, j | 0 <= i < j < |l| :: !Hides(l[j], l[i])
  }

  /** A look-up looks at one range only. */
  lemma {:induction false} FindLooksAt(l: seq<Location>, a: nat, j: nat) returns (m: nat)
    requires Sorted(l) && j < |l| && l[j].begin <= a
    ensures j <= m < |l| && l[m].begin <= a && Find(l, a) == if a < l[m].end then Some(l[m]) else None
    decreases |l|
  {
    m := |l| - 1;
    if l[m].begin > a {
      m := FindLooksAt(l[..m], a, j);
    }
  }

  lemma {:induction false} FoundIsThere(l: seq<Location>, a: nat)
    ensures Find(l, a).Some? ==> Find(l, a).value in l && Contains(Find(l, a).value, a)
    decreases |l|
  {
    if |l| > 0 {
      FoundIsThere(l[..|l| - 1], a);
    }
  }

  /** In a sorted table every look-up is exact if and only if no empty range stands behind a range that
      begins at the same address and is not empty. */
  lemma SortedExact(l: seq<Location>)
    requires Sorted(l) && Proper(l)
    ensures Exact(l) <==> HidesNone(l)
  {
    if HidesNone(l) {
      forall a: nat, x: Location ensures Find(l, a) == Some(x) <==> x in l && Contains(x, a) {
        FoundIsThere(l, a);
        if x in l && Contains(x, a) {
          ContainingIsFound(l, a, x);
        }
      }
    } else {
      var i, j :| 0 <= i < j < |l| && Hides(l[j], l[i]);
      HiddenIsLost(l, i, j);
    }
  }

  lemma ContainingIsFound(l: seq<Location>, a: nat, x: Location)
    requires Sorted(l) && Proper(l) && HidesNone(l) && x in l && Contains(x, a)
    ensures Find(l, a) == Some(x)
  {
    var i :| 0 <= i < |l| && l[i] == x;
    assert forall k | i < k < |l| :: Apart(l[i], l[k]) && !Hides(l[k], l[i]);
    var m := FindLooksAt(l, a, i);
  }

  lemma HiddenIsLost(l: seq<Location>, i: nat, j: nat)
    requires Sorted(l) && Proper(l) && i < j < |l| && Hides(l[j], l[i])
    ensures Find(l, l[i].begin) == None && !Exact(l)
  {
    var m := FindLooksAt(l, l[i].begin, j);
    assert Apart(l[i], l[m]);
    assert l[i] in l && Contains(l[i], l[i].begin);
  }

  // ---------------------------------------------------------------------------------------------
  // Any order of ranges with the same first address
  // ---------------------------------------------------------------------------------------------

  predicate SortedForm(all: seq<Location>, sorted: seq<Location>) {
    Sorted(sorted) && multiset(sorted) == multiset(all)
  }

  /** However the ranges are sorted by first address. */
  ghost predicate AlwaysExact(all: seq<Location>) {
    forall sorted | SortedForm(all, sorted) :: Exact(sorted)
  }

  predicate NoneHides(all: seq<Location>) {
    forall x, y | x in all && y in all :: !Hides(y, x)
  }

  /** Look-ups are exact however the ranges were sorted, if and only if no empty range begins where a range
      that is not empty begins. */
  lemma AlwaysExactIff(all: seq<Location>)
    requires Proper(all)
    ensures AlwaysExact(all) <==> NoneHides(all)
  {
    hide Exact, Hides, Proper;
    if NoneHides(all) {
      forall sorted | SortedForm(all, sorted) ensures Exact(sorted) {
        ProperSorted(all, sorted);
        SameMembers(all, sorted);
        SortedExact(sorted);
      }
    } else {
      var x, y :| x in all && y in all && Hides(y, x);
      var sorted := WorstOrder(all, x, y);
      ProperSorted(all, sorted);
      SortedExact(sorted);
    }
  }

  lemma SameMembers(all: seq<Location>, sorted: seq<Location>)
    requires multiset(sorted) == multiset(all)
    ensures forall x :: x in all <==> x in sorted
  {
    forall x ensures x in all <==> x in sorted {
      assert x in all <==> x in multiset(all);
      assert x in sorted <==> x in multiset(sorted);
    }
  }

  lemma {:induction false} TwoPlaces(l: seq<Location>, x: Location)
    requires multiset(l)[x] >= 2
    ensures exists i, j :: 0 <= i < j < |l| && l[i] == l[j] == x
    decreases |l|
  {
    var n := |l| - 1;
    assert l == l[..n] + [l[n]];
    if l[n] != x {
      TwoPlaces(l[..n], x);
      var i, j :| 0 <= i < j < n && l[..n][i] == l[..n][j] == x;
      assert l[i] == l[j] == x;
    } else {
      assert x in multiset(l[..n]);
      var i :| 0 <= i < n && l[..n][i] == x;
      assert l[i] == l[n] == x;
    }
  }

  lemma TwiceCounted(l: seq<Location>, i: nat, j: nat)
    requires i < j < |l| && l[i] == l[j]
    ensures multiset(l)[l[i]] >= 2
  {
    assert l == l[..j] + l[j..];
    assert l[i] in l[..j] && l[j] in l[j..];
    assert multiset(l) == multiset(l[..j]) + multiset(l[j..]);
  }

  lemma ProperSorted(all: seq<Location>, sorted: seq<Location>)
    requires Proper(all) && multiset(sorted) == multiset(all)
    ensures Proper(sorted)
  {
    SameMembers(all, sorted);
    forall i | 0 <= i < |sorted| ensures sorted[i].begin <= sorted[i].end {
      assert sorted[i] in sorted;
    }
    forall i, j | 0 <= i < j < |sorted| ensures Apart(sorted[i], sorted[j]) {
      assert sorted[i] in sorted && sorted[j] in sorted;
      if sorted[i] == sorted[j] {
        TwiceCounted(sorted, i, j);
        TwoPlaces(all, sorted[i]);
      } else {
        BothApart(all, sorted[i], sorted[j]);
      }
    }
  }

  lemma BothApart(l: seq<Location>, x: Location, y: Location)
    requires Proper(l) && x in l && y in l && x != y
    ensures Apart(x, y)
  {
    var i :| 0 <= i < |l| && l[i] == x;
    var j :| 0 <= j < |l| && l[j] == y;
    assert i < j ==> Apart(l[i], l[j]);
    assert j < i ==> Apart(l[j], l[i]);
  }

  /** By first address, and empty ranges behind the others. */
  predicate Before(x: Location, y: Location) {
    x.begin < y.begin || (x.begin == y.begin && x.end >= y.end)
  }

  predicate EmptyLast(l: seq<Location>) {
    forall i, j | 0 <= i < j < |l| :: Before(l[i], l[j])
  }

  function InsertEmptyLast(l: seq<Location>, x: Location): seq<Location> {
    if |l| == 0 || Before(l[|l| - 1], x) then l + [x] else InsertEmptyLast(l[..|l| - 1], x) + [l[|l| - 1]]
  }

  function SortEmptyLast(l: seq<Location>): seq<Location> {
    if |l| == 0 then [] else InsertEmptyLast(SortEmptyLast(l[..|l| - 1]), l[|l| - 1])
  }

  lemma {:induction false} InsertIsSorted(l: seq<Location>, x: Location)
    requires EmptyLast(l)
    ensures var r := InsertEmptyLast(l, x); EmptyLast(r) && multiset(r) == multiset(l) + multiset{x}
    decreases |l|
  {
    if |l| > 0 && !Before(l[|l| - 1], x) {
      var n := |l| - 1;
      assert l == l[..n] + [l[n]];
      InsertIsSorted(l[..n], x);
      var r := InsertEmptyLast(l[..n], x);
      forall i | 0 <= i < |r| ensures Before(r[i], l[n]) {
        assert r[i] in multiset(r);
        assert r[i] == x || r[i] in l[..n];
      }
    }
  }

  lemma {:induction false} SortIsSorted(l: seq<Location>)
    ensures EmptyLast(SortEmptyLast(l)) && multiset(SortEmptyLast(l)) == multiset(l)
    decreases |l|
  {
    if |l| > 0 {
      var n := |l| - 1;
      assert l == l[..n] + [l[n]];
      SortIsSorted(l[..n]);
      InsertIsSorted(SortEmptyLast(l[..n]), l[n]);
    }
  }

  lemma WorstOrder(all: seq<Location>, x: Location, y: Location) returns (sorted: seq<Location>)
    requires x in all && y in all && Hides(y, x)
    ensures SortedForm(all, sorted) && !HidesNone(sorted)
  {
    sorted := SortEmptyLast(all);
    SortIsSorted(all);
    SameMembers(all, sorted);
    var i :| 0 <= i < |sorted| && sorted[i] == x;
    var j :| 0 <= j < |sorted| && sorted[j] == y;
    assert !Before(y, x) && i < j;
    assert Hides(sorted[j], sorted[i]);
  }

  // ---------------------------------------------------------------------------------------------
  // The ranges of a program
  // ---------------------------------------------------------------------------------------------

  /** Ranges follow each other between two addresses. */
  predicate InOrder(l: seq<Location>, from: nat, to: nat) {
    && (forall i | 0 <= i < |l| :: from <= l[i].begin <= l[i].end <= to)
    && (forall i, j | 0 <= i < j < |l| :: l[i].end <= l[j].begin)
  }

  /** While the rows of a sequence are added. */
  predicate Follows(b: Builder, from: nat) {
    && b.begin.Some?
    && (b.current.Some? ==> from <= b.current.value.begin && InOrder(b.done, from, b.current.value.begin))
  }

  lemma FollowsRow(b: Builder, from: nat, r: Row)
    requires Follows(b, from) && b.current.Some? && b.current.value.begin <= r.address
    ensures InOrder(AddRow(b, r).done, from, r.address)
    ensures !r.end ==> Follows(AddRow(b, r), from) && AddRow(b, r).current.Some? && AddRow(b, r).current.value.begin <= r.address
  {
  }

  lemma {:induction false} RowsFollow(rows: seq<Row>)
    requires |rows| > 0 && NonDecreasing(rows) && NoEnd(rows)
    ensures var b := AddRows(Builder(None, None, []), rows);
      Follows(b, rows[0].address) && b.current.Some? && b.current.value.begin <= rows[|rows| - 1].address
    decreases |rows|
  {
    hide AddRow;
    var n := |rows| - 1;
    if n == 0 {
      FirstFollows(rows[0]);
      assert rows[..0] == [];
    } else {
      RowsFollow(rows[..n]);
      assert rows[n - 1].address <= rows[n].address;
      FollowsRow(AddRows(Builder(None, None, []), rows[..n]), rows[0].address, rows[n]);
    }
  }

  lemma FirstFollows(r: Row)
    requires !r.end
    ensures var b := AddRow(Builder(None, None, []), r);
      Follows(b, r.address) && b.current.Some? && b.current.value.begin == r.address
  {
  }

  lemma RangesInOrder(s: Sequence)
    requires Ordered(s)
    ensures InOrder(RangesOf(s), Start(s), s.end.address)
    ensures !ValidStart(Start(s)) ==> RangesOf(s) == []
  {
    SequenceAdds(s);
    if |s.rows| == 0 {
      AddLast(Builder(None, None, []), s.rows, s.end);
      NothingAdded(Builder(None, None, []));
    } else if ValidStart(Start(s)) {
      LastBefore(s.rows, s.end);
      RowsFollow(s.rows);
      AddLast(Builder(None, None, []), s.rows, s.end);
      FollowsRow(AddRows(Builder(None, None, []), s.rows), s.rows[0].address, s.end);
    }
  }

  lemma RangesExact(s: Sequence)
    requires Ordered(s)
    ensures Exact(RangesOf(s))
  {
    hide RangesOf, Ordered, Exact;
    RangesInOrder(s);
    SortedExact(RangesOf(s));
  }

  /** Sequences with a valid start do not overlap. */
  predicate SequencesApart(ss: seq<Sequence>) {
    forall i, j | 0 <= i < j < |ss| && ValidStart(Start(ss[i])) && ValidStart(Start(ss[j])) ::
      ss[i].end.address <= Start(ss[j]) || ss[j].end.address <= Start(ss[i])
  }

  lemma {:induction false} RangeOfSequence(ss: seq<Sequence>, x: Location)
    ensures x in AllRanges(ss) <==> exists i :: 0 <= i < |ss| && x in RangesOf(ss[i])
    decreases |ss|
  {
    hide RangesOf;
    if |ss| > 0 {
      var n := |ss| - 1;
      RangeOfSequence(ss[..n], x);
      if x in AllRanges(ss[..n]) {
        var i :| 0 <= i < n && x in RangesOf(ss[..n][i]);
        assert x in RangesOf(ss[i]);
      }
      if i :| 0 <= i < |ss| && x in RangesOf(ss[i]) {
        assert i < n ==> x in RangesOf(ss[..n][i]);
      }
    }
  }

  lemma {:induction false} AllProper(ss: seq<Sequence>)
    requires (forall i | 0 <= i < |ss| :: Ordered(ss[i])) && SequencesApart(ss)
    ensures Proper(AllRanges(ss))
    decreases |ss|
  {
    hide RangesOf, Ordered, Apart, Start, ValidStart;
    if |ss| > 0 {
      var n := |ss| - 1;
      var first, last := AllRanges(ss[..n]), RangesOf(ss[n]);
      AllProper(ss[..n]);
      RangesInOrder(ss[n]);
      forall x | x in first ensures forall y | y in last :: Apart(x, y) {
        RangeOfSequence(ss[..n], x);
        var i :| 0 <= i < n && x in RangesOf(ss[..n][i]);
        RangesInOrder(ss[i]);
        if |last| > 0 {
          EndsApart(RangesOf(ss[i]), Start(ss[i]), ss[i].end.address, last, Start(ss[n]), ss[n].end.address, x);
        }
      }
      ProperBoth(first, last, Start(ss[n]), ss[n].end.address);
    }
  }

  lemma EndsApart(p: seq<Location>, pFrom: nat, pTo: nat, q: seq<Location>, qFrom: nat, qTo: nat, x: Location)
    requires InOrder(p, pFrom, pTo) && InOrder(q, qFrom, qTo) && (pTo <= qFrom || qTo <= pFrom) && x in p
    ensures forall y | y in q :: Apart(x, y)
  {
  }

  lemma ProperBoth(p: seq<Location>, q: seq<Location>, from: nat, to: nat)
    requires Proper(p) && InOrder(q, from, to) && forall x, y | x in p && y in q :: Apart(x, y)
    ensures Proper(p + q)
  {
    var l := p + q;
    forall i, j | 0 <= i < j < |l| ensures Apart(l[i], l[j]) {
      if i < |p| <= j {
        assert l[i] in p && l[j] in q;
      }
    }
  }

  /** What the matrix says about an address: what the sequence says whose rows reach it. */
  function MatrixAt(ss: seq<Sequence>, a: nat): Option<(nat, nat)> {
    if |ss| == 0 then None else
      var last := ss[|ss| - 1];
      if ValidStart(Start(last)) && RowAt(last.rows, last.end.address, a).Some? then RowAt(last.rows, last.end.address, a)
      else MatrixAt(ss[..|ss| - 1], a)
  }

  ghost predicate Covers(l: seq<Location>, a: nat, o: Option<(nat, nat)>) {
    if o.None? then forall x | x in l :: !Contains(x, a)
    else exists x :: x in l && Contains(x, a) && o == FileAndLine(Some(x))
  }

  lemma SequenceCovers(s: Sequence, a: nat)
    requires Ordered(s) && Meaning(s)
    ensures Covers(RangesOf(s), a, if ValidStart(Start(s)) then RowAt(s.rows, s.end.address, a) else None)
  {
    hide RangesOf, Ordered, RowAt, Find;
    RangesExact(s);
    var l := RangesOf(s);
    if ValidStart(Start(s)) {
      assert FileAndLine(Find(l, a)) == RowAt(s.rows, s.end.address, a);
      match Find(l, a)
      case None =>
        forall x | x in l ensures !Contains(x, a) {
          assert Find(l, a) == Some(x) <==> x in l && Contains(x, a);
        }
      case Some(x) =>
        assert Find(l, a) == Some(x) <==> x in l && Contains(x, a);
    }
  }

  lemma {:induction false} ProgramCovers(ss: seq<Sequence>, a: nat)
    requires forall i | 0 <= i < |ss| :: Ordered(ss[i]) && Meaning(ss[i])
    ensures Covers(AllRanges(ss), a, MatrixAt(ss, a))
    decreases |ss|
  {
    hide RangesOf, Ordered, Meaning, RowAt;
    if |ss| > 0 {
      ProgramCovers(ss[..|ss| - 1], a);
      SequenceCovers(ss[|ss| - 1], a);
    }
  }

  /** Every look-up in the table finds what the matrix says. */
  ghost predicate Faithful(ss: seq<Sequence>, l: seq<Location>) {
    forall a: nat :: FileAndLine(Find(l, a)) == MatrixAt(ss, a)
  }

  lemma FaithfulIsExact(ss: seq<Sequence>, l: seq<Location>)
    requires Proper(l) && forall a: nat :: Covers(l, a, MatrixAt(ss, a))
    ensures Faithful(ss, l) <==> Exact(l)
  {
    hide Find, MatrixAt, Proper;
    if Exact(l) {
      forall a: nat ensures FileAndLine(Find(l, a)) == MatrixAt(ss, a) {
        assert Covers(l, a, MatrixAt(ss, a));
        ExactFinds(l, a, MatrixAt(ss, a));
      }
    }
    if Faithful(ss, l) {
      forall a: nat, x: Location ensures Find(l, a) == Some(x) <==> x in l && Contains(x, a) {
        assert Covers(l, a, MatrixAt(ss, a));
        assert FileAndLine(Find(l, a)) == MatrixAt(ss, a);
        FoundIsThere(l, a);
        if x in l && Contains(x, a) && Find(l, a).Some? && Find(l, a).value != x {
          BothApart(l, Find(l, a).value, x);
        }
      }
    }
  }

  lemma ExactFinds(l: seq<Location>, a: nat, o: Option<(nat, nat)>)
    requires Exact(l) && Covers(l, a, o)
    ensures FileAndLine(Find(l, a)) == o
  {
    hide Find;
    if o.None? {
      if Find(l, a).Some? {
        assert Find(l, a) == Some(Find(l, a).value);
      }
    } else {
      var x :| x in l && Contains(x, a) && o == FileAndLine(Some(x));
      assert Find(l, a) == Some(x);
    }
  }

  lemma CoversSorted(all: seq<Location>, sorted: seq<Location>, a: nat, o: Option<(nat, nat)>)
    requires multiset(sorted) == multiset(all) && Covers(all, a, o)
    ensures Covers(sorted, a, o)
  {
    SameMembers(all, sorted);
  }

  /** The whole way from the rows of a program, whose sequences with a valid start do not overlap, to the sorted table: every look-up
      finds the file and line of the last row at or before the address, however the table was sorted, if and
      only if no empty range begins where a range that is not empty begins. */
  lemma ProgramLookup(ss: seq<Sequence>, open: seq<Row>)
    requires (forall i | 0 <= i < |ss| :: Ordered(ss[i])) && OrderedRows(open)
    requires SequencesApart(Finished(ss, open))
    ensures var all := AddRows(Builder(None, None, []), AllRows(ss) + open).done;
      (forall sorted | SortedForm(all, sorted) :: Faithful(Finished(ss, open), sorted)) <==> NoneHides(all)
  {
    hide Ordered, OrderedRows, Finished, AllRows, AddRows, AllRanges, Exact, Proper, Faithful, Covers, MatrixAt, Meaning,
      Hides, Sorted, SequencesApart;
    var program, all := Finished(ss, open), AddRows(Builder(None, None, []), AllRows(ss) + open).done;
    FinishedOrdered(ss, open);
    ProgramPreserved(ss, open);
    AllProper(program);
    AlwaysExactIff(all);
    forall sorted | SortedForm(all, sorted) ensures Faithful(program, sorted) <==> Exact(sorted) {
      ProperSorted(all, sorted);
      forall a: nat ensures Covers(sorted, a, MatrixAt(program, a)) {
        ProgramCovers(program, a);
        CoversSorted(all, sorted, a, MatrixAt(program, a));
      }
      FaithfulIsExact(program, sorted);
    }
  }

  // ---------------------------------------------------------------------------------------------
  // A program whose table loses a range
  // ---------------------------------------------------------------------------------------------

  /** A row for line 4 and a row for line 5 at address 10, and the end of the sequence at address 20. */
  const HIDING_PROGRAM: seq<Byte> := [0, 5, 2, 10, 0, 0, 0, 3, 3, 1, 3, 1, 1, 2, 10, 0, 1, 1]

  /** The state of a unit before the byte at `at`. */
  predicate At(h: Header, at: nat, b: Builder, r: Registers)
    requires Usable(h) && at <= |HIDING_PROGRAM|
  {
    Unit(h, HIDING_PROGRAM) == UnitFrom(h, b, r, HIDING_PROGRAM[at..])
  }

  lemma Passes(h: Header, at: nat, to: nat, b: Builder, r: Registers, i: Instruction)
    requires Usable(h) && at < to <= |HIDING_PROGRAM| && At(h, at, b, r)
    requires Decode(h, HIDING_PROGRAM[at..]) == Some((i, HIDING_PROGRAM[to..]))
    ensures var (next, rows) := Execute(h, r, i);
      if |rows| == 0 then At(h, to, b, next)
      else CheckedRow(h, b, rows[0]).Some? ==> At(h, to, CheckedRow(h, b, rows[0]).value, next)
  {
    hide Decode, Execute, UnitFrom, Unit, CheckedRow;
    UnitStep(h, b, r, HIDING_PROGRAM[at..]);
  }

  predicate Ordinary(h: Header) {
    Usable(h) && h.opcodeBase >= 4 && |h.fileNames| > 1
  }

  lemma FixedTen(more: seq<Byte>)
    ensures ReadFixed([10, 0, 0, 0] + more, 4) == Some((10, more))
  {
    var b := [10, 0, 0, 0] + more;
    assert b[1..][1..][1..][1..] == more;
    assert ReadFixed(b[1..][1..][1..][1..], 0) == Some((0, more));
    assert ReadFixed(b[1..][1..][1..], 1) == Some((0, more));
    assert ReadFixed(b[1..][1..], 2) == Some((0, more));
  }

  lemma SmallVaruint(n: Byte, more: seq<Byte>)
    requires n < 128
    ensures ReadVaruint([n] + more) == Some((n, more))
  {
    assert ([n] + more)[1..] == more;
  }

  lemma DecodesSetAddress(h: Header, rest: seq<Byte>)
    requires Ordinary(h)
    ensures Decode(h, [0, 5, 2, 10, 0, 0, 0] + rest) == Some((SetAddress(10), rest))
  {
    var bin := [0, 5, 2, 10, 0, 0, 0] + rest;
    var body := [2, 10, 0, 0, 0] + rest;
    assert bin[1..] == [5] + body;
    SmallVaruint(5, body);
    assert body[..5] == [2, 10, 0, 0, 0] && body[5..] == rest;
    FixedTen([]);
    assert body[..5][1..] == [10, 0, 0, 0] + [];
  }

  lemma DecodesEnd(h: Header, rest: seq<Byte>)
    requires Ordinary(h)
    ensures Decode(h, [0, 1, 1] + rest) == Some((EndSequence, rest))
  {
    var bin, body := [0, 1, 1] + rest, [1] + rest;
    assert bin[1..] == [1] + body;
    SmallVaruint(1, body);
    assert body[..1] == [1] && body[1..] == rest;
  }

  lemma DecodesStandard(h: Header, n: Byte, rest: seq<Byte>)
    requires Ordinary(h) && n < 64
    ensures Decode(h, [1] + rest) == Some((Copy, rest))
    ensures Decode(h, [2, n] + rest) == Some((AdvancePc(n), rest))
    ensures Decode(h, [3, n] + rest) == Some((AdvanceLine(n), rest))
  {
    assert ([1] + rest)[1..] == rest;
    assert ([2, n] + rest)[1..] == [n] + rest && ([3, n] + rest)[1..] == [n] + rest;
    SmallVaruint(n, rest);
    assert ([n] + rest)[1..] == rest;
  }

  const NO_ROWS := Builder(None, None, [])
  const FIRST_ROW := Builder(Some(10), Some(Location(10, 10, 1, 4)), [])
  const SECOND_ROW := Builder(Some(10), Some(Location(10, 10, 1, 5)), [Location(10, 10, 1, 4)])
  const BOTH_RANGES := [Location(10, 10, 1, 4), Location(10, 20, 1, 5)]

  lemma RangesGrow()
    ensures AddRow(FIRST_ROW, Row(10, 1, 5, false)) == SECOND_ROW
    ensures AddRow(SECOND_ROW, Row(20, 1, 5, true)) == Builder(None, None, BOTH_RANGES)
  {
    assert SECOND_ROW.done + [Location(10, 20, 1, 5)] == BOTH_RANGES;
  }

  lemma One(p: seq<Byte>, i: nat)
    requires i + 1 <= |p|
    ensures p[i..] == [p[i]] + p[i + 1..]
  {
  }

  lemma Two(p: seq<Byte>, i: nat)
    requires i + 2 <= |p|
    ensures p[i..] == [p[i], p[i + 1]] + p[i + 2..]
  {
  }

  lemma Three(p: seq<Byte>, i: nat)
    requires i + 3 <= |p|
    ensures p[i..] == [p[i], p[i + 1], p[i + 2]] + p[i + 3..]
  {
  }

  lemma Seven(p: seq<Byte>, i: nat)
    requires i + 7 <= |p|
    ensures p[i..] == [p[i], p[i + 1], p[i + 2], p[i + 3], p[i + 4], p[i + 5], p[i + 6]] + p[i + 7..]
  {
  }

  lemma StartsAtTen(h: Header)
    requires Ordinary(h)
    ensures At(h, 9, NO_ROWS, Registers(10, 1, 4))
  {
    hide Decode, Unit, UnitFrom;
    var p := HIDING_PROGRAM;
    Begins(h);
    DecodesSetAddress(h, p[7..]);
    Seven(p, 0);
    Passes(h, 0, 7, NO_ROWS, INITIAL, SetAddress(10));
    DecodesStandard(h, 3, p[9..]);
    Two(p, 7);
    Passes(h, 7, 9, NO_ROWS, Registers(10, 1, 1), AdvanceLine(3));
  }

  lemma AddsFirstRow(h: Header)
    requires Ordinary(h)
    ensures At(h, 12, FIRST_ROW, Registers(10, 1, 5))
  {
    hide Decode, Unit, UnitFrom;
    var p := HIDING_PROGRAM;
    StartsAtTen(h);
    DecodesStandard(h, 3, p[10..]);
    One(p, 9);
    Passes(h, 9, 10, NO_ROWS, Registers(10, 1, 4), Copy);
    DecodesStandard(h, 1, p[12..]);
    Two(p, 10);
    Passes(h, 10, 12, FIRST_ROW, Registers(10, 1, 4), AdvanceLine(1));
  }

  lemma AddsSecondRow(h: Header)
    requires Ordinary(h)
    ensures At(h, 15, SECOND_ROW, Registers(20, 1, 5))
  {
    hide Decode, Unit, UnitFrom;
    var p := HIDING_PROGRAM;
    AddsFirstRow(h);
    DecodesStandard(h, 1, p[13..]);
    One(p, 12);
    Passes(h, 12, 13, FIRST_ROW, Registers(10, 1, 5), Copy);
    RangesGrow();
    DecodesStandard(h, 10, p[15..]);
    Two(p, 13);
    Passes(h, 13, 15, SECOND_ROW, Registers(10, 1, 5), AdvancePc(10));
  }

  /** Under any header that has the three standard instructions and a file. */
  lemma HidingProgram(h: Header)
    requires Ordinary(h)
    ensures Unit(h, HIDING_PROGRAM) == Some(BOTH_RANGES) && !AlwaysExact(BOTH_RANGES)
  {
    hide Decode, Unit, UnitFrom, AlwaysExact;
    var p := HIDING_PROGRAM;
    AddsSecondRow(h);
    DecodesEnd(h, p[18..]);
    Three(p, 15);
    Passes(h, 15, 18, SECOND_ROW, Registers(20, 1, 5), EndSequence);
    RangesGrow();
    Ends(h, Builder(None, None, BOTH_RANGES));
    AlwaysExactIff(BOTH_RANGES);
    assert Hides(BOTH_RANGES[0], BOTH_RANGES[1]);
  }

  lemma Begins(h: Header)
    requires Usable(h)
    ensures At(h, 0, Builder(None, None, []), INITIAL)
  {
    assert HIDING_PROGRAM[0..] == HIDING_PROGRAM;
  }

  lemma Ends(h: Header, b: Builder)
    requires Usable(h) && At(h, |HIDING_PROGRAM|, b, INITIAL)
    ensures Unit(h, HIDING_PROGRAM) == Some(b.done)
  {
    assert HIDING_PROGRAM[|HIDING_PROGRAM|..] == [];
  }
}
