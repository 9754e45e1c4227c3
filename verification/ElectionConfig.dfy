/** Planning the rounds of an election: how many rounds there are and how large the groups of each
    round are (contracts/eden/src/elections.cpp, contracts/eden/include/elections.hpp).

    Unsigned widths are written out as remainders wherever a product could wrap; lemmas and method
    contracts then show that no wrap happens for any 16-bit number of participants. */
module ElectionConfig {
  import opened Basics
  import opened Powers

  const WIDTH16 := 0x1_0000
  const WIDTH32 := 0x1_0000_0000

  // ---------------------------------------------------------------------------------------------
  // One round
  // ---------------------------------------------------------------------------------------------

  datatype RoundConfig = RoundConfig(participants: nat, groups: nat) {

    /** The result type of the original is an 8-bit integer. */
    function GroupMaxSize(): nat
      requires groups > 0
    {
      ((participants + groups - 1) / groups) % 256
    }

    function NumShortGroups(): nat
      requires groups > 0
    {
      (GroupMaxSize() * groups - participants) % WIDTH16
    }

    function NumLargeGroups(): nat
      requires groups > 0
    {
      (groups - NumShortGroups()) % WIDTH32
    }

    function GroupMinSize(): nat
      requires groups > 0
    {
      (GroupMaxSize() - 1) % WIDTH32
    }

    /** Sizes of evenly filled groups. */
    function Floor(): nat requires groups > 0 { participants / groups }
    function Ceil(): nat requires groups > 0 { (participants + groups - 1) / groups }
  }

  // ---------------------------------------------------------------------------------------------
  // The requirements on a plan
  // ---------------------------------------------------------------------------------------------

  /** Non-final rounds have groups of 4 to 6, the final round has one group of at least 3, and the
      groups of a round are the participants of the next. */
  predicate Legal(n: nat, c: seq<RoundConfig>) {
    && |c| > 0
    && c[0].participants == n
    && (forall i | 0 <= i < |c| :: c[i].groups > 0)
    && c[|c| - 1].groups == 1
    && (forall i | 0 <= i < |c| - 1 :: c[i].groups == c[i + 1].participants)
    && (forall i | 0 <= i < |c| - 1 :: 4 <= c[i].Floor() && c[i].Ceil() <= 6)
    && 3 <= c[|c| - 1].Floor()
  }

  /** No group of the plan has more than m members. */
  predicate Within(c: seq<RoundConfig>, m: nat) {
    forall i | 0 <= i < |c| :: c[i].groups > 0 && c[i].Ceil() <= m
  }

  function LargestGroup(c: seq<RoundConfig>): (m: nat)
    requires forall i | 0 <= i < |c| :: c[i].groups > 0
    ensures Within(c, m)
    ensures forall k: nat | Within(c, k) :: m <= k
  {
    if |c| == 0 then 0 else
      var rest := LargestGroup(c[1..]);
      assert forall k: nat | Within(c, k) :: Within(c[1..], k) && c[0].Ceil() <= k;
      if c[0].Ceil() <= rest then rest else c[0].Ceil()
  }

  lemma CeilWithin(p: nat, g: nat, m: nat)
    requires g > 0
    ensures (p + g - 1) / g <= m <==> p <= m * g
  {
    var q := (p + g - 1) / g;
    assert p + g - 1 == q * g + (p + g - 1) % g;
    if q <= m {
      MulMono(q, g, m, g);
    } else {
      MulLess(m, q, g);
    }
  }

  lemma FloorAtLeast(p: nat, g: nat, m: nat)
    requires g > 0
    ensures m <= p / g <==> m * g <= p
  {
    var q := p / g;
    assert p == q * g + p % g;
    if m <= q {
      MulMono(m, g, q, g);
    } else {
      MulLess(q, m, g);
    }
  }

  /** A legal plan bounds its participants from both sides. */
  lemma {:induction false} ChainBounds(n: nat, c: seq<RoundConfig>, m: nat)
    requires Legal(n, c) && Within(c, m)
    ensures 3 * Pow(4, |c| - 1) <= n <= Pow(m, |c|)
    ensures |c| > 1 ==> 4 <= m
    decreases |c|
  {
    var g := c[0].groups;
    CeilWithin(n, g, m);
    if |c| == 1 {
      FloorAtLeast(n, g, 3);
      assert Pow(m, 1) == m * Pow(m, 0);
    } else {
      ChainBounds(g, c[1..], m);
      FloorAtLeast(n, g, 4);
      FloorAtLeast(n, g, m + 1);
      assert 4 * g <= n <= m * g;
      assert Pow(4, |c| - 1) == 4 * Pow(4, |c| - 2);
      MulMono(m, g, m, Pow(m, |c| - 1));
      if m < 4 {
        MulMono(m, g, 3, g);
      }
    }
  }

  // ---------------------------------------------------------------------------------------------
  // Number of rounds and basic group size
  // ---------------------------------------------------------------------------------------------

  /** The least number of rounds whose capacity 3 * 4^r exceeds the number of members. */
  function Rounds(n: nat): (r: nat)
    ensures r >= 1
    ensures n < 3 * Pow(4, r)
    ensures r > 1 ==> 3 * Pow(4, r - 1) <= n
  {
    if n < 12 then
      assert Pow(4, 1) == 4 * Pow(4, 0);
      1
    else
      assert Pow(4, 1) == 4 * Pow(4, 0);
      1 + Rounds(n / 4)
  }

  /** The largest z up to the hard-coded limit with z^y <= x. */
  function RootUpTo(x: nat, y: nat, limit: nat): (z: nat)
    ensures z <= limit
    ensures z > 0 ==> Pow(z, y) <= x
    ensures z < limit ==> x < Pow(z + 1, y)
  {
    if limit == 0 || Pow(limit, y) <= x then limit else RootUpTo(x, y, limit - 1)
  }

  function Root(x: nat, y: nat): (z: nat) {
    RootUpTo(x, y, 11)
  }

  method IntPow(base: nat, exponent: nat) returns (result: nat)
    ensures result == Pow(base, exponent) % WIDTH32
  {
    result := 1;
    for i := 0 to exponent
      invariant result == Pow(base, i) % WIDTH32
    {
      PowMod(base, i, WIDTH32);
      result := (result * base) % WIDTH32;
    }
  }

  /** The limits 0 and 12 are hard-coded; x and y must be such that 11^y fits and x < 12^y. */
  method IntRoot(x: nat, y: nat) returns (z: nat)
    requires y > 0 && x < Pow(12, y) && Pow(11, y) < WIDTH32
    ensures Pow(z, y) <= x < Pow(z + 1, y)
    ensures z == Root(x, y)
  {
    var low, high := 0, 12;
    assert Pow(0, y) == 0 * Pow(0, y - 1);
    while high - low > 1
      invariant 0 <= low < high <= 12
      invariant Pow(low, y) <= x < Pow(high, y)
    {
      var mid := (high + low) / 2;
      PowMonoBase(mid, 11, y);
      var p := IntPow(mid, y);
      if x < p {
        high := mid;
      } else {
        low := mid;
      }
    }
    z := low;
    RootUnique(x, y, z);
  }

  lemma RootUnique(x: nat, y: nat, z: nat)
    requires z <= 11 && Pow(z, y) <= x < Pow(z + 1, y)
    ensures z == Root(x, y)
  {
    var w := Root(x, y);
    if w < z {
      PowMonoBase(w + 1, z, y);
    } else if z < w {
      PowMonoBase(z + 1, w, y);
    }
  }

  method CountRounds(numMembers: nat) returns (result: nat)
    requires numMembers < WIDTH16
    ensures result == Rounds(numMembers)
  {
    result := 1;
    var i := 12;
    assert Pow(4, 1) == 4 * Pow(4, 0);
    while i <= numMembers
      invariant i == 3 * Pow(4, result) && result >= 1
      invariant result > 1 ==> 3 * Pow(4, result - 1) <= numMembers
      decreases numMembers + 1 - i
    {
      i := (i * 4) % WIDTH32;
      result := result + 1;
    }
    RoundsUnique(numMembers, result);
  }

  lemma RoundsUnique(n: nat, r: nat)
    requires r >= 1 && n < 3 * Pow(4, r)
    requires r > 1 ==> 3 * Pow(4, r - 1) <= n
    ensures r == Rounds(n)
  {
    var s := Rounds(n);
    if r < s {
      PowMonoExp(4, r, s - 1);
    } else if s < r {
      PowMonoExp(4, s, r - 1);
    }
  }

  // ---------------------------------------------------------------------------------------------
  // Group sizes
  // ---------------------------------------------------------------------------------------------

  /** l is an acceptable integer part of log(num / den) / log(p / q): the exact floor, or one less
      when the quotient of logarithms is exactly an integer and is rounded down. */
  predicate LogQuotient(l: nat, num: nat, den: nat, p: nat, q: nat) {
    && den * Pow(p, l) <= num * Pow(q, l)
    && num * Pow(q, l + 1) <= den * Pow(p, l + 1)
  }

  /** The exact floor of log(num / den) / log(p / q). */
  predicate LogFloor(l: nat, num: nat, den: nat, p: nat, q: nat) {
    && den * Pow(p, l) <= num * Pow(q, l)
    && num * Pow(q, l + 1) < den * Pow(p, l + 1)
  }

  /** Whatever exceeds the ratio at k exceeds it at every later exponent. */
  lemma LogBelow(l: nat, num: nat, den: nat, p: nat, q: nat, k: nat)
    requires 0 < q <= p
    requires den * Pow(p, l) <= num * Pow(q, l)
    requires num * Pow(q, k) < den * Pow(p, k)
    ensures l < k
  {
    if k <= l {
      PowAdd(p, k, l - k);
      PowAdd(q, k, l - k);
      PowMonoBase(q, p, l - k);
      PowPositive(q, l - k);
      var a, b := num * Pow(q, k), den * Pow(p, k);
      var u, v := Pow(q, l - k), Pow(p, l - k);
      MulAssoc(num, Pow(q, k), u);
      MulAssoc(den, Pow(p, k), v);
      MulLess(a, b, u);
      MulMono(b, u, b, v);
    }
  }

  lemma {:induction false} LogFloorExists(num: nat, den: nat, p: nat, q: nat, k: nat)
    requires den <= num
    requires num * Pow(q, k) < den * Pow(p, k)
    ensures exists l: nat :: l < k && LogFloor(l, num, den, p, q)
  {
    if k == 0 {
      LogAtZero(num, den, p, q);
    } else if num * Pow(q, k - 1) < den * Pow(p, k - 1) {
      LogFloorExists(num, den, p, q, k - 1);
    } else {
      assert LogFloor(k - 1, num, den, p, q);
    }
  }

  lemma LogAtZero(num: nat, den: nat, p: nat, q: nat)
    ensures num * Pow(q, 0) == num && den * Pow(p, 0) == den
  {
  }

  /** 4, ..., 4, 3 with the last `large` rounds before the final one raised to 5. */
  function SizesFinalThree(rounds: nat, large: nat): seq<nat>
    requires rounds > 0
  {
    seq(rounds, i => if i == rounds - 1 then 3 else if i >= rounds - large - 1 then 5 else 4)
  }

  /** 5, 6, ..., 6 and what is left for the final round. */
  function SizesFinalRest(n: nat, rounds: nat): seq<nat>
    requires rounds > 0
  {
    PowPositive(6, rounds - 1);
    var last := (n + Pow(6, rounds - 1) - 1) / Pow(6, rounds - 1);
    seq(rounds, i => if i == rounds - 1 then last else if i == 0 then 5 else 6)
  }

  /** x, ..., x, x + 1, ..., x + 1. */
  function SizesTwo(rounds: nat, basic: nat, large: nat): seq<nat> {
    seq(rounds, i => if i < rounds - large then basic else basic + 1)
  }

  /** The vector of group sizes, first round first. */
  function Sizes(n: nat, rounds: nat, basic: nat, large: nat): (s: seq<nat>)
    requires rounds > 0
    ensures |s| == rounds
  {
    if basic == 3 then SizesFinalThree(rounds, large)
    else if basic >= 6 then SizesFinalRest(n, rounds)
    else SizesTwo(rounds, basic, large)
  }

  /** The arguments of the logarithms: (num, den, p, q). */
  function LogDenominator(rounds: nat, basic: nat): nat
    requires rounds > 0
  {
    if basic == 3 then 3 * Pow(4, rounds - 1) else Pow(basic, rounds)
  }

  function LogBase(basic: nat): nat {
    if basic == 3 then 4 else basic
  }

  /** What the planner knows once it has chosen the number of large rounds. */
  predicate Planned(n: nat, rounds: nat, basic: nat, large: nat) {
    && 0 < n
    && rounds == Rounds(n)
    && Pow(basic, rounds) <= n < Pow(basic + 1, rounds)
    && (basic >= 6 || Quotient(large, n, rounds, basic))
  }

  predicate Quotient(large: nat, n: nat, rounds: nat, basic: nat)
    requires rounds > 0
  {
    LogQuotient(large, n, LogDenominator(rounds, basic), LogBase(basic) + 1, LogBase(basic))
  }

  /** The log quotient is below the number of rounds, and at most 1 when the final group has 3. */
  lemma LargeRoundsBound(n: nat, rounds: nat, basic: nat, k: nat)
    requires 0 < n && rounds == Rounds(n) && basic < 6
    requires Pow(basic, rounds) <= n < Pow(basic + 1, rounds)
    requires k == if basic != 3 then rounds else if rounds == 1 then 1 else 2
    ensures basic > 0
    ensures LogDenominator(rounds, basic) <= n
    ensures n * Pow(LogBase(basic), k) < LogDenominator(rounds, basic) * Pow(LogBase(basic) + 1, k)
  {
    PowOne(rounds);
    if basic == 3 {
      ThreeBound(n, rounds, k);
    } else {
      PowPositive(basic, rounds);
      StrictFactor(Pow(basic, rounds), n, Pow(basic + 1, rounds));
    }
  }

  lemma StrictFactor(d: nat, x: nat, y: nat)
    requires d > 0 && x < y
    ensures d * x < d * y && x * d < d * y
  {
    MulLess(x, y, d);
  }

  lemma PowAtOne(b: nat)
    ensures Pow(b, 1) == b
  {
    assert Pow(b, 1) == b * Pow(b, 0);
  }

  lemma ThreeBound(n: nat, rounds: nat, k: nat)
    requires rounds == Rounds(n) && Pow(3, rounds) <= n < Pow(4, rounds)
    requires k == if rounds == 1 then 1 else 2
    ensures 3 * Pow(4, rounds - 1) <= n
    ensures n * Pow(4, k) < 3 * Pow(4, rounds - 1) * Pow(5, k)
  {
    var f := Pow(4, rounds - 1);
    assert Pow(4, rounds) == 4 * f;
    SmallPowers();
    if rounds == 1 {
      assert n == 3 && f == 1;
    } else {
      assert n * 16 < 3 * f * 25;
    }
  }

  lemma SmallPowers()
    ensures Pow(3, 1) == 3
    ensures Pow(4, 0) == 1 && Pow(4, 1) == 4 && Pow(4, 2) == 16
    ensures Pow(5, 0) == 1 && Pow(5, 1) == 5 && Pow(5, 2) == 25
    ensures Pow(6, 0) == 1 && Pow(6, 1) == 6 && Pow(6, 2) == 36
  {
    assert Pow(3, 1) == 3 * Pow(3, 0);
    assert Pow(4, 1) == 4 * Pow(4, 0);
    assert Pow(4, 2) == 4 * Pow(4, 1);
    assert Pow(5, 1) == 5 * Pow(5, 0);
    assert Pow(5, 2) == 5 * Pow(5, 1);
    assert Pow(6, 1) == 6 * Pow(6, 0);
    assert Pow(6, 2) == 6 * Pow(6, 1);
  }

  lemma PowOne(e: nat)
    ensures Pow(1, e) == 1
  {
  }

  /** Large round counts that the planner can see: below the number of rounds. */
  lemma LargeRoundsSmall(n: nat, rounds: nat, basic: nat, large: nat)
    requires Planned(n, rounds, basic, large) && basic < 6
    ensures basic > 0 && large < rounds
    ensures basic == 3 ==> large <= 1
  {
    var k := if basic != 3 then rounds else if rounds == 1 then 1 else 2;
    LargeRoundsBound(n, rounds, basic, k);
    LogBelow(large, n, LogDenominator(rounds, basic), LogBase(basic) + 1, LogBase(basic), k);
  }

  // ---------------------------------------------------------------------------------------------
  // Products of group sizes
  // ---------------------------------------------------------------------------------------------

  function Product(s: seq<nat>): nat {
    if |s| == 0 then 1 else s[0] * Product(s[1..])
  }

  /** The chain of rounds that a vector of sizes describes. */
  function ConfigOf(n: nat, sizes: seq<nat>): (c: seq<RoundConfig>)
    ensures |c| == |sizes|
  {
    seq(|sizes|, i requires 0 <= i < |sizes| =>
      RoundConfig(if i == 0 then n else Product(sizes[i..]), Product(sizes[i + 1..])))
  }

  lemma ProductPositive(s: seq<nat>)
    requires forall i | 0 <= i < |s| :: s[i] > 0
    ensures Product(s) > 0
  {
    if |s| > 0 {
      ProductPositive(s[1..]);
      MulPositive(s[0], Product(s[1..]));
    }
  }

  lemma {:induction false} ProductTwoStep(s: seq<nat>, b: nat, large: nat)
    requires large <= |s|
    requires forall i | 0 <= i < |s| :: s[i] == if i < |s| - large then b else b + 1
    ensures Product(s) == Pow(b, |s| - large) * Pow(b + 1, large)
    decreases |s|
  {
    if |s| > 0 {
      if large < |s| {
        ProductTwoStep(s[1..], b, large);
        MulAssoc(b, Pow(b, |s| - large - 1), Pow(b + 1, large));
      } else {
        ProductTwoStep(s[1..], b, large - 1);
        assert Pow(b, 0) == 1;
      }
    }
  }

  /** 4, ..., 4, 3 and 4, ..., 4, 5, 3. */
  lemma {:induction false} ProductFours(s: seq<nat>, large: nat)
    requires |s| > 0 && large <= 1
    requires forall i | 0 <= i < |s| :: s[i] == if i == |s| - 1 then 3 else if i >= |s| - large - 1 then 5 else 4
    ensures large == 0 ==> Product(s) == 3 * Pow(4, |s| - 1)
    ensures large == 1 && |s| >= 2 ==> Product(s) == 15 * Pow(4, |s| - 2)
    ensures large == 1 && |s| == 1 ==> Product(s) == 3
    decreases |s|
  {
    if |s| == 1 {
      assert Product(s[1..]) == 1;
    } else {
      ProductFours(s[1..], large);
      if large == 1 && |s| == 2 {
        assert s[0] == 5;
      }
    }
  }

  // ---------------------------------------------------------------------------------------------
  // The first round carries the remainder; the others have exactly their size
  // ---------------------------------------------------------------------------------------------

  /** Bounds of the first round's group size. */
  predicate FirstRound(n: nat, sizes: seq<nat>, low: nat, high: nat) {
    |sizes| > 0 && low * Product(sizes[1..]) <= n <= high * Product(sizes[1..])
  }

  lemma FirstRoundBasicThree(n: nat, rounds: nat, large: nat)
    requires Planned(n, rounds, 3, large)
    ensures rounds == 1 ==> n == 3 && large == 0
    ensures rounds > 1 ==> FirstRound(n, Sizes(n, rounds, 3, large), 4, if n == 3 * Pow(4, rounds - 1) then 4 else 5)
  {
    LargeRoundsSmall(n, rounds, 3, large);
    var s := Sizes(n, rounds, 3, large);
    var t := s[1..];
    assert Pow(4, rounds) == 4 * Pow(4, rounds - 1);
    if rounds == 1 {
      assert Pow(3, 1) == 3 * Pow(3, 0) && Pow(4, 1) == 4 * Pow(4, 0);
      LargeRoundsBound(n, rounds, 3, 1);
      LogBelow(large, n, LogDenominator(rounds, 3), 5, 4, 1);
    } else {
      assert forall i | 0 <= i < |t| :: t[i] == s[i + 1];
      ProductFours(t, large);
      assert Pow(4, rounds - 1) == 4 * Pow(4, rounds - 2);
      var f := Pow(4, rounds - 1);
      if large == 0 {
        assert Pow(4, 0) == 1 && Pow(5, 0) == 1 && Pow(4, 1) == 4 && Pow(5, 1) == 5;
        assert 4 * n <= 15 * f;
      } else {
        assert Pow(4, 1) == 4 * Pow(4, 0) && Pow(5, 1) == 5 * Pow(5, 0);
        assert 15 * f <= 4 * n;
        if rounds == 2 {
          assert Pow(4, 0) == 1 && f == 4;
          assert Product(t) == 3;
        } else {
          assert Pow(4, rounds - 2) == 4 * Pow(4, rounds - 3);
        }
      }
    }
  }

  lemma FirstRoundMiddle(n: nat, rounds: nat, basic: nat, large: nat)
    requires Planned(n, rounds, basic, large) && basic < 6 && basic != 3
    ensures FirstRound(n, Sizes(n, rounds, basic, large), basic, if n == Pow(basic, rounds) then basic else basic + 1)
  {
    LargeRoundsSmall(n, rounds, basic, large);
    var s := Sizes(n, rounds, basic, large);
    var t := s[1..];
    assert forall i | 0 <= i < |t| :: t[i] == s[i + 1];
    ProductTwoStep(t, basic, large);
    var g := Pow(basic, rounds - 1 - large) * Pow(basic + 1, large);
    assert Product(t) == g;
    Cancel(basic, rounds, large, n);
    CancelUp(basic, rounds, large, n);
    if n == Pow(basic, rounds) {
      ExactPower(n, rounds, basic, large);
      assert g == Pow(basic, rounds - 1);
    }
  }

  /** When n is exactly a power of the basic size no round is large. */
  lemma ExactPower(n: nat, rounds: nat, basic: nat, large: nat)
    requires Planned(n, rounds, basic, large) && basic < 6 && basic != 3
    requires n == Pow(basic, rounds)
    ensures large == 0
  {
    if large > 0 {
      PowLess(basic, large);
      StrictFactor(n, Pow(basic, large), Pow(basic + 1, large));
    }
  }

  lemma ExactThree(n: nat, rounds: nat, large: nat)
    requires Planned(n, rounds, 3, large)
    requires n == 3 * Pow(4, rounds - 1)
    ensures large == 0
  {
    if large > 0 {
      PowLess(4, large);
      StrictFactor(n, Pow(4, large), Pow(5, large));
    }
  }

  lemma PowLess(b: nat, e: nat)
    requires e > 0
    ensures Pow(b, e) < Pow(b + 1, e)
  {
    if e > 1 {
      PowLess(b, e - 1);
      MulMono(b, Pow(b, e - 1), b, Pow(b + 1, e - 1));
      PowPositive(b + 1, e - 1);
      MulLess(b, b + 1, Pow(b + 1, e - 1));
    } else {
      assert Pow(b, 1) == b * Pow(b, 0) && Pow(b + 1, 1) == (b + 1) * Pow(b + 1, 0);
    }
  }

  lemma CancelLeft(x: nat, y: nat, d: nat)
    requires d > 0 && d * x <= d * y
    ensures x <= y
  {
    if y < x {
      MulLess(y, x, d);
    }
  }

  lemma Cancel(b: nat, r: nat, l: nat, n: nat)
    requires b > 0 && l < r
    requires Pow(b, r) * Pow(b + 1, l) <= n * Pow(b, l)
    ensures b * (Pow(b, r - 1 - l) * Pow(b + 1, l)) <= n
  {
    var u, v, w := Pow(b, l), Pow(b, r - l), Pow(b + 1, l);
    PowAdd(b, l, r - l);
    PowPositive(b, l);
    MulAssoc(u, v, w);
    assert u * (v * w) <= u * n;
    CancelLeft(v * w, n, u);
    assert v == b * Pow(b, r - l - 1);
    MulAssoc(b, Pow(b, r - l - 1), w);
  }

  lemma CancelUp(b: nat, r: nat, l: nat, n: nat)
    requires b > 0 && l < r
    requires n * Pow(b, l + 1) <= Pow(b, r) * Pow(b + 1, l + 1)
    ensures n <= (b + 1) * (Pow(b, r - 1 - l) * Pow(b + 1, l))
  {
    var u, v, w := Pow(b, l + 1), Pow(b, r - l - 1), Pow(b + 1, l);
    PowAdd(b, l + 1, r - l - 1);
    PowPositive(b, l + 1);
    assert Pow(b + 1, l + 1) == (b + 1) * w;
    var x := v * ((b + 1) * w);
    MulAssoc(u, v, (b + 1) * w);
    assert u * n <= u * x;
    CancelLeft(n, x, u);
    assert x == (b + 1) * (v * w) by {
      MulAssoc(v, b + 1, w);
      MulAssoc(b + 1, v, w);
    }
  }

  /** A basic size of 6 or more needs at most two rounds. */
  lemma LargeBasicRounds(n: nat, rounds: nat, basic: nat)
    requires rounds == Rounds(n) && basic >= 6 && Pow(basic, rounds) <= n
    ensures rounds <= 2
  {
    if rounds > 2 {
      PowMonoBase(6, basic, rounds);
      SixBeatsFour(rounds);
    }
  }

  lemma {:induction false} SixBeatsFour(r: nat)
    requires r > 2
    ensures 3 * Pow(4, r) < Pow(6, r)
  {
    if r == 3 {
      assert Pow(4, 1) == 4 * Pow(4, 0) && Pow(4, 2) == 4 * Pow(4, 1) && Pow(4, 3) == 4 * Pow(4, 2);
      assert Pow(6, 1) == 6 * Pow(6, 0) && Pow(6, 2) == 6 * Pow(6, 1) && Pow(6, 3) == 6 * Pow(6, 2);
    } else {
      SixBeatsFour(r - 1);
    }
  }

  /** Two rounds with a basic size of at least 6: 36 to 47 participants. */
  lemma LargeBasicCases(n: nat, rounds: nat, basic: nat)
    requires rounds == Rounds(n) && basic >= 6 && Pow(basic, rounds) <= n
    ensures rounds == 1 || (rounds == 2 && 36 <= n < 48)
    ensures Sizes(n, rounds, basic, 0) == if rounds == 1 then [n] else [5, (n + 5) / 6]
  {
    LargeBasicRounds(n, rounds, basic);
    assert Pow(6, 1) == 6 * Pow(6, 0) && Pow(6, 2) == 6 * Pow(6, 1);
    assert Pow(4, 1) == 4 * Pow(4, 0) && Pow(4, 2) == 4 * Pow(4, 1);
    PowMonoBase(6, basic, rounds);
  }

  /** The largest group the planner produces. */
  function Bound(n: nat, rounds: nat, basic: nat): nat
    requires rounds > 0
  {
    if rounds == 1 then n
    else if basic >= 6 then (n + 5) / 6
    else if basic == 3 then (if n == 3 * Pow(4, rounds - 1) then 4 else 5)
    else if n == Pow(basic, rounds) then basic
    else basic + 1
  }

  /** With more than one round the basic size is at least 3. */
  lemma BasicAtLeastThree(n: nat, rounds: nat, basic: nat)
    requires rounds == Rounds(n) && rounds > 1 && n < Pow(basic + 1, rounds)
    ensures basic >= 3
  {
    if basic < 3 {
      PowMonoBase(basic + 1, 3, rounds);
      PowMonoBase(3, 4, rounds - 1);
    }
  }

  lemma SizesFacts(n: nat, rounds: nat, basic: nat, large: nat)
    requires Planned(n, rounds, basic, large) && n >= 3
    ensures PlanFacts(n, rounds, Sizes(n, rounds, basic, large), Bound(n, rounds, basic))
  {
    var s := Sizes(n, rounds, basic, large);
    if rounds == 1 {
      OneRound(n, basic, large);
    } else {
      BasicAtLeastThree(n, rounds, basic);
      if basic >= 6 {
        LargeBasicCases(n, rounds, basic);
        ProductPair(s);
      } else if basic == 3 {
        LargeRoundsSmall(n, rounds, basic, large);
        FirstRoundBasicThree(n, rounds, large);
        if n == 3 * Pow(4, rounds - 1) {
          ExactThree(n, rounds, large);
        }
      } else {
        LargeRoundsSmall(n, rounds, basic, large);
        FirstRoundMiddle(n, rounds, basic, large);
        FirstRoundWeaken(n, s, basic, if n == Pow(basic, rounds) then basic else basic + 1, 4);
        if n == Pow(basic, rounds) {
          ExactPower(n, rounds, basic, large);
        }
      }
    }
  }

  lemma OneRound(n: nat, basic: nat, large: nat)
    requires Planned(n, 1, basic, large)
    ensures n < 12 && Sizes(n, 1, basic, large) == [n]
  {
    PowAtOne(basic);
    PowAtOne(basic + 1);
    PowAtOne(4);
    assert basic == n;
    assert Pow(6, 0) == 1;
    if basic < 6 {
      LargeRoundsSmall(n, 1, basic, large);
      if basic == 3 {
        FirstRoundBasicThree(n, 1, large);
      }
    }
  }

  predicate PlanFacts(n: nat, rounds: nat, s: seq<nat>, b: nat)
    requires |s| == rounds > 0
  {
    if rounds == 1 then
      3 <= n < 12 && b == n && s == [n]
    else
      && 4 <= b <= 8
      && FirstRound(n, s, 4, if b <= 6 then b else 6)
      && (forall i | 1 <= i < rounds - 1 :: 4 <= s[i] <= 6)
      && (forall i | 1 <= i < rounds :: 0 < s[i] <= b)
      && 3 <= s[rounds - 1]
  }

  lemma ProductPair(s: seq<nat>)
    requires |s| == 2
    ensures Product(s[1..]) == s[1]
  {
    assert s[1..][1..] == [];
    assert Product(s[1..]) == s[1] * Product(s[1..][1..]);
  }

  lemma FirstRoundWeaken(n: nat, s: seq<nat>, low: nat, high: nat, lower: nat)
    requires FirstRound(n, s, low, high) && lower <= low
    ensures FirstRound(n, s, lower, high)
  {
    MulMono(lower, Product(s[1..]), low, Product(s[1..]));
  }

  // ---------------------------------------------------------------------------------------------
  // The plan is legal, and no legal plan has a smaller largest group
  // ---------------------------------------------------------------------------------------------

  /** The exact floor is one of the acceptable quotients. */
  function ExactLarge(n: nat): (large: nat)
    ensures n > 0 ==> Planned(n, Rounds(n), Root(n, Rounds(n)), large)
  {
    if n == 0 then 0 else
      var rounds := Rounds(n);
      var basic := Root(n, rounds);
      RootFits(n);
      if basic >= 6 then 0 else
        var k := if basic != 3 then rounds else if rounds == 1 then 1 else 2;
        LargeRoundsBound(n, rounds, basic, k);
        LogFloorExists(n, LogDenominator(rounds, basic), LogBase(basic) + 1, LogBase(basic), k);
        LargestLog(n, LogDenominator(rounds, basic), LogBase(basic) + 1, LogBase(basic), k)
  }

  /** An integer part of the quotient of logarithms for every number of participants, as exact or rounded
      arithmetic can give it. */
  ghost predicate IsReading(f: nat -> nat) {
    forall n: nat | n > 0 :: Planned(n, Rounds(n), Root(n, Rounds(n)), f(n))
  }

  type Reading = f: nat -> nat | IsReading(f) witness ExactLarge

  /** The reading of the machine that runs the contract, about which nothing else is known. */
  const MACHINE_READING: Reading

  function Large(n: nat): (large: nat)
    ensures n > 0 ==> Planned(n, Rounds(n), Root(n, Rounds(n)), large)
  {
    MACHINE_READING(n)
  }

  /** The integer part of log(num / den) / log(p / q), searched from below k. */
  function LargestLog(num: nat, den: nat, p: nat, q: nat, k: nat): (l: nat)
    requires exists l: nat :: l < k && LogFloor(l, num, den, p, q)
    ensures LogFloor(l, num, den, p, q)
  {
    if LogFloor(k - 1, num, den, p, q) then k - 1 else LargestLog(num, den, p, q, k - 1)
  }

  /** The root stays below its hard-coded limit 12. */
  lemma RootFits(n: nat)
    requires n > 0
    ensures n < Pow(12, Rounds(n))
    ensures Pow(Root(n, Rounds(n)), Rounds(n)) <= n < Pow(Root(n, Rounds(n)) + 1, Rounds(n))
  {
    var r := Rounds(n);
    var z := Root(n, r);
    assert Pow(12, r) == 12 * Pow(12, r - 1);
    assert Pow(4, r) == 4 * Pow(4, r - 1);
    PowMonoBase(4, 12, r - 1);
    assert Pow(0, r) == 0 * Pow(0, r - 1);
  }

  /** The plan of the machine. */
  function PlanFor(n: nat): seq<RoundConfig> {
    if n == 0 then [] else ConfigOf(n, Sizes(n, Rounds(n), Root(n, Rounds(n)), Large(n)))
  }

  lemma ConfigRound(n: nat, s: seq<nat>, i: nat)
    requires 0 < i < |s|
    requires forall j | 1 <= j < |s| :: s[j] > 0
    ensures var c := ConfigOf(n, s)[i]; c.groups > 0 && c.participants == s[i] * c.groups
    ensures ConfigOf(n, s)[i].Floor() == s[i] == ConfigOf(n, s)[i].Ceil()
  {
    var g := Product(s[i + 1..]);
    ProductPositive(s[i + 1..]);
    assert s[i..][1..] == s[i + 1..];
    DivUnique(s[i] * g, g, s[i]);
    DivUnique(s[i] * g + g - 1, g, s[i]);
  }

  lemma ConfigFirstRound(n: nat, s: seq<nat>, low: nat, high: nat)
    requires FirstRound(n, s, low, high)
    requires forall j | 1 <= j < |s| :: s[j] > 0
    ensures var c := ConfigOf(n, s)[0]; c.groups > 0 && low <= c.Floor() && c.Ceil() <= high
  {
    ProductPositive(s[1..]);
    FloorAtLeast(n, Product(s[1..]), low);
    CeilWithin(n, Product(s[1..]), high);
  }

  /** Every acceptable plan meets the requirements of the header and keeps its bound. */
  lemma PlanIsLegal(n: nat, rounds: nat, basic: nat, large: nat)
    requires Planned(n, rounds, basic, large) && n >= 3
    ensures var c := ConfigOf(n, Sizes(n, rounds, basic, large));
      && Legal(n, c)
      && Within(c, Bound(n, rounds, basic))
      && c[|c| - 1].Ceil() <= 11
  {
    SizesFacts(n, rounds, basic, large);
    SizesAreLegal(n, Sizes(n, rounds, basic, large), Bound(n, rounds, basic));
  }

  lemma SizesAreLegal(n: nat, s: seq<nat>, b: nat)
    requires |s| > 0 && PlanFacts(n, |s|, s, b)
    ensures var c := ConfigOf(n, s); Legal(n, c) && Within(c, b) && c[|c| - 1].Ceil() <= 11
  {
    hide Product;
    var c := ConfigOf(n, s);
    assert s[|s|..] == [];
    ProductOfNone();
    if |s| == 1 {
      assert c == [RoundConfig(n, 1)];
    } else {
      forall i | 0 < i < |s|
        ensures c[i].groups > 0 && c[i].Floor() == s[i] == c[i].Ceil()
      {
        ConfigRound(n, s, i);
      }
      ConfigFirstRound(n, s, 4, if b <= 6 then b else 6);
    }
  }

  lemma ProductOfNone()
    ensures Product([]) == 1
  {
  }

  /** The two-round plans with a basic size of at least 6 cannot be improved, because the first
      round's groups have at most 6 members. */
  lemma LargeBasicOptimal(n: nat, rounds: nat, basic: nat, other: seq<RoundConfig>, m: nat)
    requires rounds == Rounds(n) == 2 && basic >= 6 && Pow(basic, rounds) <= n
    requires Legal(n, other) && Within(other, m)
    ensures (n + 5) / 6 <= m
  {
    LargeBasicCases(n, rounds, basic);
    ChainBounds(n, other, m);
    hide Rounds, Pow;
    if |other| == 1 {
      CeilWithin(n, 1, m);
    } else if |other| == 2 {
      CeilWithin(n, other[0].groups, 6);
      CeilWithin(other[0].groups, 1, m);
    } else {
      PowMonoExp(4, 2, |other| - 1);
      SmallPowers();
    }
  }

  /** A plan whose groups all have exactly 4 members except the last. */
  lemma {:induction false} OnlyFours(n: nat, c: seq<RoundConfig>)
    requires Legal(n, c) && Within(c, 4) && |c| > 1
    ensures n == 3 * Pow(4, |c| - 1) || n == 4 * Pow(4, |c| - 1)
    decreases |c|
  {
    var g := c[0].groups;
    CeilWithin(n, g, 4);
    FloorAtLeast(n, g, 4);
    assert n == 4 * g;
    if |c| == 2 {
      FloorAtLeast(g, 1, 3);
      CeilWithin(g, 1, 4);
      PowAtOne(4);
    } else {
      OnlyFours(g, c[1..]);
      assert Pow(4, |c| - 1) == 4 * Pow(4, |c| - 2);
    }
  }

  /** Another legal plan never has more rounds. */
  lemma NoMoreRounds(n: nat, other: seq<RoundConfig>, m: nat)
    requires Legal(n, other) && Within(other, m)
    ensures |other| <= Rounds(n) && n <= Pow(m, Rounds(n)) && m > 0
  {
    ChainBounds(n, other, m);
    if |other| > Rounds(n) {
      PowMonoExp(4, Rounds(n), |other| - 1);
    }
    if m > 0 {
      PowMonoExp(m, |other|, Rounds(n));
    }
  }

  /** The largest group is as small as any legal plan can make it. */
  lemma PlanIsOptimal(n: nat, rounds: nat, basic: nat, large: nat, other: seq<RoundConfig>, m: nat)
    requires Planned(n, rounds, basic, large) && n >= 3
    requires Legal(n, other) && Within(other, m)
    ensures Bound(n, rounds, basic) <= m
  {
    NoMoreRounds(n, other, m);
    if rounds == 1 {
      CeilWithin(n, 1, m);
    } else {
      BasicAtLeastThree(n, rounds, basic);
      if basic >= 6 {
        LargeBasicRounds(n, rounds, basic);
        LargeBasicOptimal(n, rounds, basic, other, m);
      } else if m < basic {
        PowMonoBase(m, basic, rounds);
        PowLessBase(m, basic, rounds);
      } else if m == basic && basic > 3 {
      } else if m <= 4 {
        ThreeOptimal(n, rounds, other, m);
      }
    }
  }

  lemma PowLessBase(a: nat, b: nat, e: nat)
    requires a < b && e > 0
    ensures Pow(a, e) < Pow(b, e)
  {
    PowLess(a, e);
    PowMonoBase(a + 1, b, e);
  }

  /** Basic size 3: a largest group of 4 is possible only when n = 3 * 4^(rounds - 1). */
  lemma ThreeOptimal(n: nat, rounds: nat, other: seq<RoundConfig>, m: nat)
    requires rounds == Rounds(n) > 1 && Pow(3, rounds) <= n < Pow(4, rounds)
    requires Legal(n, other) && Within(other, m) && m <= 4
    ensures m == 4 && n == 3 * Pow(4, rounds - 1)
  {
    NoMoreRounds(n, other, m);
    ChainBounds(n, other, m);
    if |other| == 1 {
      CeilWithin(n, 1, m);
    } else {
      assert Within(other, 4);
      OnlyFours(n, other);
      assert Pow(4, rounds) == 4 * Pow(4, rounds - 1);
      assert Pow(4, rounds - 1) == 4 * Pow(4, rounds - 2);
      if |other| < rounds {
        PowMonoExp(4, |other| - 1, rounds - 2);
      }
    }
  }

  /** The header's requirements, with "as small as possible" taken over all legal plans. */
  ghost predicate MeetsRequirements(n: nat, c: seq<RoundConfig>) {
    && Legal(n, c)
    && c[|c| - 1].Ceil() <= 11
    && forall other | Legal(n, other) :: LargestGroup(c) <= LargestGroup(other)
  }

  /** Every plan the planner can produce for at least three participants meets the requirements. */
  lemma PlanMeetsRequirements(n: nat, rounds: nat, basic: nat, large: nat)
    requires Planned(n, rounds, basic, large) && n >= 3
    ensures MeetsRequirements(n, ConfigOf(n, Sizes(n, rounds, basic, large)))
  {
    PlanIsLegal(n, rounds, basic, large);
    forall other | Legal(n, other)
      ensures LargestGroup(ConfigOf(n, Sizes(n, rounds, basic, large))) <= LargestGroup(other)
    {
      PlanIsOptimal(n, rounds, basic, large, other, LargestGroup(other));
    }
  }

  /** One or two participants form a single group, below the minimum of the final round. */
  lemma TinyElection(n: nat)
    requires 0 < n < 3
    ensures PlanFor(n) == [RoundConfig(n, 1)]
    ensures !Legal(n, PlanFor(n))
  {
    OneRound(n, Root(n, 1), Large(n));
    ConfigOfSlots(n, [n], [RoundConfig(n, 1)]);
  }

  // ---------------------------------------------------------------------------------------------
  // The planner
  // ---------------------------------------------------------------------------------------------

  lemma NoWrap(n: nat, rounds: nat)
    requires 0 < n < WIDTH16 && rounds == Rounds(n)
    ensures rounds <= 8
    ensures Pow(11, rounds) < WIDTH32
    ensures Pow(4, rounds - 1) < WIDTH32 && Pow(6, rounds - 1) < WIDTH32
  {
    if rounds > 8 {
      PowMonoExp(4, 8, rounds - 1);
      PowersOfFour();
    }
    PowMonoExp(11, rounds, 8);
    PowMonoBase(4, 11, rounds - 1);
    PowMonoBase(6, 11, rounds - 1);
    PowMonoExp(11, rounds - 1, 8);
    PowersOfEleven();
  }

  lemma PowersOfFour()
    ensures Pow(4, 8) == 65536
  {
    PowAdd(4, 4, 4);
    PowAdd(4, 2, 2);
    SmallPowers();
  }

  lemma PowersOfEleven()
    ensures Pow(11, 8) == 214358881
  {
    PowAdd(11, 4, 4);
    PowAdd(11, 2, 2);
    PowAdd(11, 1, 1);
    PowAtOne(11);
  }

  lemma QuotientExists(n: nat, rounds: nat, basic: nat)
    requires 0 < n < WIDTH16 && rounds == Rounds(n) && basic == Root(n, rounds) < 6
    ensures Pow(basic, rounds) <= n < Pow(basic + 1, rounds)
    ensures LogDenominator(rounds, basic) < WIDTH32
    ensures exists l: nat :: Quotient(l, n, rounds, basic)
  {
    RootFits(n);
    assert Planned(n, rounds, basic, Large(n));
    LargeRoundsBound(n, rounds, basic, if basic != 3 then rounds else if rounds == 1 then 1 else 2);
    assert Quotient(Large(n), n, rounds, basic);
  }

  /** num_members / int_pow(4, num_rounds - 1) / 3 or num_members / int_pow(basic, num_rounds). */
  method Denominator(rounds: nat, basic: nat) returns (power: nat)
    requires rounds > 0 && LogDenominator(rounds, basic) < WIDTH32
    ensures power == LogDenominator(rounds, basic)
  {
    if basic == 3 {
      power := IntPow(4, rounds - 1);
      power := power * 3;
    } else {
      power := IntPow(basic, rounds);
    }
  }

  /** The quotient of logarithms: the integer part that the machine's arithmetic gives. */
  method LargeRounds(n: nat, rounds: nat, basic: nat) returns (large: nat)
    requires 0 < n < WIDTH16 && rounds == Rounds(n) && basic == Root(n, rounds) < 6
    ensures Planned(n, rounds, basic, large) && large == Large(n)
  {
    QuotientExists(n, rounds, basic);
    var power := Denominator(rounds, basic);
    assert LogQuotient(Large(n), n, power, LogBase(basic) + 1, LogBase(basic));
    large := Large(n);
  }

  method SixesAndRest(n: nat, rounds: nat) returns (result: seq<nat>)
    requires rounds > 0 && Pow(6, rounds - 1) < WIDTH32
    ensures result == SizesFinalRest(n, rounds)
  {
    result := seq(rounds, i => 6);
    result := result[0 := 5];
    var divisor := IntPow(6, rounds - 1);
    PowPositive(6, rounds - 1);
    result := result[rounds - 1 := (n + divisor - 1) / divisor];
  }

  /** The check on the number of large rounds does not fail when the quotient is at most 1. */
  method FinalGroupOfThree(rounds: nat, large: nat) returns (r: Result<seq<nat>>)
    requires rounds > 0 && large < rounds
    ensures r.Success? <==> large <= 1
    ensures r.Success? ==> r.value == SizesFinalThree(rounds, large)
  {
    var result := seq(rounds, i => 4);
    result := result[rounds - 1 := 3];
    if large > 1 {
      return Failure("More that one large round is unexpected when the final group size is 3.");
    }
    var first := rounds - large - 1;
    var i := first;
    while i < rounds - 1
      invariant first <= i <= rounds - 1
      invariant |result| == rounds
      invariant forall j | 0 <= j < rounds ::
        result[j] == if j == rounds - 1 then 3 else if first <= j < i then 5 else 4
    {
      result := result[i := 5];
      i := i + 1;
    }
    assert result == SizesFinalThree(rounds, large);
    r := Success(result);
  }

  method TwoSizes(rounds: nat, basic: nat, large: nat) returns (result: seq<nat>)
    requires large < rounds
    ensures result == SizesTwo(rounds, basic, large)
  {
    result := seq(rounds, i => basic + 1);
    for i := 0 to rounds - large
      invariant |result| == rounds
      invariant forall j | 0 <= j < rounds :: result[j] == if j < i then basic else basic + 1
    {
      result := result[i := basic];
    }
  }

  method GetGroupSizes(numMembers: nat, numRounds: nat) returns (r: Result<seq<nat>>, ghost large: nat)
    requires 0 < numMembers < WIDTH16 && numRounds == Rounds(numMembers)
    ensures Planned(numMembers, numRounds, Root(numMembers, numRounds), large) && large == Large(numMembers)
    ensures r == Success(Sizes(numMembers, numRounds, Root(numMembers, numRounds), large))
  {
    NoWrap(numMembers, numRounds);
    RootFits(numMembers);
    var basic := IntRoot(numMembers, numRounds);
    if basic >= 6 {
      large := Large(numMembers);
      var sizes := SixesAndRest(numMembers, numRounds);
      r := Success(sizes);
    } else {
      var largeRounds := LargeRounds(numMembers, numRounds, basic);
      LargeRoundsSmall(numMembers, numRounds, basic, largeRounds);
      large := largeRounds;
      if basic == 3 {
        r := FinalGroupOfThree(numRounds, largeRounds);
      } else {
        var sizes := TwoSizes(numRounds, basic, largeRounds);
        r := Success(sizes);
      }
    }
  }

  /** A product stored in a 16-bit unsigned integer. */
  function Times16(a: nat, b: nat): nat {
    (a * b) % WIDTH16
  }

  /** The rounds are filled in from the last one backwards. */
  method FillRounds(n: nat, sizes: seq<nat>) returns (result: seq<RoundConfig>)
    requires |sizes| > 0
    requires forall i | 0 < i < |sizes| :: Product(sizes[i..]) < WIDTH16
    ensures result == ConfigOf(n, sizes)
  {
    var config := new RoundConfig[|sizes|];
    var nextParticipants := 1;
    var i := 0;
    assert sizes[|sizes|..] == [];
    while i < |sizes| - 1
      invariant 0 <= i <= |sizes| - 1
      invariant nextParticipants == Product(sizes[|sizes| - i..])
      invariant forall j | |sizes| - i <= j < |sizes| :: config[j] == Later(sizes, j)
    {
      var idx := |sizes| - i - 1;
      ProductStep(sizes, idx);
      var participants := Times16(nextParticipants, sizes[idx]);
      config[idx] := RoundConfig(participants, nextParticipants);
      nextParticipants := participants;
      i := i + 1;
    }
    config[0] := RoundConfig(n, nextParticipants);
    ConfigOfSlots(n, sizes, config[..]);
    result := config[..];
  }

  method MakeElectionConfig(numParticipants: nat) returns (r: Result<seq<RoundConfig>>)
    requires numParticipants < WIDTH16
    ensures r == Success(PlanFor(numParticipants))
    ensures numParticipants == 0 ==> r == Success([])
    ensures numParticipants >= 3 ==> MeetsRequirements(numParticipants, r.value)
  {
    if numParticipants == 0 {
      return Success([]);
    }
    var rounds := CountRounds(numParticipants);
    var sizes, large := GetGroupSizes(numParticipants, rounds);
    match sizes
    case Failure(error) =>
      r := Failure(error);
    case Success(sizes) =>
      forall i | 0 < i < |sizes| ensures Product(sizes[i..]) < WIDTH16 {
        SuffixFits(numParticipants, rounds, Root(numParticipants, rounds), large, i);
      }
      var config := FillRounds(numParticipants, sizes);
      if numParticipants >= 3 {
        PlanMeetsRequirements(numParticipants, rounds, Root(numParticipants, rounds), large);
      }
      r := Success(config);
  }

  /** The round at a later index has exactly the product of the remaining sizes as participants. */
  function Later(sizes: seq<nat>, j: nat): RoundConfig
    requires j < |sizes|
  {
    RoundConfig(Product(sizes[j..]), Product(sizes[j + 1..]))
  }

  lemma ProductStep(sizes: seq<nat>, j: nat)
    requires j < |sizes|
    ensures Product(sizes[j..]) == Product(sizes[j + 1..]) * sizes[j]
  {
    assert sizes[j..][1..] == sizes[j + 1..];
  }

  lemma ConfigOfSlots(n: nat, sizes: seq<nat>, c: seq<RoundConfig>)
    requires |c| == |sizes| > 0
    requires c[0] == RoundConfig(n, Product(sizes[1..]))
    requires forall j | 1 <= j < |sizes| :: c[j] == Later(sizes, j)
    ensures c == ConfigOf(n, sizes)
  {
  }

  /** No round of the plan has more participants than the election. */
  lemma SuffixFits(n: nat, rounds: nat, basic: nat, large: nat, i: nat)
    requires Planned(n, rounds, basic, large) && n < WIDTH16 && 0 < i < rounds
    ensures Product(Sizes(n, rounds, basic, large)[i..]) <= n
  {
    var s := Sizes(n, rounds, basic, large);
    if n >= 3 {
      SizesFacts(n, rounds, basic, large);
      ProductPositive(s[1..]);
      SuffixProduct(s, 1, i);
    }
  }

  lemma {:induction false} SuffixProduct(s: seq<nat>, i: nat, j: nat)
    requires i <= j <= |s|
    requires forall k | i <= k < |s| :: s[k] > 0
    ensures Product(s[j..]) <= Product(s[i..])
    decreases j - i
  {
    if i < j {
      assert s[i..][1..] == s[i + 1..];
      SuffixProduct(s, i + 1, j);
      MulMono(1, Product(s[i + 1..]), s[i], Product(s[i + 1..]));
    }
  }
}
