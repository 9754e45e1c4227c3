/** Dividing a budget among ranks with integer amounts
    (contracts/eden/src/distributions.cpp, make_distribution). */
module RankBudget {
  import opened Basics
  import opened Powers
  import opened Totals

  const WIDTH16 := 0x1_0000

  /** What one member at or above rank i receives for that rank, before the remainder is assigned:
      nothing for the chief, a double share just below, one share elsewhere. */
  function Share(ranks: seq<nat>, amount: nat, i: nat): nat
    requires |ranks| >= 2 && 1 <= i < |ranks| && Suffix(ranks, i) > 0
  {
    LevelShare(|ranks|, amount / (|ranks| - 1), i, Suffix(ranks, i))
  }

  function LevelShare(numRanks: nat, perRank: nat, i: nat, total: nat): nat
    requires total > 0
  {
    if i + 1 == numRanks then 0
    else if i + 2 == numRanks then perRank * 2 / total
    else perRank / total
  }

  /** The shares of ranks i and above that have members. */
  function Shares(ranks: seq<nat>, amount: nat, i: nat): seq<nat>
    requires |ranks| >= 2 && 1 <= i
    decreases |ranks| - i
  {
    if i >= |ranks| || Suffix(ranks, i) == 0 then [] else [Share(ranks, amount, i)] + Shares(ranks, amount, i + 1)
  }

  /** What members at or above each rank receive together, from rank i on. */
  function Used(ranks: seq<nat>, amount: nat, i: nat): nat
    requires |ranks| >= 2 && 1 <= i
    decreases |ranks| - i
  {
    if i >= |ranks| || Suffix(ranks, i) == 0 then 0
    else Share(ranks, amount, i) * Suffix(ranks, i) + Used(ranks, amount, i + 1)
  }

  /** The per-rank amounts: entry k is paid to every member whose rank is above k. */
  function RankDistribution(ranks: seq<nat>, amount: nat): (r: seq<nat>)
    requires |ranks| >= 2
    ensures |r| == |Shares(ranks, amount, 1)|
  {
    var shares := Shares(ranks, amount, 1);
    SharesReachTop(ranks, amount, 1);
    UsedAtMostAmount(ranks, amount);
    if ranks[|ranks| - 1] != 0 then
      var last := |shares| - 1;
      shares[last := shares[last] + (amount - Used(ranks, amount, 1))]
    else
      shares
  }

  /** The amount that is really handed out. */
  function Distributed(ranks: seq<nat>, amount: nat): nat
    requires |ranks| >= 2
  {
    if ranks[|ranks| - 1] != 0 then amount else Used(ranks, amount, 1)
  }

  /** Everything paid when every member at or above each rank receives the rank's amount. */
  function Spent(amounts: seq<nat>, ranks: seq<nat>): nat {
    SpentFrom(amounts, ranks, 0)
  }

  function SpentFrom(amounts: seq<nat>, ranks: seq<nat>, k: nat): nat
    decreases |amounts| - k
  {
    if k >= |amounts| then 0 else amounts[k] * Suffix(ranks, k + 1) + SpentFrom(amounts, ranks, k + 1)
  }

  // ---------------------------------------------------------------------------------------------
  // Lengths
  // ---------------------------------------------------------------------------------------------

  lemma {:induction false} SharesReachTop(ranks: seq<nat>, amount: nat, i: nat)
    requires |ranks| >= 2 && 1 <= i <= |ranks|
    ensures |Shares(ranks, amount, i)| <= |ranks| - i
    ensures ranks[|ranks| - 1] != 0 ==> |Shares(ranks, amount, i)| == |ranks| - i
    decreases |ranks| - i
  {
    if i < |ranks| {
      SharesReachTop(ranks, amount, i + 1);
      SuffixMonotone(ranks, i, |ranks| - 1);
    }
  }

  /** There is an amount for exactly the ranks that some member reaches. */
  lemma {:induction false} SharesLength(ranks: seq<nat>, amount: nat, i: nat, j: nat)
    requires |ranks| >= 2 && 1 <= i <= j
    ensures j < i + |Shares(ranks, amount, i)| <==> Suffix(ranks, j) > 0
    decreases |ranks| - i
  {
    if i >= |ranks| || Suffix(ranks, i) == 0 {
      SuffixMonotone(ranks, i, j);
    } else if i < j {
      SharesLength(ranks, amount, i + 1, j);
    }
  }

  lemma DistributionLength(ranks: seq<nat>, amount: nat, j: nat)
    requires |ranks| >= 2 && 1 <= j
    ensures j <= |RankDistribution(ranks, amount)| <==> Suffix(ranks, j) > 0
  {
    SharesLength(ranks, amount, 1, j);
  }

  // ---------------------------------------------------------------------------------------------
  // Nothing is lost to rounding
  // ---------------------------------------------------------------------------------------------

  /** Shares of ranks i.. cost at most one budget share per rank, and none for the chief. */
  lemma {:induction false} UsedBound(ranks: seq<nat>, amount: nat, i: nat)
    requires |ranks| >= 2 && 1 <= i <= |ranks|
    ensures Used(ranks, amount, i) <= amount / (|ranks| - 1) * (if i < |ranks| - 1 then |ranks| - i else 0)
    decreases |ranks| - i
  {
    var per := amount / (|ranks| - 1);
    if i < |ranks| && Suffix(ranks, i) != 0 {
      UsedBound(ranks, amount, i + 1);
      var s := Suffix(ranks, i);
      FloorTimes(per, s);
      FloorTimes(per * 2, s);
      if i < |ranks| - 1 {
        if i == |ranks| - 2 {
          assert Used(ranks, amount, i + 1) == 0;
          assert per * (|ranks| - i) == per * 2;
        } else {
          Distribute(1, |ranks| - i - 1, per);
        }
      }
    } else {
      MulNonNegative(per, if i < |ranks| - 1 then |ranks| - i else 0);
    }
  }

  lemma FloorTimes(n: nat, d: nat)
    requires d > 0
    ensures n / d * d <= n
  {
    assert n == n / d * d + n % d;
  }

  lemma UsedAtMostAmount(ranks: seq<nat>, amount: nat)
    requires |ranks| >= 2
    ensures Used(ranks, amount, 1) <= amount
  {
    UsedBound(ranks, amount, 1);
    FloorTimes(amount, |ranks| - 1);
  }

  lemma {:induction false} SpentShares(ranks: seq<nat>, amount: nat, all: seq<nat>, k: nat)
    requires |ranks| >= 2 && k <= |all|
    requires all[k..] == Shares(ranks, amount, k + 1)
    ensures SpentFrom(all, ranks, k) == Used(ranks, amount, k + 1)
    decreases |all| - k
  {
    if k < |all| {
      assert all[k] == all[k..][0];
      assert all[k + 1..] == all[k..][1..];
      SpentShares(ranks, amount, all, k + 1);
    }
  }

  /** Raising one entry by d costs d for every member at or above that rank. */
  lemma {:induction false} SpentUpdate(all: seq<nat>, ranks: seq<nat>, k: nat, i: nat, d: nat)
    requires k <= i < |all|
    ensures SpentFrom(all[i := all[i] + d], ranks, k) == SpentFrom(all, ranks, k) + d * Suffix(ranks, i + 1)
    decreases |all| - k
  {
    var up := all[i := all[i] + d];
    if k == i {
      SpentSame(all, up, ranks, k + 1);
      Distribute(all[i], d, Suffix(ranks, i + 1));
    } else {
      SpentUpdate(all, ranks, k + 1, i, d);
    }
  }

  lemma {:induction false} SpentSame(a: seq<nat>, b: seq<nat>, ranks: seq<nat>, k: nat)
    requires |a| == |b| && forall j | k <= j < |a| :: a[j] == b[j]
    ensures SpentFrom(a, ranks, k) == SpentFrom(b, ranks, k)
    decreases |a| - k
  {
    if k < |a| {
      SpentSame(a, b, ranks, k + 1);
    }
  }

  /** All that is spent, for every vector of ranks: exact up to the copies of the remainder that go
      to members sharing the top rank. */
  lemma SpentTotal(ranks: seq<nat>, amount: nat)
    requires |ranks| >= 2
    ensures var top, rest := ranks[|ranks| - 1], amount - Used(ranks, amount, 1);
      Spent(RankDistribution(ranks, amount), ranks)
        == Distributed(ranks, amount) + (if top == 0 then 0 else rest * (top - 1))
  {
    hide Shares, Used, SpentFrom;
    var shares := Shares(ranks, amount, 1);
    assert shares[0..] == shares;
    SpentShares(ranks, amount, shares, 0);
    var n := |ranks|;
    if ranks[n - 1] != 0 {
      SharesReachTop(ranks, amount, 1);
      UsedAtMostAmount(ranks, amount);
      var rest := amount - Used(ranks, amount, 1);
      SpentUpdate(shares, ranks, 0, n - 2, rest);
      assert Suffix(ranks, n - 1) == ranks[n - 1];
      OneLess(rest, ranks[n - 1]);
    }
  }

  lemma OneLess(x: int, y: int)
    ensures x * y == x + x * (y - 1)
  {
  }

  /** Not missing a satoshi: with at most one chief the payments add up to the amount that is set
      aside, which is the whole budget when there is a chief and never more than it otherwise. */
  lemma NothingIsLost(ranks: seq<nat>, amount: nat)
    requires |ranks| >= 2 && ranks[|ranks| - 1] <= 1
    ensures Spent(RankDistribution(ranks, amount), ranks) == Distributed(ranks, amount) <= amount
    ensures ranks[|ranks| - 1] == 1 ==> Distributed(ranks, amount) == amount
  {
    SpentTotal(ranks, amount);
    UsedAtMostAmount(ranks, amount);
  }

  /** What all members at or above rank i are meant to share: nothing at the top rank, two portions below it. */
  function Portion(numRanks: nat, perRank: nat, i: nat): nat {
    if i + 1 >= numRanks then 0 else if i + 2 == numRanks then perRank * 2 else perRank
  }

  /** The budget divides evenly by the ranks, and every portion by its members. With two ranks there is no portion. */
  predicate DividesEvenly(ranks: seq<nat>, amount: nat)
    requires |ranks| >= 2 && ranks[|ranks| - 1] > 0
  {
    if |ranks| == 2 then amount == 0 else
      amount % (|ranks| - 1) == 0 && EvenFrom(ranks, amount / (|ranks| - 1), 1)
  }

  predicate EvenFrom(ranks: seq<nat>, perRank: nat, i: nat)
    requires |ranks| >= 2 && ranks[|ranks| - 1] > 0
  {
    forall j | i <= j < |ranks| - 1 :: Even(ranks, perRank, j)
  }

  predicate Even(ranks: seq<nat>, perRank: nat, j: nat)
    requires j < |ranks| && ranks[|ranks| - 1] > 0
  {
    SuffixReaches(ranks, j);
    Portion(|ranks|, perRank, j) % Suffix(ranks, j) == 0
  }

  lemma SuffixReaches(ranks: seq<nat>, j: nat)
    requires j < |ranks| && ranks[|ranks| - 1] > 0
    ensures Suffix(ranks, j) > 0
  {
    SuffixMonotone(ranks, j, |ranks| - 1);
    SuffixStep(ranks, |ranks| - 1);
  }

  lemma FloorExact(n: nat, d: nat)
    requires d > 0
    ensures n / d * d <= n && (n / d * d == n <==> n % d == 0)
  {
    assert n == n / d * d + n % d;
  }

  lemma UsedStep(ranks: seq<nat>, amount: nat, i: nat)
    requires |ranks| >= 2 && 1 <= i < |ranks| - 1 && ranks[|ranks| - 1] > 0
    ensures var per := amount / (|ranks| - 1);
      var rest := Used(ranks, amount, i) - Used(ranks, amount, i + 1);
      rest <= Portion(|ranks|, per, i) && (rest == Portion(|ranks|, per, i) <==> Even(ranks, per, i))
  {
    SuffixReaches(ranks, i);
    FloorExact(Portion(|ranks|, amount / (|ranks| - 1), i), Suffix(ranks, i));
  }

  lemma {:induction false} UsedExactly(ranks: seq<nat>, amount: nat, i: nat)
    requires |ranks| >= 3 && 1 <= i < |ranks| && ranks[|ranks| - 1] > 0
    ensures var per := amount / (|ranks| - 1);
      var all := if i < |ranks| - 1 then per * (|ranks| - i) else 0;
      Used(ranks, amount, i) <= all && (Used(ranks, amount, i) == all <==> EvenFrom(ranks, per, i))
    decreases |ranks| - i
  {
    hide Used, Even, Portion;
    var n, per := |ranks|, amount / (|ranks| - 1);
    if i == n - 1 {
      TopUsesNothing(ranks, amount);
    } else {
      UsedExactly(ranks, amount, i + 1);
      UsedStep(ranks, amount, i);
      PortionsAdd(n, per, i);
      assert EvenFrom(ranks, per, i) <==> Even(ranks, per, i) && EvenFrom(ranks, per, i + 1);
    }
  }

  lemma TopUsesNothing(ranks: seq<nat>, amount: nat)
    requires |ranks| >= 2
    ensures Used(ranks, amount, |ranks| - 1) == 0
  {
    assert Used(ranks, amount, |ranks|) == 0;
  }

  lemma PortionsAdd(n: nat, per: nat, i: nat)
    requires n >= 3 && 1 <= i < n - 1
    ensures per * (n - i) == Portion(n, per, i) + if i + 1 < n - 1 then per * (n - (i + 1)) else 0
  {
    if i + 1 < n - 1 {
      Distribute(1, n - i - 1, per);
    }
  }

  lemma UsesAllIff(ranks: seq<nat>, amount: nat)
    requires |ranks| >= 2 && ranks[|ranks| - 1] > 0
    ensures Used(ranks, amount, 1) == amount <==> DividesEvenly(ranks, amount)
  {
    hide Used, EvenFrom;
    if |ranks| == 2 {
      TopUsesNothing(ranks, amount);
    } else {
      UsedExactly(ranks, amount, 1);
      FloorExact(amount, |ranks| - 1);
    }
  }

  /** Exactness fails precisely when several members share the top rank and some division leaves a remainder. */
  lemma ExactIff(ranks: seq<nat>, amount: nat)
    requires |ranks| >= 2
    ensures Spent(RankDistribution(ranks, amount), ranks) == Distributed(ranks, amount)
       <==> ranks[|ranks| - 1] <= 1 || DividesEvenly(ranks, amount)
  {
    hide Used, DividesEvenly;
    SpentTotal(ranks, amount);
    UsedAtMostAmount(ranks, amount);
    if ranks[|ranks| - 1] >= 1 {
      UsesAllIff(ranks, amount);
      ProductZero(amount - Used(ranks, amount, 1), ranks[|ranks| - 1] - 1);
    }
  }

  lemma ProductZero(x: int, y: int)
    ensures x * y == 0 <==> x == 0 || y == 0
  {
  }

  // ---------------------------------------------------------------------------------------------
  // What each member receives
  // ---------------------------------------------------------------------------------------------

  lemma {:induction false} SharesAt(ranks: seq<nat>, amount: nat, i: nat, k: nat)
    requires |ranks| >= 2 && 1 <= i <= k < |ranks| && Suffix(ranks, k) > 0
    ensures k - i < |Shares(ranks, amount, i)| && Shares(ranks, amount, i)[k - i] == Share(ranks, amount, k)
    decreases k - i
  {
    SuffixMonotone(ranks, i, k);
    if i < k {
      SharesAt(ranks, amount, i + 1, k);
    }
  }

  lemma FloorBracket(q: nat, d: nat)
    requires d > 0
    ensures q / d * d <= q < (q / d + 1) * d
  {
    assert q == q / d * d + q % d;
    Distribute(q / d, 1, d);
  }

  /** Each rank below the top that has members at or above it: its amount is the largest that all these members can
      have of one portion of the budget, or of two just below the top. Also when the top rank is empty. */
  lemma AmountPerRank(ranks: seq<nat>, amount: nat, k: nat)
    requires |ranks| >= 2 && 1 <= k < |ranks| - 1 && Suffix(ranks, k) > 0
    ensures var d := RankDistribution(ranks, amount);
      var portion := amount / (|ranks| - 1) * (if k == |ranks| - 2 then 2 else 1);
      && k <= |d|
      && d[k - 1] * Suffix(ranks, k) <= portion < (d[k - 1] + 1) * Suffix(ranks, k)
  {
    var n := |ranks|;
    SharesAt(ranks, amount, 1, k);
    if ranks[n - 1] != 0 {
      SharesReachTop(ranks, amount, 1);
    }
    FloorBracket(amount / (n - 1) * (if k == n - 2 then 2 else 1), Suffix(ranks, k));
  }

  lemma {:induction false} SpentPrefix(d: seq<nat>, ranks: seq<nat>, k: nat, n: nat)
    requires k <= n < |d| && |d| == n + 1
    ensures SpentFrom(d, ranks, k) == SpentFrom(d[..n], ranks, k) + d[n] * Suffix(ranks, n + 1)
    decreases n - k
  {
    if k < n {
      SpentPrefix(d, ranks, k + 1, n);
    } else {
      assert SpentFrom(d, ranks, n + 1) == 0;
    }
  }

  /** The chief receives exactly what all payments for the ranks below leave of the budget. Ranks that no member
      reaches have no amount. */
  lemma AmountOfChief(ranks: seq<nat>, amount: nat)
    requires |ranks| >= 2
    ensures var d := RankDistribution(ranks, amount);
      && (forall j: nat | j >= 1 :: j <= |d| <==> Suffix(ranks, j) > 0)
      && (ranks[|ranks| - 1] > 0 ==> |d| == |ranks| - 1 && d[|d| - 1] == amount - Spent(d[..|d| - 1], ranks))
  {
    var n, d := |ranks|, RankDistribution(ranks, amount);
    forall j: nat | j >= 1 ensures j <= |d| <==> Suffix(ranks, j) > 0 {
      DistributionLength(ranks, amount, j);
    }
    if ranks[n - 1] > 0 {
      SharesReachTop(ranks, amount, 1);
      var shares := Shares(ranks, amount, 1);
      assert shares[0..] == shares;
      SpentShares(ranks, amount, shares, 0);
      SpentPrefix(shares, ranks, 0, n - 2);
      SharesAt(ranks, amount, 1, n - 1);
      assert d[..n - 2] == shares[..n - 2];
    }
  }

  /** Two chiefs and a budget of 1: the payments would come to 2. */
  lemma TwoChiefsOverspend()
    ensures RankDistribution([0, 2], 1) == [1]
    ensures Spent(RankDistribution([0, 2], 1), [0, 2]) == 2
    ensures Distributed([0, 2], 1) == 1
  {
    var ranks := [0, 2];
    assert Suffix(ranks, 2) == 0;
    assert Suffix(ranks, 1) == 2;
    assert Shares(ranks, 1, 2) == [];
    assert Shares(ranks, 1, 1) == [0];
    assert Used(ranks, 1, 2) == 0;
    assert SpentFrom([1], ranks, 1) == 0;
  }

  // ---------------------------------------------------------------------------------------------
  // The loop
  // ---------------------------------------------------------------------------------------------

  lemma ReversedPush<T>(s: seq<T>, x: T)
    ensures Reversed(s + [x]) == [x] + Reversed(s)
  {
  }

  /** From the top rank down; the running total of members is a 16-bit unsigned integer. */
  method PerRank(ranks: seq<nat>, amount: nat) returns (result: seq<nat>, used: nat)
    requires |ranks| >= 2 && Suffix(ranks, 1) < WIDTH16
    ensures Reversed(result) == Shares(ranks, amount, 1)
    ensures used == Used(ranks, amount, 1)
  {
    hide Shares, Used, Suffix, LevelShare, Reversed;
    NothingYet(ranks, amount);
    var perRank := amount / (|ranks| - 1);
    used := 0;
    var total := 0;
    result := [];
    var i := |ranks| - 1;
    while i != 0
      invariant 0 <= i < |ranks|
      invariant total == Suffix(ranks, i + 1)
      invariant used == Used(ranks, amount, i + 1)
      invariant Reversed(result) == Shares(ranks, amount, i + 1)
    {
      SuffixMonotone(ranks, 1, i);
      SuffixStep(ranks, i);
      total := (total + ranks[i]) % WIDTH16;
      if total > 0 {
        var thisRank := LevelShare(|ranks|, perRank, i, total);
        used := used + thisRank * total;
        ShareStep(ranks, amount, i, thisRank);
        ReversedPush(result, thisRank);
        result := result + [thisRank];
      } else {
        SharesEmpty(ranks, amount, i);
      }
      i := i - 1;
    }
  }

  lemma NothingYet(ranks: seq<nat>, amount: nat)
    requires |ranks| >= 2
    ensures Suffix(ranks, |ranks|) == 0 && Shares(ranks, amount, |ranks|) == [] && Used(ranks, amount, |ranks|) == 0
    ensures Reversed<nat>([]) == []
  {
  }

  lemma SuffixStep(ranks: seq<nat>, i: nat)
    requires i < |ranks|
    ensures Suffix(ranks, i) == ranks[i] + Suffix(ranks, i + 1)
  {
  }

  lemma ShareStep(ranks: seq<nat>, amount: nat, i: nat, share: nat)
    requires |ranks| >= 2 && 1 <= i < |ranks| && Suffix(ranks, i) > 0
    requires share == Share(ranks, amount, i)
    ensures Shares(ranks, amount, i) == [share] + Shares(ranks, amount, i + 1)
    ensures Used(ranks, amount, i) == share * Suffix(ranks, i) + Used(ranks, amount, i + 1)
    ensures i == |ranks| - 1 ==> share == 0 && Used(ranks, amount, i) == 0
  {
  }

  /** Dividing by the number of ranks above the first fails when there is only one rank. */
  method MakeDistribution(ranks: seq<nat>, amount: nat) returns (r: Result<seq<nat>>, returned: nat)
    requires 0 < |ranks| && Suffix(ranks, 1) < WIDTH16
    ensures |ranks| == 1 ==> r.Failure? && returned == amount
    ensures |ranks| >= 2 ==> r == Success(RankDistribution(ranks, amount)) && returned == Distributed(ranks, amount)
  {
    returned := amount;
    if |ranks| - 1 == 0 {
      return Failure("divide by zero"), amount;
    }
    var result, used := PerRank(ranks, amount);
    result := Reversed(result);
    if ranks[|ranks| - 1] != 0 {
      SharesReachTop(ranks, amount, 1);
      UsedAtMostAmount(ranks, amount);
      result := result[|result| - 1 := result[|result| - 1] + (amount - used)];
    } else {
      returned := used;
    }
    assert result == RankDistribution(ranks, amount);
    r := Success(result);
  }

  lemma SharesEmpty(ranks: seq<nat>, amount: nat, i: nat)
    requires |ranks| >= 2 && 1 <= i && Suffix(ranks, i) == 0
    ensures Shares(ranks, amount, i) == Shares(ranks, amount, i + 1) == []
    ensures Used(ranks, amount, i) == Used(ranks, amount, i + 1) == 0
  {
    SuffixMonotone(ranks, i, i + 1);
  }
}
