/** What one pass over the schedule reserves, records and schedules next, in numbers
    (contracts/eden/src/distributions.cpp, setup_distribution). */
module MonthlyPass {
  import opened Basics
  import opened Totals
  import opened RankBudget
  import opened Members
  import opened Ledger

  /** The amount of a pool with percentage `pct` and balance `b`: the whole units of `pct` percent of it in a full
      month, and of the part that `s` seconds are of 30 days when an election cuts the month short. */
  predicate IsReserved(b: int, pct: nat, s: Option<nat>, x: nat) {
    match s
    case None => 100 * x <= pct * b < 100 * (x + 1)
    case Some(num) => 259200000 * x <= num * pct * b < 259200000 * (x + 1)
  }

  predicate DistinctPools(pools: seq<Pool>) {
    forall i, j | 0 <= i < j < |pools| :: pools[i].name != pools[j].name
  }

  lemma AmountIsReserved(b: nat, pct: nat, s: Option<nat>)
    ensures IsReserved(b, pct, s, ReserveAmount(b, pct, s))
  {
    match s
    case None => FloorBracket(pct * b, 100);
    case Some(num) => FloorBracket(num * pct * b, 259200000);
  }

  lemma NothingIsReserved(pct: nat, s: Option<nat>)
    ensures IsReserved(0, pct, s, 0)
  {
  }

  lemma SubBalance(a: Accounts, k: Name, q: int, j: Name)
    requires k in a
    ensures Balance(Sub(a, k, q), j) == Balance(a, j) - if j == k then q else 0
  {
  }

  lemma AddBalanceAt(a: Accounts, k: Name, q: int, j: Name)
    ensures Balance(Add(a, k, q), j) == Balance(a, j) + if j == k then q else 0
  {
  }

  predicate NoPool(pools: seq<Pool>, k: Name) {
    forall i | 0 <= i < |pools| :: pools[i].name != k
  }

  /** Every pool loses exactly its amount, everybody else keeps what there is. */
  ghost predicate Reserved(pools: seq<Pool>, owned: Accounts, s: Option<nat>, xs: seq<nat>, after: Accounts) {
    && |xs| == |pools|
    && (forall i | 0 <= i < |pools| :: IsReserved(Balance(owned, pools[i].name), pools[i].pct, s, xs[i]))
    && (forall i | 0 <= i < |pools| :: Balance(after, pools[i].name) == Balance(owned, pools[i].name) - xs[i])
    && (forall k | NoPool(pools, k) :: Balance(after, k) == Balance(owned, k))
  }

  lemma {:induction false} ReserveTakes(pools: seq<Pool>, owned: Accounts, s: Option<nat>) returns (xs: seq<nat>)
    requires NonNegative(owned) && PoolsOk(pools) && ProrateOk(s) && DistinctPools(pools)
    ensures Reserved(pools, owned, s, xs, Reserve(pools, owned, s).0)
    ensures Reserve(pools, owned, s).1 == Suffix(xs, 0)
    decreases |pools|
  {
    hide IsReserved, Balance;
    if |pools| == 0 {
      xs := [];
    } else {
      var name, b := pools[0].name, Balance(owned, pools[0].name);
      var x, next := FirstTakes(pools, owned, s);
      var more := ReserveTakes(pools[1..], next, s);
      xs := [x] + more;
      SumFirst(x, more);
      assert NoPool(pools[1..], name);
      forall i | 0 <= i < |pools|
        ensures IsReserved(Balance(owned, pools[i].name), pools[i].pct, s, xs[i])
        ensures Balance(Reserve(pools, owned, s).0, pools[i].name) == Balance(owned, pools[i].name) - xs[i]
      {
        assert i > 0 ==> pools[1..][i - 1] == pools[i] && xs[i] == more[i - 1];
      }
      forall k | NoPool(pools, k) ensures Balance(Reserve(pools, owned, s).0, k) == Balance(owned, k) {
        assert pools[0].name != k && NoPool(pools[1..], k);
      }
    }
  }

  lemma FirstTakes(pools: seq<Pool>, owned: Accounts, s: Option<nat>) returns (x: nat, next: Accounts)
    requires NonNegative(owned) && PoolsOk(pools) && ProrateOk(s) && |pools| > 0
    ensures IsReserved(Balance(owned, pools[0].name), pools[0].pct, s, x)
    ensures NonNegative(next)
    ensures forall k :: Balance(next, k) == Balance(owned, k) - if k == pools[0].name then x else 0
    ensures Reserve(pools, owned, s) == (Reserve(pools[1..], next, s).0, x + Reserve(pools[1..], next, s).1)
  {
    hide IsReserved;
    var name := pools[0].name;
    if name !in owned {
      x, next := 0, owned;
      NothingIsReserved(pools[0].pct, s);
    } else {
      x := ReserveAmount(owned[name], pools[0].pct, s);
      AmountIsReserved(owned[name], pools[0].pct, s);
      ReserveAtMostBalance(owned[name], pools[0].pct, s);
      next := Sub(owned, name, x);
    }
  }

  lemma SumFirst(x: nat, more: seq<nat>)
    ensures Suffix([x] + more, 0) == x + Suffix(more, 0)
  {
    SumShift(x, more, 0);
  }

  lemma {:induction false} SumShift(x: nat, more: seq<nat>, i: nat)
    requires i <= |more|
    ensures Suffix([x] + more, i + 1) == Suffix(more, i)
    decreases |more| - i
  {
    if i < |more| {
      SumShift(x, more, i + 1);
    }
  }

  /** An election falls strictly inside the 30 days from t on; times count half seconds. */
  predicate ElectionInside(t: Time, election: Option<Time>) {
    election.Some? && t < election.value < t + 5184000
  }

  /** What a pass that has reserved `total` for time t records: the row of the distribution, if there is one, the fund,
      and what goes back to the master pool. */
  predicate Recorded(self: Name, ranks: seq<nat>, election: Option<Time>, r: Reserves, r': Reserves, total: nat, back: nat)
    requires |r.dists| > 0 && (election.Some? && election.value > NextTime(r) ==> |ranks| >= 2)
  {
    var t, before := NextTime(r), r.dists[..|r.dists| - 1];
    var next := Next(if ElectionInside(t, election) then election.value else t + 5184000);
    if total == 0 then
      r'.dists == before + [next] && r'.funds == r.funds && back == 0
    else if election.Some? && election.value > t then
      && r'.dists == before + [Current(t, 0, RankDistribution(ranks, total)), next]
      && r'.funds == r.funds[FundKey(self, t, 0) := Distributed(ranks, total)]
      && back == total - Distributed(ranks, total)
    else
      && r'.dists == before + [ForElection(t, total), next]
      && r'.funds == r.funds[FundKey(self, t, 0) := total] && back == 0
  }

  /** One pass. Every pool, by default the master pool with 5 percent, loses its amount for the month, or for the part
      of it before an election; all of it is recorded for the time that was due, except what the division by ranks leaves
      over, which goes back to the master pool; the next time is 30 days later, or that of the election. */
  lemma PassReserves(self: Name, ranks: seq<nat>, election: Option<Time>, r: Reserves) returns (xs: seq<nat>, back: nat)
    requires |r.dists| > 0 && NonNegative(r.owned) && PoolsOk(r.pools) && DistinctPools(r.pools)
    requires election.Some? && election.value > NextTime(r) ==> |ranks| >= 2
    ensures var t, r' := NextTime(r), SetupPass(self, ranks, election, r);
      var s := if ElectionInside(t, election) then Some((election.value - t) / 2) else None;
      var pools := if |r.pools| == 0 then [Pool(MASTER, 5)] else r.pools;
      && r'.pools == pools && |xs| == |pools|
      && (forall i | 0 <= i < |pools| :: IsReserved(Balance(r.owned, pools[i].name), pools[i].pct, s, xs[i]))
      && Recorded(self, ranks, election, r, r', Suffix(xs, 0), back)
      && (forall i | 0 <= i < |pools| ::
            Balance(r'.owned, pools[i].name) == Balance(r.owned, pools[i].name) - xs[i] + if pools[i].name == MASTER then back else 0)
      && (forall k | NoPool(pools, k) :: Balance(r'.owned, k) == Balance(r.owned, k) + if k == MASTER then back else 0)
  {
    hide IsReserved, Reserve, RankDistribution, Distributed;
    var t := NextTime(r);
    var s := if ElectionInside(t, election) then Some((election.value - t) / 2) else None;
    assert Prorate(t, election) == s;
    var pools := if |r.pools| == 0 then [Pool(MASTER, 5)] else r.pools;
    xs := ReserveTakes(pools, r.owned, s);
    var (owned, total) := Reserve(pools, r.owned, s);
    back := PassRecords(self, ranks, election, r, pools, owned, total);
  }

  lemma PassRecords(self: Name, ranks: seq<nat>, election: Option<Time>, r: Reserves, pools: seq<Pool>, owned: Accounts, total: nat)
    returns (back: nat)
    requires |r.dists| > 0
    requires election.Some? && election.value > NextTime(r) ==> |ranks| >= 2
    ensures var r' := Enter(self, ranks, election, r.(pools := pools, owned := owned), total);
      && r'.pools == pools
      && Recorded(self, ranks, election, r, r', total, back)
      && forall k :: Balance(r'.owned, k) == Balance(owned, k) + if k == MASTER then back else 0
  {
    var t := NextTime(r);
    if total > 0 && election.Some? && election.value > t {
      UsedAtMostAmount(ranks, total);
      hide RankDistribution;
      back := total - Distributed(ranks, total);
    } else {
      back := 0;
    }
  }
}
