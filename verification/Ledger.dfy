/** The books of the contract: distributions, distribution accounts, pools and token accounts
    (contracts/eden/src/distributions.cpp, contracts/eden/src/accounts.cpp), and what one step of
    each operation does to them. */
module Ledger {
  import opened Basics
  import opened Powers
  import opened Totals
  import opened RankBudget
  import opened Members

  /** Block timestamps count half seconds. */
  type Time = nat

  const THIRTY_DAYS: Time := 30 * 24 * 60 * 60 * 2
  const PRORATE_DEN: nat := 30 * 24 * 60 * 60 * 100

  /** The name of the pool that receives everything that is returned. */
  const MASTER: Name := 0x91B1_955C_0000_0000

  datatype Distribution =
    | Next(time: Time)
    | ForElection(time: Time, amount: nat)
    | Current(time: Time, last: Name, amounts: seq<nat>)

  /** The secondary key of the distribution accounts. */
  datatype FundKey = FundKey(owner: Name, time: Time, rank: nat)

  datatype Pool = Pool(name: Name, pct: nat)

  type Accounts = map<Name, int>
  type Funds = map<FundKey, int>

  // ---------------------------------------------------------------------------------------------
  // The distribution table
  // ---------------------------------------------------------------------------------------------

  /** In time order: current distributions, then those waiting for an election, then exactly one
      that comes next. */
  predicate Shape(ds: seq<Distribution>) {
    && (forall i, j | 0 <= i < j < |ds| :: ds[i].time < ds[j].time)
    && (forall i, j | 0 <= i < j < |ds| :: ds[j].Current? ==> ds[i].Current?)
    && (forall i | 0 <= i < |ds| :: ds[i].Next? <==> i == |ds| - 1)
  }

  predicate Open(ds: seq<Distribution>, t: Time) {
    exists i | 0 <= i < |ds| :: ds[i].time == t && !ds[i].Next?
  }

  predicate Before(ds: seq<Distribution>, t: Time) {
    |ds| > 0 && t < ds[|ds| - 1].time
  }

  // ---------------------------------------------------------------------------------------------
  // Distribution accounts
  // ---------------------------------------------------------------------------------------------

  function FundRow(self: Name, t: Time): FundKey {
    FundKey(self, t, 0)
  }

  /** The contract's fund for a distribution; no row counts as zero. */
  function Fund(self: Name, funds: Funds, t: Time): int {
    if FundRow(self, t) in funds then funds[FundRow(self, t)] else 0
  }

  /** The contract's rows belong to open distributions. A member's rows come from distributions that
      have reached the member. */
  predicate KeyOk(self: Name, members: MemberTable, ds: seq<Distribution>, key: FundKey) {
    && Before(ds, key.time)
    && (if key.owner == self then key.rank == 0 && Open(ds, key.time) else
        && key.rank > 0
        && key.owner in members && members[key.owner].active
        && forall i | 0 <= i < |ds| && ds[i].time == key.time :: ds[i].Current? && key.owner <= ds[i].last)
  }

  predicate KeysOk(self: Name, members: MemberTable, ds: seq<Distribution>, funds: Funds) {
    forall key | key in funds :: funds[key] >= 0 && KeyOk(self, members, ds, key)
  }

  /** The fund of a current distribution is what it still owes; the fund of one waiting for an
      election is its whole amount. */
  ghost predicate Covered(self: Name, members: MemberTable, funds: Funds, d: Distribution) {
    match d
    case Next(_) => true
    case ForElection(t, amount) => Fund(self, funds, t) == amount
    case Current(t, last, amounts) =>
      && Fund(self, funds, t) == Owed(members, amounts, last)
      && forall m | m in members && m > last :: members[m].rank <= |amounts| && (members[m].rank > 0 ==> members[m].active)
  }

  ghost predicate AllCovered(self: Name, members: MemberTable, ds: seq<Distribution>, funds: Funds) {
    forall i | 0 <= i < |ds| :: Covered(self, members, funds, ds[i])
  }

  ghost predicate FundsOk(self: Name, members: MemberTable, ds: seq<Distribution>, funds: Funds) {
    && Shape(ds)
    && KeysOk(self, members, ds, funds)
    && AllCovered(self, members, ds, funds)
  }

  // ---------------------------------------------------------------------------------------------
  // Plain accounts
  // ---------------------------------------------------------------------------------------------

  predicate NonNegative(a: Accounts) {
    forall k | k in a :: a[k] >= 0
  }

  function Balance(a: Accounts, k: Name): int {
    if k in a then a[k] else 0
  }

  function Add(a: Accounts, k: Name, q: int): Accounts {
    a[k := Balance(a, k) + q]
  }

  /** A row that reaches zero is erased. */
  function Sub<K>(a: map<K, int>, k: K, q: int): map<K, int>
    requires k in a
  {
    if a[k] == q then a - {k} else a[k := a[k] - q]
  }

  lemma AddTotal(a: Accounts, k: Name, q: int)
    ensures Total(Add(a, k, q)) == Total(a) + q
  {
    hide Total;
    TotalUpdate(a, k, Balance(a, k) + q);
  }

  lemma SubTotal<K(!new)>(a: map<K, int>, k: K, q: int)
    requires k in a
    ensures Total(Sub(a, k, q)) == Total(a) - q
  {
    hide Total;
    if a[k] == q {
      TotalRemove(a, k);
    } else {
      TotalUpdate(a, k, a[k] - q);
    }
  }

  // ---------------------------------------------------------------------------------------------
  // Reserving from the pools
  // ---------------------------------------------------------------------------------------------

  /** The seconds until an election that cuts the month short. */
  function ReserveAmount(balance: nat, pct: nat, prorate: Option<nat>): nat {
    match prorate
    case None => pct * balance / 100
    case Some(num) => num * pct * balance / PRORATE_DEN
  }

  predicate PoolsOk(pools: seq<Pool>) {
    forall i | 0 <= i < |pools| :: pools[i].pct <= 100
  }

  predicate ProrateOk(prorate: Option<nat>) {
    prorate.Some? ==> prorate.value * 100 <= PRORATE_DEN
  }

  /** Takes from every pool that has an account. */
  function Reserve(pools: seq<Pool>, owned: Accounts, prorate: Option<nat>): (r: (Accounts, nat))
    requires NonNegative(owned) && PoolsOk(pools) && ProrateOk(prorate)
    ensures NonNegative(r.0)
  {
    if |pools| == 0 then (owned, 0)
    else if pools[0].name !in owned then Reserve(pools[1..], owned, prorate)
    else
      var amount := ReserveAmount(owned[pools[0].name], pools[0].pct, prorate);
      ReserveAtMostBalance(owned[pools[0].name], pools[0].pct, prorate);
      var (after, total) := Reserve(pools[1..], Sub(owned, pools[0].name, amount), prorate);
      (after, amount + total)
  }

  lemma ReserveAtMostBalance(balance: nat, pct: nat, prorate: Option<nat>)
    requires pct <= 100 && ProrateOk(prorate)
    ensures ReserveAmount(balance, pct, prorate) <= balance
  {
    match prorate
    case None =>
      ScaledDown(pct, balance, 100);
    case Some(num) =>
      assert num * pct <= num * 100;
      ScaledDown(num * pct, balance, PRORATE_DEN);
  }

  lemma ScaledDown(x: nat, balance: nat, d: nat)
    requires 0 < d && x <= d
    ensures x * balance / d <= balance
  {
    MulMono(x, balance, d, balance);
    var q := x * balance / d;
    FloorTimes(x * balance, d);
    if q > balance {
      MulLess(balance, q, d);
    }
  }

  /** What is reserved leaves the pools, and is never more than they hold. */
  lemma {:induction false} ReserveMovesMoney(pools: seq<Pool>, owned: Accounts, prorate: Option<nat>)
    requires NonNegative(owned) && PoolsOk(pools) && ProrateOk(prorate)
    ensures var (after, total) := Reserve(pools, owned, prorate);
      Total(after) + total == Total(owned) && total <= Total(owned)
    decreases |pools|
  {
    if |pools| != 0 {
      if pools[0].name !in owned {
        ReserveMovesMoney(pools[1..], owned, prorate);
      } else {
        var amount := ReserveAmount(owned[pools[0].name], pools[0].pct, prorate);
        ReserveAtMostBalance(owned[pools[0].name], pools[0].pct, prorate);
        SubTotal(owned, pools[0].name, amount);
        ReserveMovesMoney(pools[1..], Sub(owned, pools[0].name, amount), prorate);
      }
    }
    TotalNonNegative(Reserve(pools, owned, prorate).0);
  }

  // ---------------------------------------------------------------------------------------------
  // Setting up the distributions that are due
  // ---------------------------------------------------------------------------------------------

  /** The state of elections as the distributions see it: an election is scheduled; an election has
      started but distributions may still be running; members are being ranked. `seeding` says that the
      seeding window is open, which the source keeps as a state of its own; `version` is the 8-bit number of
      the schedule. */
  datatype Phase = Scheduled(electionTime: Time, version: nat, seeding: bool) | Distributing | Ranking

  /** An election is running from the moment its seeding begins, or its time has come. */
  predicate ElectionRunning(phase: Phase, now: Time) {
    !phase.Scheduled? || phase.seeding || now >= phase.electionTime
  }

  /** 8-bit addition wraps around; 0 is refused. */
  function NextVersion(version: nat): nat {
    (version + 1) % 256
  }

  function NextElection(phase: Phase): Option<Time> {
    if phase.Scheduled? then Some(phase.electionTime) else None
  }

  datatype Reserves = Reserves(dists: seq<Distribution>, funds: Funds, pools: seq<Pool>, owned: Accounts)

  function PoolsOrDefault(pools: seq<Pool>): seq<Pool> {
    if |pools| == 0 then [Pool(MASTER, 5)] else pools
  }

  /** The election falls strictly inside the month that starts at t. */
  predicate CutShort(t: Time, election: Option<Time>) {
    election.Some? && t < election.value < t + THIRTY_DAYS
  }

  function FollowingTime(t: Time, election: Option<Time>): (r: Time)
    ensures r > t
  {
    if CutShort(t, election) then election.value else t + THIRTY_DAYS
  }

  function Prorate(t: Time, election: Option<Time>): (r: Option<nat>)
    ensures ProrateOk(r)
  {
    if CutShort(t, election) then Some((election.value - t) / 2) else None
  }

  /** Members can be paid at once when no election is due before the distribution. */
  predicate PaidAtOnce(t: Time, election: Option<Time>) {
    election.Some? && election.value > t
  }

  predicate RanksReady(ranks: seq<nat>) {
    |ranks| >= 2 && ranks[|ranks| - 1] <= 1
  }

  /** The unspent part of a reserve goes back to the master pool. */
  function Excess(owned: Accounts, used: nat, total: nat): Accounts {
    if used != total then Add(owned, MASTER, total - used) else owned
  }

  /** The row of the next distribution becomes `d`, or is erased, and a new next row follows. */
  function Extend(ds: seq<Distribution>, d: Option<Distribution>, following: Time): seq<Distribution>
    requires |ds| > 0
  {
    ds[..|ds| - 1] + (if d.Some? then [d.value] else []) + [Next(following)]
  }

  /** One pass: the next distribution is due and `total` has been reserved for it. */
  function Enter(self: Name, ranks: seq<nat>, election: Option<Time>, r: Reserves, total: nat): Reserves
    requires |r.dists| > 0
    requires PaidAtOnce(r.dists[|r.dists| - 1].time, election) ==> |ranks| >= 2
  {
    var t := r.dists[|r.dists| - 1].time;
    var following := FollowingTime(t, election);
    if total == 0 then
      r.(dists := Extend(r.dists, None, following))
    else if PaidAtOnce(t, election) then
      var used := Distributed(ranks, total);
      Reserves(Extend(r.dists, Some(Current(t, 0, RankDistribution(ranks, total))), following),
               r.funds[FundRow(self, t) := used],
               r.pools,
               Excess(r.owned, used, total))
    else
      r.(dists := Extend(r.dists, Some(ForElection(t, total)), following),
         funds := r.funds[FundRow(self, t) := total])
  }

  function SetupPass(self: Name, ranks: seq<nat>, election: Option<Time>, r: Reserves): Reserves
    requires |r.dists| > 0
    requires NonNegative(r.owned) && PoolsOk(r.pools)
    requires PaidAtOnce(r.dists[|r.dists| - 1].time, election) ==> |ranks| >= 2
  {
    var t := r.dists[|r.dists| - 1].time;
    var pools := PoolsOrDefault(r.pools);
    var (owned, total) := Reserve(pools, r.owned, Prorate(t, election));
    Enter(self, ranks, election, r.(pools := pools, owned := owned), total)
  }

  function NextTime(r: Reserves): Time
    requires |r.dists| > 0
  {
    r.dists[|r.dists| - 1].time
  }

  /** The tables a pass works on are in order. */
  ghost predicate TablesReady(self: Name, members: MemberTable, election: Option<Time>, r: Reserves) {
    && FundsOk(self, members, r.dists, r.funds)
    && |r.dists| > 0
    && NonNegative(r.owned) && PoolsOk(r.pools)
    && Overdue(r.dists, election)
  }

  /** When the distribution at t is paid at once the rank statistics are complete. */
  ghost predicate StatsReady(members: MemberTable, ranks: seq<nat>, election: Option<Time>, t: Time) {
    && (PaidAtOnce(t, election) ==> RankStats(members, ranks) && RanksReady(ranks))
    && Sane(members)
  }

  /** A distribution waits for an election only when the scheduled election is already due. */
  predicate Overdue(ds: seq<Distribution>, election: Option<Time>) {
    election.Some? ==> forall i | 0 <= i < |ds| && ds[i].ForElection? :: election.value <= ds[i].time
  }

  lemma ExtendShape(ds: seq<Distribution>, d: Option<Distribution>, following: Time)
    requires Shape(ds) && |ds| > 0 && following > ds[|ds| - 1].time
    requires d.Some? ==> d.value.time == ds[|ds| - 1].time && !d.value.Next?
    requires d.Some? && d.value.Current? ==> forall i | 0 <= i < |ds| - 1 :: ds[i].Current?
    ensures Shape(Extend(ds, d, following))
    ensures forall i | 0 <= i < |ds| - 1 :: Extend(ds, d, following)[i] == ds[i]
    ensures |Extend(ds, d, following)| == |ds| + if d.Some? then 1 else 0
    ensures d.Some? ==> Extend(ds, d, following)[|ds| - 1] == d.value
  {
    var e, n := Extend(ds, d, following), |ds| - 1;
    assert forall i | 0 <= i < n :: e[i] == ds[i];
    assert e[|e| - 1] == Next(following);
    assert d.Some? ==> e[n] == d.value;
  }

  lemma ExtendKey(self: Name, members: MemberTable, ds: seq<Distribution>, d: Option<Distribution>, following: Time, key: FundKey)
    requires Shape(ds) && |ds| > 0 && following > ds[|ds| - 1].time
    requires d.Some? ==> d.value.time == ds[|ds| - 1].time && !d.value.Next?
    requires KeyOk(self, members, ds, key)
    ensures KeyOk(self, members, Extend(ds, d, following), key)
  {
    var e, n := Extend(ds, d, following), |ds| - 1;
    assert forall i | 0 <= i < n :: e[i] == ds[i];
    assert e[|e| - 1] == Next(following);
    assert forall i | n <= i < |e| :: e[i].time >= ds[n].time;
    if key.owner == self {
      var i :| 0 <= i < |ds| && ds[i].time == key.time && !ds[i].Next?;
      assert e[i] == ds[i];
    }
  }

  lemma NewKey(self: Name, members: MemberTable, ds: seq<Distribution>, d: Distribution, following: Time)
    requires Shape(ds) && |ds| > 0 && following > ds[|ds| - 1].time
    requires d.time == ds[|ds| - 1].time && !d.Next?
    ensures KeyOk(self, members, Extend(ds, Some(d), following), FundRow(self, d.time))
  {
    var e, n := Extend(ds, Some(d), following), |ds| - 1;
    assert e[n] == d && e[|e| - 1] == Next(following);
  }

  lemma FundRowIsNew(self: Name, members: MemberTable, ds: seq<Distribution>, funds: Funds)
    requires KeysOk(self, members, ds, funds) && |ds| > 0
    ensures FundRow(self, ds[|ds| - 1].time) !in funds
  {
  }

  /** A new row of the distribution table together with its fund. */
  lemma ExtendFunds(self: Name, members: MemberTable, ds: seq<Distribution>, funds: Funds, d: Distribution, following: Time, fund: nat)
    requires FundsOk(self, members, ds, funds) && |ds| > 0 && following > ds[|ds| - 1].time
    requires d.time == ds[|ds| - 1].time && !d.Next?
    requires d.Current? ==> forall i | 0 <= i < |ds| - 1 :: ds[i].Current?
    requires Covered(self, members, funds[FundRow(self, d.time) := fund], d)
    ensures FundsOk(self, members, Extend(ds, Some(d), following), funds[FundRow(self, d.time) := fund])
  {
    var e, funds' := Extend(ds, Some(d), following), funds[FundRow(self, d.time) := fund];
    ExtendShape(ds, Some(d), following);
    forall key | key in funds'
      ensures funds'[key] >= 0 && KeyOk(self, members, e, key)
    {
      if key == FundRow(self, d.time) {
        NewKey(self, members, ds, d, following);
      } else {
        ExtendKey(self, members, ds, Some(d), following, key);
      }
    }
    forall i | 0 <= i < |e| ensures Covered(self, members, funds', e[i]) {
      if i < |ds| - 1 {
        assert Covered(self, members, funds, ds[i]);
      }
    }
  }

  /** The row of the next distribution is replaced by a later one. */
  lemma ExtendNothing(self: Name, members: MemberTable, ds: seq<Distribution>, funds: Funds, following: Time)
    requires FundsOk(self, members, ds, funds) && |ds| > 0 && following > ds[|ds| - 1].time
    ensures FundsOk(self, members, Extend(ds, None, following), funds)
  {
    var e := Extend(ds, None, following);
    ExtendShape(ds, None, following);
    forall key | key in funds ensures funds[key] >= 0 && KeyOk(self, members, e, key) {
      ExtendKey(self, members, ds, None, following, key);
    }
    forall i | 0 <= i < |e| ensures Covered(self, members, funds, e[i]) {
      if i < |ds| - 1 {
        assert Covered(self, members, funds, ds[i]);
      }
    }
  }

  lemma ExtendOverdue(ds: seq<Distribution>, d: Option<Distribution>, following: Time, election: Option<Time>)
    requires |ds| > 0 && Overdue(ds, election)
    requires d.Some? && d.value.ForElection? && election.Some? ==> election.value <= d.value.time
    ensures Overdue(Extend(ds, d, following), election)
  {
    var e := Extend(ds, d, following);
    assert forall i | 0 <= i < |e| :: e[i] == (if i < |ds| - 1 then ds[i] else if i == |e| - 1 then Next(following) else d.value);
  }

  /** A row paid at once comes after current rows only. */
  lemma PaidAfterCurrent(ds: seq<Distribution>, election: Option<Time>)
    requires Shape(ds) && |ds| > 0 && Overdue(ds, election) && PaidAtOnce(ds[|ds| - 1].time, election)
    ensures forall i | 0 <= i < |ds| - 1 :: ds[i].Current?
  {
  }

  ghost predicate Entered(self: Name, members: MemberTable, election: Option<Time>, r: Reserves, total: nat, r': Reserves) {
    && TablesReady(self, members, election, r')
    && Total(r'.owned) + Total(r'.funds) == Total(r.owned) + Total(r.funds) + total
    && |r.dists| > 0
    && r'.dists[|r'.dists| - 1].time > r.dists[|r.dists| - 1].time
  }

  lemma EnterNothing(self: Name, members: MemberTable, election: Option<Time>, r: Reserves)
    requires TablesReady(self, members, election, r)
    ensures var following := FollowingTime(r.dists[|r.dists| - 1].time, election);
      Entered(self, members, election, r, 0, r.(dists := Extend(r.dists, None, following)))
  {
    var following := FollowingTime(r.dists[|r.dists| - 1].time, election);
    ExtendNothing(self, members, r.dists, r.funds, following);
    ExtendOverdue(r.dists, None, following, election);
  }

  /** The row `d` enters with a fund of `fund`, and `excess` returns to the master pool. */
  lemma EnterRow(self: Name, members: MemberTable, election: Option<Time>, r: Reserves, d: Distribution, fund: nat, owned: Accounts, excess: nat)
    requires TablesReady(self, members, election, r)
    requires d.time == r.dists[|r.dists| - 1].time && !d.Next?
    requires d.Current? ==> forall i | 0 <= i < |r.dists| - 1 :: r.dists[i].Current?
    requires d.ForElection? && election.Some? ==> election.value <= d.time
    requires Covered(self, members, r.funds[FundRow(self, d.time) := fund], d)
    requires NonNegative(owned) && Total(owned) == Total(r.owned) + excess
    ensures var following := FollowingTime(d.time, election);
      Entered(self, members, election, r, fund + excess,
              Reserves(Extend(r.dists, Some(d), following), r.funds[FundRow(self, d.time) := fund], r.pools, owned))
  {
    var following := FollowingTime(d.time, election);
    FundRowIsNew(self, members, r.dists, r.funds);
    TotalUpdate(r.funds, FundRow(self, d.time), fund);
    ExtendFunds(self, members, r.dists, r.funds, d, following, fund);
    ExtendOverdue(r.dists, Some(d), following, election);
  }

  lemma NewCurrentCovered(self: Name, members: MemberTable, ranks: seq<nat>, funds: Funds, t: Time, total: nat)
    requires RankStats(members, ranks) && RanksReady(ranks)
    requires Sane(members)
    ensures Covered(self, members, funds[FundRow(self, t) := Distributed(ranks, total)], Current(t, 0, RankDistribution(ranks, total)))
    ensures Distributed(ranks, total) <= total
  {
    NewDistributionIsCovered(members, ranks, total);
  }

  lemma ReturnExcess(owned: Accounts, used: nat, total: nat)
    requires NonNegative(owned) && used <= total
    ensures NonNegative(Excess(owned, used, total))
    ensures Total(Excess(owned, used, total)) == Total(owned) + total - used
  {
    hide Total;
    AddTotal(owned, MASTER, total - used);
  }

  lemma EnterPaid(self: Name, members: MemberTable, ranks: seq<nat>, election: Option<Time>, r: Reserves, total: nat)
    requires TablesReady(self, members, election, r) && total > 0 && |ranks| >= 2
    requires PaidAtOnce(r.dists[|r.dists| - 1].time, election)
    requires var t := r.dists[|r.dists| - 1].time;
      Covered(self, members, r.funds[FundRow(self, t) := Distributed(ranks, total)], Current(t, 0, RankDistribution(ranks, total)))
    requires Distributed(ranks, total) <= total
    ensures Entered(self, members, election, r, total, Enter(self, ranks, election, r, total))
  {
    hide Entered, Covered, KeysOk, AllCovered, RankDistribution, Used, Extend, Distributed;
    var t := r.dists[|r.dists| - 1].time;
    var used := Distributed(ranks, total);
    PaidAfterCurrent(r.dists, election);
    ReturnExcess(r.owned, used, total);
    hide Excess, NonNegative;
    EnterRow(self, members, election, r, Current(t, 0, RankDistribution(ranks, total)), used,
             Excess(r.owned, used, total), total - used);
  }

  lemma EnterKeepsReady(self: Name, members: MemberTable, ranks: seq<nat>, election: Option<Time>, r: Reserves, total: nat)
    requires TablesReady(self, members, election, r) && StatsReady(members, ranks, election, NextTime(r))
    ensures Entered(self, members, election, r, total, Enter(self, ranks, election, r, total))
  {
    var t := r.dists[|r.dists| - 1].time;
    if total == 0 {
      EnterNothing(self, members, election, r);
    } else if PaidAtOnce(t, election) {
      NewCurrentCovered(self, members, ranks, r.funds, t, total);
      EnterPaid(self, members, ranks, election, r, total);
    } else {
      EnterRow(self, members, election, r, ForElection(t, total), total, r.owned, 0);
    }
  }

  /** A pass keeps the tables in order, moves money only between the pools and the funds, and
      schedules a strictly later time. */
  lemma PassKeepsReady(self: Name, members: MemberTable, ranks: seq<nat>, election: Option<Time>, r: Reserves)
    requires TablesReady(self, members, election, r) && StatsReady(members, ranks, election, NextTime(r))
    ensures Entered(self, members, election, r, 0, SetupPass(self, ranks, election, r))
  {
    hide FundsOk, Reserve, Total, Overdue, StatsReady, Prorate;
    var pools := PoolsOrDefault(r.pools);
    var prorate := Prorate(r.dists[|r.dists| - 1].time, election);
    ReserveMovesMoney(pools, r.owned, prorate);
    var (owned, total) := Reserve(pools, r.owned, prorate);
    EnterKeepsReady(self, members, ranks, election, r.(pools := pools, owned := owned), total);
  }

  /** What a pass adds: at most one row, for the time that was due. */
  ghost predicate OnlyDue(ds: seq<Distribution>, ds': seq<Distribution>, election: Option<Time>, now: Time) {
    forall i | 0 <= i < |ds'| && ds'[i] !in ds ::
      || ds'[i].Next?
      || (ds'[i].time <= now && (ds'[i].Current? ==> election.Some? && ds'[i].last == 0))
  }

  lemma PassOnlyDue(self: Name, members: MemberTable, ranks: seq<nat>, election: Option<Time>, r: Reserves, now: Time)
    requires TablesReady(self, members, election, r) && StatsReady(members, ranks, election, NextTime(r))
    requires NextTime(r) <= now
    ensures OnlyDue(r.dists, SetupPass(self, ranks, election, r).dists, election, now)
  {
  }

  /** Passes are made until the next distribution lies in the future. */
  ghost function CatchUp(self: Name, members: MemberTable, ranks: seq<nat>, election: Option<Time>, r: Reserves, now: Time): (r': Reserves)
    requires TablesReady(self, members, election, r) && StatsReady(members, ranks, election, NextTime(r))
    ensures TablesReady(self, members, election, r')
    ensures NextTime(r') > now
    ensures Total(r'.owned) + Total(r'.funds) == Total(r.owned) + Total(r.funds)
    ensures OnlyDue(r.dists, r'.dists, election, now)
    decreases now + 1 - NextTime(r)
  {
    if NextTime(r) > now then r else
      PassKeepsReady(self, members, ranks, election, r);
      PassOnlyDue(self, members, ranks, election, r, now);
      var q := SetupPass(self, ranks, election, r);
      var r' := CatchUp(self, members, ranks, election, q, now);
      OnlyDueTwice(r.dists, q.dists, r'.dists, election, now);
      r'
  }

  lemma OnlyDueTwice(a: seq<Distribution>, b: seq<Distribution>, c: seq<Distribution>, election: Option<Time>, now: Time)
    requires OnlyDue(a, b, election, now) && OnlyDue(b, c, election, now)
    ensures OnlyDue(a, c, election, now)
  {
    forall i | 0 <= i < |c| && c[i] !in a
      ensures c[i].Next? || (c[i].time <= now && (c[i].Current? ==> election.Some? && c[i].last == 0))
    {
      if c[i] in b {
        var j :| 0 <= j < |b| && b[j] == c[i];
      }
    }
  }
}
