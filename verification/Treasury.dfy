/** The contract's money and members as state that the actions update in place
    (contracts/eden/src/distributions.cpp, contracts/eden/src/accounts.cpp,
    contracts/eden/src/actions/accounts.cpp, contracts/eden/src/actions/induct.cpp).

    A check that fails rolls the whole action back: such an action reports false and changes
    nothing. */
module Treasury {
  import opened Basics
  import opened Totals
  import opened RankBudget
  import opened Members
  import opened Ledger
  import opened Payout
  import opened Refunds

  const DAY: Time := 24 * 60 * 60 * 2
  const MINIMUM_DEPOSIT: int := 3

  // ---------------------------------------------------------------------------------------------
  // What holds between transactions
  // ---------------------------------------------------------------------------------------------

  /** The contract itself is not a member; only active members have been in an election. */
  predicate MembersOk(self: Name, members: MemberTable, activeMembers: nat) {
    && self !in members
    && Sane(members)
    && (forall m | m in members && !members[m].active :: !members[m].Represented())
    && activeMembers == |Actives(members)| <= MAX_ACTIVE_MEMBERS
  }

  ghost predicate TablesOk(self: Name, members: MemberTable, r: Reserves) {
    && FundsOk(self, members, r.dists, r.funds)
    && NonNegative(r.owned) && PoolsOk(r.pools)
    && (|r.dists| == 0 ==> r.funds == map[])
  }

  /** Rank statistics are exact while an election is scheduled. Distributions that wait for an
      election wait for one that is due, and nothing is being paid while members are ranked. */
  ghost predicate ElectionOk(members: MemberTable, ranks: seq<nat>, phase: Phase, ds: seq<Distribution>, now: Time) {
    && (phase.Scheduled? ==> RankStats(members, ranks) && (|ds| > 0 ==> RanksReady(ranks)))
    && Overdue(ds, NextElection(phase))
    && Timely(ds, now)
    && (phase.Ranking? ==> NothingRunning(ds))
  }

  /** All accounts together are the contract's token balance. */
  ghost predicate MoneyOk(users: Accounts, outgoing: Accounts, r: Reserves, tokens: int) {
    && NonNegative(users)
    && outgoing == map[]
    && Total(users) + Total(r.owned) + Total(r.funds) == tokens
  }

  /** Everything that holds between transactions. */
  ghost predicate Books(self: Name, members: MemberTable, ranks: seq<nat>, activeMembers: nat, phase: Phase, r: Reserves, now: Time,
      users: Accounts, outgoing: Accounts, tokens: int) {
    && MembersOk(self, members, activeMembers)
    && TablesOk(self, members, r)
    && ElectionOk(members, ranks, phase, r.dists, now)
    && MoneyOk(users, outgoing, r, tokens)
  }

  /** What setting up distributions relies on. */
  ghost predicate SetupReady(self: Name, members: MemberTable, ranks: seq<nat>, election: Option<Time>, r: Reserves) {
    && TablesOk(self, members, r)
    && Overdue(r.dists, election)
    && Sane(members)
    && (|r.dists| > 0 ==> StatsReady(members, ranks, election, NextTime(r)))
  }

  /** The first election opens the table of distributions. */
  function Opened(r: Reserves, init: Option<Time>): Reserves {
    if |r.dists| == 0 && init.Some? then r.(dists := [Next(init.value)]) else r
  }

  lemma OpenedReady(self: Name, members: MemberTable, ranks: seq<nat>, election: Option<Time>, init: Option<Time>, r: Reserves)
    requires SetupReady(self, members, ranks, election, r)
    requires init.Some? ==> election == init
    ensures |Opened(r, init).dists| > 0 ==>
      && TablesReady(self, members, election, Opened(r, init))
      && StatsReady(members, ranks, election, NextTime(Opened(r, init)))
  {
  }

  /** The tables once all due distributions have been set up. */
  ghost function CaughtUp(self: Name, members: MemberTable, ranks: seq<nat>, election: Option<Time>, init: Option<Time>, r: Reserves, now: Time): Reserves
    requires SetupReady(self, members, ranks, election, r)
    requires init.Some? ==> election == init
  {
    OpenedReady(self, members, ranks, election, init, r);
    if |Opened(r, init).dists| == 0 then r else CatchUp(self, members, ranks, election, Opened(r, init), now)
  }

  lemma CaughtUpIs(self: Name, members: MemberTable, ranks: seq<nat>, election: Option<Time>, init: Option<Time>, r: Reserves, now: Time)
    requires SetupReady(self, members, ranks, election, r)
    requires init.Some? ==> election == init
    ensures var o := Opened(r, init);
      && (|o.dists| == 0 ==> CaughtUp(self, members, ranks, election, init, r, now) == r)
      && (|o.dists| > 0 ==>
            && TablesReady(self, members, election, o)
            && StatsReady(members, ranks, election, NextTime(o))
            && CaughtUp(self, members, ranks, election, init, r, now) == CatchUp(self, members, ranks, election, o, now))
  {
    hide TablesOk, TablesReady, StatsReady, CatchUp, Opened;
    OpenedReady(self, members, ranks, election, init, r);
  }

  /** Distributions that wait for an election are due. */
  predicate Timely(ds: seq<Distribution>, now: Time) {
    forall i | 0 <= i < |ds| && ds[i].ForElection? :: ds[i].time <= now
  }

  predicate NothingRunning(ds: seq<Distribution>) {
    forall i | 0 <= i < |ds| :: !ds[i].Current?
  }

  /** Setting up distributions keeps the tables and moves money only between pools and funds. */
  lemma CaughtUpKeeps(self: Name, members: MemberTable, ranks: seq<nat>, election: Option<Time>, init: Option<Time>, r: Reserves, now: Time)
    requires SetupReady(self, members, ranks, election, r)
    requires init.Some? ==> election == init
    requires Timely(r.dists, now)
    ensures var r' := CaughtUp(self, members, ranks, election, init, r, now);
      && TablesOk(self, members, r')
      && Overdue(r'.dists, election)
      && Timely(r'.dists, now)
      && (election.None? && NothingRunning(r.dists) ==> NothingRunning(r'.dists))
      && Total(r'.owned) + Total(r'.funds) == Total(r.owned) + Total(r.funds)
      && (|r'.dists| > 0 ==> NextTime(r') > now)
      && (|r'.dists| == 0 <==> |r.dists| == 0 && init.None?)
  {
    hide FundsOk, StatsReady, NonNegative, PoolsOk, Total;
    OpenedReady(self, members, ranks, election, init, r);
    if |Opened(r, init).dists| > 0 {
      var r' := CatchUp(self, members, ranks, election, Opened(r, init), now);
      OnlyDueTimely(Opened(r, init).dists, r'.dists, election, now);
    }
  }

  lemma OnlyDueTimely(ds: seq<Distribution>, ds': seq<Distribution>, election: Option<Time>, now: Time)
    requires OnlyDue(ds, ds', election, now) && Timely(ds, now)
    ensures Timely(ds', now)
    ensures election.None? && NothingRunning(ds) ==> NothingRunning(ds')
  {
    forall i | 0 <= i < |ds'|
      ensures ds'[i].ForElection? ==> ds'[i].time <= now
      ensures election.None? && NothingRunning(ds) ==> !ds'[i].Current?
    {
      if ds'[i] in ds {
        var j :| 0 <= j < |ds| && ds[j] == ds'[i];
      }
    }
  }

  /** Setting up distributions keeps the books. */
  lemma SetupBooks(self: Name, members: MemberTable, ranks: seq<nat>, activeMembers: nat, phase: Phase, r: Reserves, now: Time,
      users: Accounts, outgoing: Accounts, tokens: int)
    requires Books(self, members, ranks, activeMembers, phase, r, now, users, outgoing, tokens)
    ensures SetupReady(self, members, ranks, NextElection(phase), r)
    ensures var r' := CaughtUp(self, members, ranks, NextElection(phase), None, r, now);
      && Books(self, members, ranks, activeMembers, phase, r', now, users, outgoing, tokens)
      && (|r'.dists| > 0 ==> NextTime(r') > now)
  {
    hide TablesOk, Total, Timely, NothingRunning, RankStats;
    BooksReady(self, members, ranks, activeMembers, phase, r, now);
    CaughtUpKeeps(self, members, ranks, NextElection(phase), None, r, now);
  }

  lemma BooksReady(self: Name, members: MemberTable, ranks: seq<nat>, activeMembers: nat, phase: Phase, r: Reserves, now: Time)
    requires MembersOk(self, members, activeMembers) && TablesOk(self, members, r)
    requires ElectionOk(members, ranks, phase, r.dists, now)
    ensures SetupReady(self, members, ranks, NextElection(phase), r)
  {
  }

  /** The tables after a payout of at most `steps` steps, and the steps left. */
  ghost function PaidTables(self: Name, members: MemberTable, r: Reserves, steps: nat): (p: (Reserves, nat))
    requires self !in members
    ensures p.1 <= steps
  {
    var p := Payout.Distribute(self, members, r.dists, r.funds, steps);
    (r.(dists := p.0, funds := p.1), p.2)
  }

  /** A payout keeps the books, and leaves steps over only when nothing is running any more. */
  lemma PayBooks(self: Name, members: MemberTable, ranks: seq<nat>, activeMembers: nat, phase: Phase, r: Reserves, now: Time,
      users: Accounts, outgoing: Accounts, tokens: int, steps: nat)
    requires Books(self, members, ranks, activeMembers, phase, r, now, users, outgoing, tokens)
    ensures FundsOk(self, members, r.dists, r.funds)
    ensures var p := PaidTables(self, members, r, steps);
      && Books(self, members, ranks, activeMembers, phase, p.0, now, users, outgoing, tokens)
      && (p.1 > 0 ==> NothingRunning(p.0.dists))
  {
    hide Total, RankStats, AllCovered, KeysOk, NonNegative, PoolsOk;
    DistributeKeeps(self, members, r.dists, r.funds, steps);
    var p := Payout.Distribute(self, members, r.dists, r.funds, steps);
    PaidOutTimely(self, members, r.dists, r.funds, p.0, p.1, NextElection(phase), now);
  }

  lemma PaidOutTimely(self: Name, members: MemberTable, ds: seq<Distribution>, funds: Funds, ds': seq<Distribution>, funds': Funds, election: Option<Time>, now: Time)
    requires PaidOut(self, members, ds, funds, ds', funds')
    requires Overdue(ds, election) && Timely(ds, now)
    ensures Overdue(ds', election) && Timely(ds', now)
  {
    forall i | 0 <= i < |ds'| && ds'[i].ForElection?
      ensures ds'[i].time <= now && (election.Some? ==> election.value <= ds'[i].time)
    {
      var j :| 0 <= j < |ds| && ds[j] == ds'[i];
    }
  }

  const EOSIO_PREFIX: Name := 0x5530_EA00_0000_0000

  /** The NFT contracts and accounts whose names start with "eosio" are not users; the mask keeps the
      upper 30 bits of a name. */
  predicate IsPossibleDepositAccount(account: Name, atomicAssets: Name, atomicMarket: Name) {
    && account != atomicMarket
    && account != atomicAssets
    && account / 0x4_0000_0000 != EOSIO_PREFIX / 0x4_0000_0000
  }

  lemma UserGrows(users: Accounts, k: Name, q: nat)
    requires NonNegative(users)
    ensures NonNegative(Add(users, k, q)) && Total(Add(users, k, q)) == Total(users) + q
  {
    AddTotal(users, k, q);
  }

  lemma UserShrinks(users: Accounts, k: Name, q: nat)
    requires NonNegative(users) && k in users && users[k] >= q
    ensures NonNegative(Sub(users, k, q)) && Total(Sub(users, k, q)) == Total(users) - q
  {
    SubTotal(users, k, q);
  }

  lemma PoolGrows(self: Name, members: MemberTable, ranks: seq<nat>, activeMembers: nat, phase: Phase, r: Reserves, now: Time,
      users: Accounts, outgoing: Accounts, tokens: int, q: nat)
    requires Books(self, members, ranks, activeMembers, phase, r, now, users, outgoing, tokens)
    ensures Books(self, members, ranks, activeMembers, phase, r.(owned := Add(r.owned, MASTER, q)), now, users, outgoing, tokens + q)
  {
    hide Total, FundsOk, ElectionOk;
    AddTotal(r.owned, MASTER, q);
  }

  lemma PutMemberBooks(self: Name, members: MemberTable, ranks: seq<nat>, activeMembers: nat, phase: Phase, r: Reserves, now: Time,
      users: Accounts, outgoing: Accounts, tokens: int, m: Name, v: Member)
    requires Books(self, members, ranks, activeMembers, phase, r, now, users, outgoing, tokens)
    requires m != self && 0 < m < NOBODY && !v.Represented() && v.rank == 0
    requires m in members ==> !members[m].active
    requires v.active ==> activeMembers < MAX_ACTIVE_MEMBERS
    ensures Books(self, members[m := v], ranks, activeMembers + if v.active then 1 else 0, phase, r, now, users, outgoing, tokens)
  {
    hide MoneyOk, FundsOk, RankStats;
    PutMemberKeeps(self, members, r.dists, r.funds, m, v);
    if phase.Scheduled? {
      RankStatsAdd(members, ranks, m, v);
    }
    ActivesPut(members, m, v);
  }

  lemma DropPendingBooks(self: Name, members: MemberTable, ranks: seq<nat>, activeMembers: nat, phase: Phase, r: Reserves, now: Time,
      users: Accounts, outgoing: Accounts, tokens: int, m: Name)
    requires Books(self, members, ranks, activeMembers, phase, r, now, users, outgoing, tokens)
    requires m in members && !members[m].active
    ensures Books(self, members - {m}, ranks, activeMembers, phase, r, now, users, outgoing, tokens)
  {
    hide MoneyOk, FundsOk, RankStats;
    DropPendingKeeps(self, members, r.dists, r.funds, m);
    if phase.Scheduled? {
      RankStatsRemove(members, ranks, m);
    }
    ActivesDrop(members, m);
  }

  /** A resignation keeps the books. */
  lemma ResignBooks(self: Name, members: MemberTable, ranks: seq<nat>, activeMembers: nat, phase: Phase, r: Reserves, now: Time,
      users: Accounts, outgoing: Accounts, tokens: int, m: Name)
    requires Books(self, members, ranks, activeMembers, phase, r, now, users, outgoing, tokens)
    requires m in members && members[m].active && phase.Scheduled?
    ensures activeMembers > 0 && m != self
    ensures members[m].Represented() ==> members[m].rank < |ranks| && ranks[members[m].rank] > 0
    ensures Books(self, members - {m}, UncountRank(ranks, members[m]), activeMembers - 1, phase, Resigned(self, members, r, m), now, users, outgoing, tokens)
  {
    hide FundsOk, RankStats, Resigned, Total;
    ResignedKeeps(self, members, r, m);
    ResignedRows(self, members, r, m);
    RankStatsRemove(members, ranks, m);
    ActivesDrop(members, m);
  }

  lemma ResignedRows(self: Name, members: MemberTable, r: Reserves, m: Name)
    requires m in members
    ensures Resigned(self, members, r, m).dists == r.dists && Resigned(self, members, r, m).pools == r.pools
    ensures |r.dists| == 0 && r.funds == map[] ==> Resigned(self, members, r, m).funds == map[]
  {
  }

  lemma ResignedIs(self: Name, members: MemberTable, r: Reserves, m: Name)
    requires m in members && m != self && TablesOk(self, members, r)
    ensures FundsOk(self, members, r.dists, WithoutRows(r.funds, m))
    ensures var after := Refund(self, r.dists, m, members[m].rank, WithoutRows(r.funds, m), Returned(r.owned, RowsOf(r.funds, m)));
      Resigned(self, members, r, m) == r.(funds := after.0, owned := after.1)
  {
    WithoutRowsKeeps(self, members, r.dists, r.funds, m);
  }

  lemma NothingWaits(ds: seq<Distribution>, electionTime: Time, now: Time)
    requires Overdue(ds, Some(electionTime)) && Timely(ds, now) && electionTime > now
    ensures forall i | 0 <= i < |ds| :: !ds[i].ForElection?
  {
  }

  /** Starting an election keeps the books: the statistics are cleared only after the distributions
      that rely on them have been set up. */
  lemma StartBooks(self: Name, members: MemberTable, ranks: seq<nat>, activeMembers: nat, phase: Phase, r: Reserves, now: Time,
      users: Accounts, outgoing: Accounts, tokens: int)
    requires Books(self, members, ranks, activeMembers, phase, r, now, users, outgoing, tokens) && phase.Scheduled?
    ensures SetupReady(self, members, ranks, NextElection(phase), r)
    ensures var r' := CaughtUp(self, members, ranks, NextElection(phase), NextElection(phase), r, now);
      Books(self, members, [], activeMembers, Distributing, r', now, users, outgoing, tokens)
  {
    hide TablesOk, Total, Timely, NothingRunning, RankStats;
    BooksReady(self, members, ranks, activeMembers, phase, r, now);
    CaughtUpKeeps(self, members, ranks, NextElection(phase), NextElection(phase), r, now);
  }

  lemma FinishBooks(self: Name, members: MemberTable, newMembers: MemberTable, newRanks: seq<nat>, activeMembers: nat, nextElection: Time,
      r: Reserves, now: Time, users: Accounts, outgoing: Accounts, tokens: int)
    requires MembersOk(self, members, activeMembers) && TablesOk(self, members, r) && MoneyOk(users, outgoing, r, tokens)
    requires NothingRunning(r.dists)
    requires MembersOk(self, newMembers, activeMembers)
    requires newMembers.Keys == members.Keys && forall m | m in members :: newMembers[m].active == members[m].active
    requires RankStats(newMembers, newRanks) && |newRanks| >= 2 && newRanks[|newRanks| - 1] == 1
    ensures Shape(r.dists)
    ensures Books(self, newMembers, newRanks, activeMembers, Scheduled(nextElection, 1, false), r.(dists := StartedAll(newRanks, r.dists)),
                  now, users, outgoing, tokens)
  {
    hide KeysOk, AllCovered, Shape, RankStats, Total, Sane;
    assert Sane(newMembers);
    StartedKeeps(self, members, newMembers, newRanks, r.dists, r.funds);
  }

  lemma NothingPaidAfterSetup(self: Name, members: MemberTable, ranks: seq<nat>, activeMembers: nat, phase: Phase, r: Reserves, now: Time)
    requires MembersOk(self, members, activeMembers) && TablesOk(self, members, r)
    requires ElectionOk(members, ranks, phase, r.dists, now)
    requires |r.dists| > 0 ==> !r.dists[0].Current?
    ensures SetupReady(self, members, ranks, NextElection(phase), r)
    ensures NothingPaid(CaughtUp(self, members, ranks, NextElection(phase), None, r, now).dists)
  {
    BooksReady(self, members, ranks, activeMembers, phase, r, now);
    if |r.dists| > 0 {
      var ds := CaughtUp(self, members, ranks, NextElection(phase), None, r, now).dists;
      assert OnlyDue(r.dists, ds, NextElection(phase), now);
      NewRowsUnpaid(r.dists, ds, NextElection(phase), now);
    }
  }

  lemma NewRowsUnpaid(ds: seq<Distribution>, ds': seq<Distribution>, election: Option<Time>, now: Time)
    requires OnlyDue(ds, ds', election, now) && Shape(ds) && (|ds| > 0 ==> !ds[0].Current?)
    ensures NothingPaid(ds')
  {
  }

  lemma RenameBooks(self: Name, members: MemberTable, ranks: seq<nat>, activeMembers: nat, phase: Phase, r: Reserves, now: Time,
      users: Accounts, outgoing: Accounts, tokens: int, funds: Funds, a: Name, b: Name)
    requires Books(self, members, ranks, activeMembers, phase, r, now, users, outgoing, tokens)
    requires phase.Scheduled? && NothingPaid(r.dists)
    requires a in members && b !in members && b != self && 0 < b < NOBODY
    requires RowsRenamed(r.funds, funds, a, b) && Total(funds) == Total(r.funds)
    requires !(a in users && b in users)
    ensures Books(self, Renamed(members, a, b), ranks, activeMembers, phase, r.(funds := funds), now, RenamedUser(users, a, b), outgoing, tokens)
  {
    RenameUserKeeps(users, a, b);
    RenamedMembers(self, members, activeMembers, a, b);
    RenamedTables(self, members, r, funds, a, b);
    RenamedElection(members, ranks, phase, r.dists, now, a, b);
    hide TablesOk, ElectionOk, MembersOk, Total, NonNegative, RowsRenamed, Renamed, RenamedUser, NothingPaid;
  }

  lemma RenamedTables(self: Name, members: MemberTable, r: Reserves, funds: Funds, a: Name, b: Name)
    requires TablesOk(self, members, r) && NothingPaid(r.dists) && Sane(members) && self !in members
    requires a in members && b !in members && b != self && 0 < b
    requires RowsRenamed(r.funds, funds, a, b)
    ensures TablesOk(self, Renamed(members, a, b), r.(funds := funds))
  {
    hide FundsOk, NonNegative, PoolsOk, RowsRenamed, Renamed, NothingPaid;
    RenamedKeeps(self, members, r.dists, r.funds, funds, a, b);
    RenamedNothing(r.funds, funds, a, b);
  }

  lemma RenamedElection(members: MemberTable, ranks: seq<nat>, phase: Phase, ds: seq<Distribution>, now: Time, a: Name, b: Name)
    requires ElectionOk(members, ranks, phase, ds, now) && phase.Scheduled?
    requires a in members && b !in members && a != NOBODY && b != NOBODY
    ensures ElectionOk(Renamed(members, a, b), ranks, phase, ds, now)
  {
    hide RankStats, Overdue, Timely, Renamed;
    RenamedRankStats(members, ranks, a, b);
  }

  lemma RenamedNothing(funds: Funds, funds': Funds, a: Name, b: Name)
    requires RowsRenamed(funds, funds', a, b)
    ensures funds == map[] ==> funds' == map[]
  {
  }

  lemma RenamedMembers(self: Name, members: MemberTable, activeMembers: nat, a: Name, b: Name)
    requires MembersOk(self, members, activeMembers)
    requires a in members && b !in members && b != self && 0 < b < NOBODY
    ensures MembersOk(self, Renamed(members, a, b), activeMembers)
  {
    var s := Actives(members);
    assert Actives(Renamed(members, a, b)) == if a in s then s - {a} + {b} else s;
  }

  lemma NoRowsOfStranger(self: Name, members: MemberTable, r: Reserves, b: Name)
    requires TablesOk(self, members, r) && b !in members && b != self
    ensures forall key | key in r.funds :: key.owner != b
  {
  }

  /** accounts::on_rename: the account row moves to the new name. */
  function RenamedUser(users: Accounts, a: Name, b: Name): Accounts {
    if a in users then (users - {a})[b := users[a]] else users
  }

  lemma RenameUserKeeps(users: Accounts, a: Name, b: Name)
    requires NonNegative(users) && !(a in users && b in users)
    ensures NonNegative(RenamedUser(users, a, b)) && Total(RenamedUser(users, a, b)) == Total(users)
  {
    hide Total;
    if a in users {
      TotalRemove(users, a);
      TotalUpdate(users - {a}, b, users[a]);
    }
  }

  lemma RenameStart(funds: Funds, a: Name, b: Name)
    requires a != b && forall key | key in funds :: key.owner != b
    ensures PartlyRenamed(funds, funds, a, b)
  {
  }

  lemma RenameEnd(funds: Funds, now: Funds, a: Name, b: Name)
    requires PartlyRenamed(funds, now, a, b) && a != b && !exists key :: key in now && key.owner == a
    ensures RowsRenamed(funds, now, a, b)
  {
  }

  lemma RowsOfShrinks(funds: Funds, a: Name, b: Name, key: FundKey)
    requires key in funds && key.owner == a && a != b
    ensures |RowsOf(RenameRow(funds, key, b), a)| < |RowsOf(funds, a)|
  {
    assert RowsOf(RenameRow(funds, key, b), a) == RowsOf(funds, a) - {key};
  }

  lemma DistributeOver(self: Name, members: MemberTable, ds: seq<Distribution>, funds: Funds, steps: nat)
    requires self !in members && (steps == 0 || |ds| == 0 || !ds[0].Current?)
    ensures Payout.Distribute(self, members, ds, funds, steps) == (ds, funds, steps)
  {
  }

  /** One running distribution is paid out or paused. */
  lemma DistributeStep(self: Name, members: MemberTable, ds: seq<Distribution>, funds: Funds, steps: nat)
    requires FundsOk(self, members, ds, funds) && self !in members && steps > 0 && |ds| > 0 && ds[0].Current?
    ensures Running(self, members, ds, funds)
    ensures var r := Sweep(self, members, ds[0], funds, steps);
      var settled := Settle(self, r.1, ds[0].time);
      if r.2 > 0 then
        && FundsOk(self, members, ds[1..], settled)
        && Payout.Distribute(self, members, ds, funds, steps) == Payout.Distribute(self, members, ds[1..], settled, r.2 - 1)
      else
        && FundsOk(self, members, Advance(ds, r.0), settled)
        && Payout.Distribute(self, members, ds, funds, steps) == (Advance(ds, r.0), settled, 0)
        && Payout.Distribute(self, members, Advance(ds, r.0), settled, 0) == (Advance(ds, r.0), settled, 0)
  {
    hide FundsOk, Sweep, Settle;
    RunningHead(self, members, ds, funds);
    SweepKeepsRunning(self, members, ds, funds, steps);
    var r := Sweep(self, members, ds[0], funds, steps);
    if r.2 > 0 {
      FinishSwept(self, members, ds, funds, r.0, r.1);
    } else {
      PauseSwept(self, members, ds, funds, r.0, r.1);
    }
  }

  lemma RunningHead(self: Name, members: MemberTable, ds: seq<Distribution>, funds: Funds)
    requires FundsOk(self, members, ds, funds) && self !in members && |ds| > 0 && ds[0].Current?
    ensures Running(self, members, ds, funds)
  {
  }

  /** The 16-bit total of ranked members does not wrap. */
  lemma RanksFit(self: Name, members: MemberTable, ranks: seq<nat>, activeMembers: nat)
    requires MembersOk(self, members, activeMembers) && RankStats(members, ranks)
    ensures Suffix(ranks, 1) <= Suffix(ranks, 0) <= activeMembers < WIDTH16
  {
    RankTotal(members, ranks);
    SuffixMonotone(ranks, 0, 1);
    SubsetSize(RepresentedMembers(members), Actives(members));
  }

  predicate Due(ds: seq<Distribution>, now: Time) {
    |ds| > 0 && ds[|ds| - 1].time <= now
  }

  lemma {:induction false} PartOfSum(amounts: seq<nat>, k: nat, n: nat)
    requires k < n <= |amounts|
    ensures amounts[k] <= SumTo(amounts, n)
    decreases n
  {
    if k + 1 < n {
      PartOfSum(amounts, k, n - 1);
    }
  }

  lemma NextMemberIs(members: MemberTable, last: Name, m: Name)
    requires IsNext(members, last, m)
    ensures NextMember(members, last) == Some(m)
  {
  }

  /** One step of the sweep: the member can be paid and the funds stay exact. */
  lemma SweepStep(self: Name, members: MemberTable, ds: seq<Distribution>, funds: Funds, left: nat, m: Name)
    requires Running(self, members, ds, funds) && IsNext(members, ds[0].last, m) && left > 0
    ensures members[m].rank <= |ds[0].amounts|
    ensures FundRow(self, ds[0].time) !in funds ==> SumTo(ds[0].amounts, members[m].rank) == 0
    ensures var paid := PayRanks(self, funds, ds[0].time, m, ds[0].amounts, members[m].rank);
      && Running(self, members, Advance(ds, m), paid)
      && (FundRow(self, ds[0].time) in paid <==> FundRow(self, ds[0].time) in funds)
      && Sweep(self, members, ds[0], funds, left) == Sweep(self, members, ds[0].(last := m), paid, left - 1)
  {
    hide FundsOk, Sweep;
    NextMemberIs(members, ds[0].last, m);
    NextMemberUnpaid(self, members, ds, funds, m);
    PayMember(self, members, ds, funds, m);
    PayRanksRows(self, funds, ds[0].time, m, ds[0].amounts, members[m].rank);
    SweepUnfold(self, members, ds[0], funds, left, m);
  }

  lemma SweepOver(self: Name, members: MemberTable, d: Distribution, funds: Funds, left: nat)
    requires d.Current? && self !in members
    requires left == 0 || !exists m :: m in members && m > d.last
    ensures Sweep(self, members, d, funds, left) == (d.last, funds, left)
  {
  }

  lemma FundIsNonNegative(self: Name, members: MemberTable, ds: seq<Distribution>, funds: Funds)
    requires Running(self, members, ds, funds) && FundRow(self, ds[0].time) in funds
    ensures funds[FundRow(self, ds[0].time)] >= 0
  {
  }

  lemma CatchUpStep(self: Name, members: MemberTable, ranks: seq<nat>, activeMembers: nat, election: Option<Time>, r: Reserves, now: Time)
    requires MembersOk(self, members, activeMembers)
    requires TablesReady(self, members, election, r) && StatsReady(members, ranks, election, NextTime(r))
    requires NextTime(r) <= now
    ensures PaidAtOnce(NextTime(r), election) ==> |ranks| >= 2 && Suffix(ranks, 1) < WIDTH16
    ensures var q := SetupPass(self, ranks, election, r);
      && TablesReady(self, members, election, q) && NextTime(q) > NextTime(r)
      && StatsReady(members, ranks, election, NextTime(q))
      && CatchUp(self, members, ranks, election, r, now) == CatchUp(self, members, ranks, election, q, now)
  {
    hide FundsOk, RankStats, MembersOk, SetupPass;
    PassKeepsReady(self, members, ranks, election, r);
    if PaidAtOnce(NextTime(r), election) {
      RanksFit(self, members, ranks, activeMembers);
    }
  }

  lemma CatchUpEnd(self: Name, members: MemberTable, ranks: seq<nat>, election: Option<Time>, r: Reserves, now: Time)
    requires TablesReady(self, members, election, r) && StatsReady(members, ranks, election, NextTime(r))
    requires NextTime(r) > now
    ensures CatchUp(self, members, ranks, election, r, now) == r
  {
  }

  lemma ExtendIs(ds: seq<Distribution>, d: Distribution, following: Time)
    requires |ds| > 0
    ensures ds[|ds| - 1 := d] + [Next(following)] == Extend(ds, Some(d), following)
  {
  }

  lemma ExtendIsNothing(ds: seq<Distribution>, following: Time)
    requires |ds| > 0
    ensures ds[..|ds| - 1] + [Next(following)] == Extend(ds, None, following)
  {
  }

  // ---------------------------------------------------------------------------------------------
  // The contract
  // ---------------------------------------------------------------------------------------------

  class Contract {
    const self: Name
    const atomicAssets: Name
    const atomicMarket: Name

    var now: Time
    var members: MemberTable
    var ranks: seq<nat>
    var activeMembers: nat
    var phase: Phase
    var lead: Name

    var dists: seq<Distribution>
    var funds: Funds
    var pools: seq<Pool>
    var owned: Accounts
    var users: Accounts
    var outgoing: Accounts
    var tokens: int

    function Tables(): Reserves
      reads this
    {
      Reserves(dists, funds, pools, owned)
    }

    ghost predicate Valid()
      reads this
    {
      Books(self, members, ranks, activeMembers, phase, Tables(), now, users, outgoing, tokens)
    }

    /** A contract that has just been set up: no members, no money, an election in the future. */
    constructor (self: Name, atomicAssets: Name, atomicMarket: Name, now: Time, electionTime: Time)
      ensures Valid()
      ensures this.atomicAssets == atomicAssets && this.atomicMarket == atomicMarket
      ensures this.self == self && this.now == now && phase == Scheduled(electionTime, 1, false) && lead == 0
      ensures members == map[] && ranks == [] && activeMembers == 0
      ensures Tables() == Reserves([], map[], [Pool(MASTER, 5)], map[])
      ensures users == outgoing == map[] && tokens == 0
    {
      this.self, this.atomicAssets, this.atomicMarket := self, atomicAssets, atomicMarket;
      this.now := now;
      members, ranks, activeMembers, phase := map[], [], 0, Scheduled(electionTime, 1, false);
      lead := 0;
      dists, funds, pools, owned := [], map[], [Pool(MASTER, 5)], map[];
      users, outgoing, tokens := map[], map[], 0;
      new;
      assert Actives(members) == {};
    }

    // -------------------------------------------------------------------------------------------
    // Setting up distributions
    // -------------------------------------------------------------------------------------------

    method ReserveFromPools(prorate: Option<nat>) returns (total: nat)
      requires NonNegative(owned) && PoolsOk(pools) && ProrateOk(prorate)
      modifies this`owned
      ensures (owned, total) == Reserve(pools, old(owned), prorate)
      ensures NonNegative(owned)
    {
      total := 0;
      var i := 0;
      assert pools[0..] == pools;
      while i < |pools|
        invariant 0 <= i <= |pools| && NonNegative(owned)
        invariant var (after, rest) := Reserve(pools[i..], owned, prorate);
          Reserve(pools, old(owned), prorate) == (after, total + rest)
      {
        var pool := pools[i];
        assert pools[i..][0] == pool && pools[i..][1..] == pools[i + 1..];
        if pool.name in owned {
          var amount := ReserveAmount(owned[pool.name], pool.pct, prorate);
          ReserveAtMostBalance(owned[pool.name], pool.pct, prorate);
          owned := Sub(owned, pool.name, amount);
          if total == 0 {
            total := amount;
          } else {
            total := total + amount;
          }
        }
        i := i + 1;
      }
    }

    /** The row of the next distribution takes the reserved total, or is erased when there is none,
        and a new next row follows. */
    method EnterTotal(election: Option<Time>, total: nat)
      requires |dists| > 0
      requires PaidAtOnce(NextTime(Tables()), election) ==> |ranks| >= 2 && Suffix(ranks, 1) < WIDTH16
      modifies this`dists, this`funds, this`owned
      ensures Tables() == Enter(self, ranks, election, old(Tables()), total)
    {
      var iter := |dists| - 1;
      var time := dists[iter].time;
      var following := FollowingTime(time, election);
      if total != 0 {
        var used := total;
        if election.Some? && election.value > time {
          var d;
          d, used := MakeDistribution(ranks, total);
          match d {
            case Success(amounts) =>
              ExtendIs(dists, Current(time, 0, amounts), following);
              dists := dists[iter := Current(time, 0, amounts)];
            case Failure(_) =>
              assert false;
          }
        } else {
          ExtendIs(dists, ForElection(time, total), following);
          dists := dists[iter := ForElection(time, total)];
        }
        if used != total {
          owned := Add(owned, MASTER, total - used);
        }
        funds := funds[FundRow(self, time) := used];
      } else {
        ExtendIsNothing(dists, following);
        dists := dists[..iter];
      }
      dists := dists + [Next(following)];
    }

    /** One pass of the loop: the next distribution is due. */
    method SetupNext(election: Option<Time>)
      requires |dists| > 0 && NonNegative(owned) && PoolsOk(pools)
      requires PaidAtOnce(NextTime(Tables()), election) ==> |ranks| >= 2 && Suffix(ranks, 1) < WIDTH16
      modifies this`dists, this`funds, this`pools, this`owned
      ensures Tables() == SetupPass(self, ranks, election, old(Tables()))
    {
      hide Enter;
      var time := dists[|dists| - 1].time;
      var prorate := Prorate(time, election);
      if |pools| == 0 {
        pools := [Pool(MASTER, 5)];
      }
      var total := ReserveFromPools(prorate);
      EnterTotal(election, total);
    }

    /** Returns whether any distribution was due. */
    method SetupDistribution(init: Option<Time>) returns (result: bool)
      requires MembersOk(self, members, activeMembers)
      requires SetupReady(self, members, ranks, if init.Some? then init else NextElection(phase), Tables())
      modifies this`dists, this`funds, this`pools, this`owned
      ensures Tables() == CaughtUp(self, members, ranks, if init.Some? then init else NextElection(phase), init, old(Tables()), now)
      ensures init.None? ==> (result <==> Due(old(dists), now))
    {
      hide SetupReady, TablesReady, StatsReady, MembersOk, CaughtUp, CatchUp;
      var nextElection := if init.Some? then init else NextElection(phase);
      CaughtUpIs(self, members, ranks, nextElection, init, Tables(), now);
      if |dists| == 0 {
        if init.None? {
          return false;
        }
        dists := [Next(init.value)];
      }
      result := CatchUpLoop(nextElection);
    }

    method CatchUpLoop(nextElection: Option<Time>) returns (result: bool)
      requires MembersOk(self, members, activeMembers)
      requires TablesReady(self, members, nextElection, Tables())
      requires StatsReady(members, ranks, nextElection, NextTime(Tables()))
      modifies this`dists, this`funds, this`pools, this`owned
      ensures Tables() == CatchUp(self, members, ranks, nextElection, old(Tables()), now)
      ensures result <==> NextTime(old(Tables())) <= now
    {
      hide FundsOk, SetupPass, Overdue, CatchUp, StatsReady, MembersOk, NonNegative, PoolsOk, PaidAtOnce;
      result := false;
      ghost var first := Tables();
      while dists[|dists| - 1].time <= now
        invariant |dists| > 0
        invariant TablesReady(self, members, nextElection, Tables())
        invariant StatsReady(members, ranks, nextElection, NextTime(Tables()))
        invariant CatchUp(self, members, ranks, nextElection, Tables(), now) == CatchUp(self, members, ranks, nextElection, first, now)
        invariant result ==> NextTime(first) <= now
        invariant !result ==> Tables() == first
        decreases now + 1 - dists[|dists| - 1].time
      {
        CatchUpStep(self, members, ranks, activeMembers, nextElection, Tables(), now);
        SetupNext(nextElection);
        result := true;
      }
      CatchUpEnd(self, members, ranks, nextElection, Tables(), now);
    }

    // -------------------------------------------------------------------------------------------
    // Paying out
    // -------------------------------------------------------------------------------------------

    /** The payments of one member. Neither check for an overdrawn balance can fail. */
    method PayMemberRanks(t: Time, amounts: seq<nat>, m: Name)
      requires m in members && m != self && members[m].rank <= |amounts|
      requires FundRow(self, t) !in funds ==> SumTo(amounts, members[m].rank) == 0
      modifies this`funds
      ensures funds == PayRanks(self, old(funds), t, m, amounts, members[m].rank)
    {
      var fundRow := FundRow(self, t);
      var hasFund := fundRow in funds;
      for rank := 0 to members[m].rank
        invariant funds == PayRanks(self, old(funds), t, m, amounts, rank)
        invariant hasFund <==> fundRow in funds
      {
        var amount := amounts[rank];
        funds := funds[FundKey(m, t, rank + 1) := amount];
        if hasFund {
          funds := funds[fundRow := funds[fundRow] - amount];
        } else {
          PartOfSum(amounts, rank, members[m].rank);
          assert amount == 0;
        }
      }
    }

    /** Sweeps over the members after the last one processed until the steps run out. */
    method SweepFirst(maxSteps: nat) returns (left: nat, last: Name)
      requires Running(self, members, dists, funds)
      modifies this`funds
      ensures var r := Sweep(self, members, dists[0], old(funds), maxSteps);
        last == r.0 && left == r.2 && funds == Settle(self, r.1, dists[0].time)
    {
      hide FundsOk, PayRanks, SumTo;
      var dist := dists[0];
      left, last := maxSteps, dist.last;
      var hasFund := FundRow(self, dist.time) in funds;
      assert Advance(dists, last) == dists && dist.(last := last) == dist;
      while left > 0 && exists m :: m in members && m > last
        invariant Running(self, members, Advance(dists, last), funds)
        invariant Sweep(self, members, dist.(last := last), funds, left) == Sweep(self, members, dist, old(funds), maxSteps)
        invariant hasFund <==> FundRow(self, dist.time) in funds
        decreases left
      {
        NextExists(members, last);
        var m :| m in members && IsNext(members, last, m);
        ghost var d := dist.(last := last);
        SweepStep(self, members, Advance(dists, last), funds, left, m);
        assert Advance(Advance(dists, last), m) == Advance(dists, m);
        assert members[m].rank <= |dist.amounts|;
        PayMemberRanks(dist.time, dist.amounts, m);
        last := m;
        left := left - 1;
      }
      SweepOver(self, members, dist.(last := last), funds, left);
      if hasFund {
        FundIsNonNegative(self, members, Advance(dists, last), funds);
        assert funds[FundRow(self, dist.time)] >= 0;
        if funds[FundRow(self, dist.time)] == 0 {
          funds := funds - {FundRow(self, dist.time)};
        }
      }
    }

    /** Sets up what is due and pays out. The remaining steps are positive only when no distribution
        is left running. */
    method Distribute(maxSteps: nat) returns (left: nat)
      requires Valid()
      modifies this`dists, this`funds, this`pools, this`owned
      ensures Valid()
      ensures maxSteps == 0 ==> Tables() == old(Tables()) && left == 0
      ensures maxSteps > 0 ==>
        && SetupReady(self, members, ranks, NextElection(phase), old(Tables()))
        && var r := CaughtUp(self, members, ranks, NextElection(phase), None, old(Tables()), now);
        (Tables(), left) == PaidTables(self, members, r, maxSteps - if Due(old(dists), now) then 1 else 0)
      ensures left <= maxSteps
      ensures left > 0 ==> NothingRunning(dists)
    {
      hide TablesOk, ElectionOk, MoneyOk, CaughtUp, PaidTables;
      left := maxSteps;
      if left > 0 {
        SetupBooks(self, members, ranks, activeMembers, phase, Tables(), now, users, outgoing, tokens);
        var any := SetupDistribution(None);
        if any {
          left := left - 1;
        }
        PayBooks(self, members, ranks, activeMembers, phase, Tables(), now, users, outgoing, tokens, left);
        left := PayLoop(left);
      }
    }

    method PayLoop(steps: nat) returns (left: nat)
      requires FundsOk(self, members, dists, funds) && self !in members
      modifies this`dists, this`funds
      ensures (Tables(), left) == PaidTables(self, members, old(Tables()), steps)
    {
      hide FundsOk, Sweep, Settle, Payout.Distribute;
      left := steps;
      while left > 0 && |dists| > 0 && dists[0].Current?
        invariant FundsOk(self, members, dists, funds)
        invariant Payout.Distribute(self, members, dists, funds, left) == Payout.Distribute(self, members, old(dists), old(funds), steps)
        decreases |dists|, left
      {
        DistributeStep(self, members, dists, funds, left);
        var more, last := SweepFirst(left);
        if more > 0 {
          dists := dists[1..];
          left := more - 1;
        } else {
          dists := dists[0 := dists[0].(last := last)];
          left := 0;
        }
      }
      DistributeOver(self, members, dists, funds, left);
    }

    // -------------------------------------------------------------------------------------------
    // Money
    // -------------------------------------------------------------------------------------------

    /** The tables as any action finds them once it has set up what is due. */
    ghost function AfterSetup(): Reserves
      requires Valid()
      reads this
    {
      SetupBooks(self, members, ranks, activeMembers, phase, Tables(), now, users, outgoing, tokens);
      CaughtUp(self, members, ranks, NextElection(phase), None, Tables(), now)
    }

    predicate PossibleDepositAccount(account: Name) {
      IsPossibleDepositAccount(account, atomicAssets, atomicMarket)
    }

    predicate IsActive(m: Name)
      reads this
    {
      m in members && members[m].active
    }

    /** add_to_pool: the amount has just left another account or arrived in the token contract. */
    method AddToPool(amount: nat)
      requires Books(self, members, ranks, activeMembers, phase, Tables(), now, users, outgoing, tokens - amount)
      modifies this`dists, this`funds, this`pools, this`owned
      ensures Valid()
      ensures SetupReady(self, members, ranks, NextElection(phase), old(Tables()))
      ensures var r := CaughtUp(self, members, ranks, NextElection(phase), None, old(Tables()), now);
        Tables() == r.(owned := Add(r.owned, MASTER, amount))
    {
      hide TablesOk, ElectionOk, CaughtUp;
      SetupBooks(self, members, ranks, activeMembers, phase, Tables(), now, users, outgoing, tokens - amount);
      var _ := SetupDistribution(None);
      PoolGrows(self, members, ranks, activeMembers, phase, Tables(), now, users, outgoing, tokens - amount, amount);
      owned := Add(owned, MASTER, amount);
    }

    /** A transfer into the contract: a deposit to the sender's account, or an addition to the pool. */
    method NotifyDeposit(from: Name, quantity: int, donate: bool) returns (ok: bool)
      requires Valid() && from != self
      modifies this`dists, this`funds, this`pools, this`owned, this`users, this`tokens
      ensures Valid()
      ensures ok <==> quantity > 0 && (PossibleDepositAccount(from) && !donate && from !in old(users) ==> quantity >= 3)
      ensures tokens == old(tokens) + if ok then quantity else 0
      ensures users == if ok && PossibleDepositAccount(from) && !donate then Add(old(users), from, quantity) else old(users)
      ensures Tables() == (if ok && !(PossibleDepositAccount(from) && !donate)
        then var r := old(AfterSetup()); r.(owned := Add(r.owned, MASTER, quantity))
        else old(Tables()))
    {
      hide TablesOk, ElectionOk, MembersOk, MoneyOk;
      if quantity <= 0 {
        return false;  // the token contract moves positive amounts only
      }
      if PossibleDepositAccount(from) && !donate {
        if from !in users && quantity < MINIMUM_DEPOSIT {
          return false;
        }
        CreditUser(from, quantity);
      } else {
        CreditPool(quantity);
      }
      ok := true;
    }

    method CreditUser(user: Name, amount: nat)
      requires Valid()
      modifies this`users, this`tokens
      ensures Valid() && users == Add(old(users), user, amount) && tokens == old(tokens) + amount
    {
      hide TablesOk, ElectionOk, MembersOk;
      UserGrows(users, user, amount);
      users := Add(users, user, amount);
      tokens := tokens + amount;
    }

    method CreditPool(amount: nat)
      requires Valid()
      modifies this`dists, this`funds, this`pools, this`owned, this`tokens
      ensures Valid() && tokens == old(tokens) + amount
      ensures var r := old(AfterSetup()); Tables() == r.(owned := Add(r.owned, MASTER, amount))
    {
      hide TablesOk, ElectionOk, MembersOk;
      tokens := tokens + amount;
      AddToPool(amount);
    }

    /** The amount passes through the outgoing account, which the notification of the inline token
        transfer empties again; the beneficiary comes from the memo. */
    method Withdraw(owner: Name, quantity: int) returns (ok: bool)
      requires Valid()
      modifies this`users, this`outgoing, this`tokens
      ensures Valid()
      ensures ok <==> quantity > 0 && owner in old(users) && old(users)[owner] >= quantity
      ensures ok ==> users == Sub(old(users), owner, quantity) && tokens == old(tokens) - quantity
      ensures !ok ==> users == old(users) && tokens == old(tokens)
    {
      hide TablesOk, ElectionOk, MembersOk, Total;
      if owner !in users || users[owner] < quantity || quantity <= 0 {
        return false;
      }
      UserShrinks(users, owner, quantity);
      users := Sub(users, owner, quantity);
      outgoing := Add(outgoing, owner, quantity);
      // the token contract moves the tokens and notifies the sender
      tokens := tokens - quantity;
      var beneficiary := owner;
      assert beneficiary in outgoing && outgoing[beneficiary] >= quantity;
      outgoing := Sub(outgoing, beneficiary, quantity);
      ok := true;
    }

    method Donate(owner: Name, quantity: int) returns (ok: bool)
      requires Valid()
      modifies this`dists, this`funds, this`pools, this`owned, this`users
      ensures Valid()
      ensures ok <==> quantity > 0 && owner in old(users) && old(users)[owner] >= quantity
      ensures ok ==> users == Sub(old(users), owner, quantity)
      ensures ok ==> Tables() == var r := old(AfterSetup()); r.(owned := Add(r.owned, MASTER, quantity))
      ensures !ok ==> users == old(users) && Tables() == old(Tables())
    {
      hide TablesOk, ElectionOk;
      if quantity <= 0 || owner !in users || users[owner] < quantity {
        return false;
      }
      UserShrinks(users, owner, quantity);
      users := Sub(users, owner, quantity);
      AddToPool(quantity);
      ok := true;
    }

    method UserTransfer(from: Name, to: Name, amount: int) returns (ok: bool)
      requires Valid()
      modifies this`users
      ensures Valid()
      ensures ok <==> amount > 0 && IsActive(from) && IsActive(to) && from in old(users) && old(users)[from] >= amount
      ensures users == if ok then Add(Sub(old(users), from, amount), to, amount) else old(users)
    {
      hide TablesOk, ElectionOk;
      if amount <= 0 || !IsActive(from) || !IsActive(to) || from !in users || users[from] < amount {
        return false;
      }
      UserShrinks(users, from, amount);
      users := Sub(users, from, amount);
      UserGrows(users, to, amount);
      users := Add(users, to, amount);
      ok := true;
    }

    /** A member spends from one of its distribution accounts. */
    method FundTransfer(from: Name, time: Time, rank: nat, to: Name, amount: int) returns (ok: bool)
      requires Valid()
      modifies this`users, this`funds
      ensures Valid()
      ensures ok <==>
        && amount > 0 && IsActive(from) && IsActive(to)
        && FundKey(from, time, rank) in old(funds) && old(funds)[FundKey(from, time, rank)] >= amount
      ensures ok ==> users == Add(old(users), to, amount) && funds == Sub(old(funds), FundKey(from, time, rank), amount)
      ensures !ok ==> users == old(users) && funds == old(funds)
    {
      hide FundsOk, ElectionOk;
      var key := FundKey(from, time, rank);
      if amount <= 0 || !IsActive(from) || !IsActive(to) || key !in funds || funds[key] < amount {
        return false;
      }
      SpendKeeps(self, members, dists, funds, key, amount);
      SubTotal(funds, key, amount);
      UserGrows(users, to, amount);
      funds := Sub(funds, key, amount);
      users := Add(users, to, amount);
      ok := true;
    }

    // -------------------------------------------------------------------------------------------
    // Members
    // -------------------------------------------------------------------------------------------

    method CreateMember(m: Name) returns (ok: bool)
      requires Valid() && m != self && 0 < m < NOBODY
      modifies this`members
      ensures Valid()
      ensures ok <==> m !in old(members)
      ensures members == if ok then old(members)[m := NEW_MEMBER] else old(members)
    {
      if m in members {
        return false;
      }
      PutMemberBooks(self, members, ranks, activeMembers, phase, Tables(), now, users, outgoing, tokens, m, NEW_MEMBER);
      members := members[m := NEW_MEMBER];
      ok := true;
    }

    method SetActive(m: Name) returns (ok: bool)
      requires Valid()
      modifies this`members, this`activeMembers
      ensures Valid()
      ensures ok <==> m in old(members) && !old(members)[m].active && old(activeMembers) < 10000
      ensures members == if ok then old(members)[m := NEW_MEMBER.(active := true)] else old(members)
      ensures activeMembers == old(activeMembers) + if ok then 1 else 0
    {
      if activeMembers >= MAX_ACTIVE_MEMBERS || m !in members || members[m].active {
        return false;
      }
      PutMemberBooks(self, members, ranks, activeMembers, phase, Tables(), now, users, outgoing, tokens, m, NEW_MEMBER.(active := true));
      activeMembers := activeMembers + 1;
      members := members[m := NEW_MEMBER.(active := true)];
      ok := true;
    }

    method RemoveIfPending(m: Name) returns (ok: bool)
      requires Valid()
      modifies this`members
      ensures Valid()
      ensures ok <==> m in old(members)
      ensures members == if ok && !old(members)[m].active then old(members) - {m} else old(members)
    {
      if m !in members {
        return false;
      }
      if !members[m].active {
        DropPendingBooks(self, members, ranks, activeMembers, phase, Tables(), now, users, outgoing, tokens, m);
        members := members - {m};
      }
      ok := true;
    }

    /** Returns the member's own rows to the master pool, one by one. */
    method ReturnRows(m: Name)
      modifies this`funds, this`owned
      ensures funds == WithoutRows(old(funds), m)
      ensures owned == Returned(old(owned), RowsOf(old(funds), m))
    {
      hide Total;
      while exists key :: key in funds && key.owner == m
        invariant WithoutRows(funds, m) == WithoutRows(old(funds), m)
        invariant Returned(owned, RowsOf(funds, m)) == Returned(old(owned), RowsOf(old(funds), m))
        decreases |funds|
      {
        var key :| key in funds && key.owner == m;
        ReturnRow(owned, funds, m, key);
        owned := Add(owned, MASTER, funds[key]);
        funds := funds - {key};
      }
      assert RowsOf(funds, m) == map[];
      NoRows(funds, m);
    }

    /** Takes what running distributions still owe to the member out of their funds. The checks on
        the rank and on the funds cannot fail. */
    method ReturnOwed(m: Name)
      requires FundsOk(self, members, dists, funds) && m in members
      modifies this`funds, this`owned
      ensures (funds, owned) == Refund(self, dists, m, members[m].rank, old(funds), old(owned))
    {
      hide KeysOk, Covered;
      var rank := members[m].rank;
      var i := 0;
      assert dists[0..] == dists;
      while i < |dists| && dists[i].Current?
        invariant 0 <= i <= |dists|
        invariant KeysOk(self, members, dists, funds)
        invariant PartlyRefunded(self, members, dists, m, i, funds)
        invariant Refund(self, dists[i..], m, rank, funds, owned) == Refund(self, dists, m, rank, old(funds), old(owned))
      {
        var dist := dists[i];
        assert dists[i..][0] == dist && dists[i..][1..] == dists[i + 1..];
        RefundOneStep(self, members, dists, funds, m, i);
        if dist.last < m && rank > 0 {
          assert Covered(self, members, funds, dist);
          RefundCovered(self, members, funds, dist, m);
          assert rank <= |dist.amounts|;
          var amount := SumTo(dist.amounts, rank);
          var fundRow := FundRow(self, dist.time);
          if fundRow in funds {
            assert amount <= funds[fundRow];
            funds := Sub(funds, fundRow, amount);
          } else {
            assert amount == 0;
          }
          owned := Add(owned, MASTER, amount);
        }
        i := i + 1;
      }
    }

    method RemoveMember(m: Name)
      requires Valid() && IsActive(m) && phase.Scheduled?
      modifies this`members, this`ranks, this`activeMembers, this`dists, this`funds, this`pools, this`owned
      ensures Valid()
      ensures members == old(members) - {m} && activeMembers == old(activeMembers) - 1
      ensures
        var v := old(members)[m];
        && (v.Represented() ==> v.rank < |old(ranks)| && old(ranks)[v.rank] > 0)
        && ranks == UncountRank(old(ranks), v)
      ensures Tables() == Resigned(self, old(members), old(AfterSetup()), m)
    {
      hide TablesOk, MembersOk, ElectionOk, MoneyOk, Total, Resigned, Refund, WithoutRows, RowsOf, Returned, CaughtUp, SetupReady;
      SetupBooks(self, members, ranks, activeMembers, phase, Tables(), now, users, outgoing, tokens);
      var _ := SetupDistribution(None);
      ResignBooks(self, members, ranks, activeMembers, phase, Tables(), now, users, outgoing, tokens, m);
      ResignedIs(self, members, Tables(), m);
      ReturnRows(m);
      ReturnOwed(m);
      ranks := UncountRank(ranks, members[m]);
      activeMembers := activeMembers - 1;
      members := members - {m};
    }

    /** A member leaves; only possible while no election is running. When the lead representative leaves, the
        next election may come closer (see TriggerElection); the stored lead representative stays. */
    method Resign(m: Name, newStart: Time) returns (ok: bool)
      requires Valid() && newStart >= now + THIRTY_DAYS
      modifies this`phase, this`members, this`ranks, this`activeMembers, this`dists, this`funds, this`pools, this`owned
      ensures Valid()
      ensures ok <==> old(IsActive(m)) && !ElectionRunning(old(phase), now) && (m == lead ==> old(CanTrigger(newStart)))
      ensures phase == if ok && m == lead then old(Triggered(newStart)) else old(phase)
      ensures ok ==> members == old(members) - {m} && activeMembers == old(activeMembers) - 1
      ensures ok ==>
        var v := old(members)[m];
        && (v.Represented() ==> v.rank < |old(ranks)| && old(ranks)[v.rank] > 0)
        && ranks == UncountRank(old(ranks), v)
      ensures ok ==> Tables() == Resigned(self, old(members), old(AfterSetup()), m)
      ensures !ok ==> members == old(members) && ranks == old(ranks) && activeMembers == old(activeMembers) && Tables() == old(Tables())
    {
      hide TablesOk, MembersOk, ElectionOk, MoneyOk, Total, Resigned, CaughtUp, SetupReady, UncountRank, RankStats;
      if !IsActive(m) || ElectionRunning(phase, now) || (m == lead && !CanTrigger(newStart)) {
        return false;
      }
      RemoveMember(m);
      ok := true;
      if m == lead {
        var _ := TriggerElection(newStart);
      }
    }

    /** Not possible while a distribution is being paid or an election is running. */
    method Rename(a: Name, b: Name) returns (ok: bool)
      requires Valid() && b != self && 0 < b < NOBODY
      modifies this`members, this`dists, this`funds, this`pools, this`owned, this`users, this`lead
      ensures Valid()
      ensures lead == if ok && a == old(lead) then b else old(lead)
      ensures ok <==>
        && !(a in old(users) && b in old(users))
        && old(IsActive(a))
        && (|old(dists)| > 0 ==> !old(dists)[0].Current?)
        && !ElectionRunning(phase, now)
        && b !in old(members)
      ensures ok ==>
        var r := old(AfterSetup());
        && a in old(members) && b !in old(members)
        && members == Renamed(old(members), a, b)
        && Tables() == r.(funds := funds)
        && RowsRenamed(r.funds, funds, a, b)
        && users == RenamedUser(old(users), a, b)
      ensures !ok ==> members == old(members) && users == old(users) && Tables() == old(Tables())
    {
      hide TablesOk, MembersOk, ElectionOk, MoneyOk, Total, RowsRenamed, Renamed, RenamedUser, CaughtUp, SetupReady, Resigned;
      if a in users && b in users {
        return false;  // the account row of the new name already exists
      }
      if !IsActive(a) || (|dists| > 0 && dists[0].Current?) || ElectionRunning(phase, now) || b in members {
        return false;
      }
      SetupBooks(self, members, ranks, activeMembers, phase, Tables(), now, users, outgoing, tokens);
      NothingPaidAfterSetup(self, members, ranks, activeMembers, phase, Tables(), now);
      var _ := SetupDistribution(None);
      ghost var r := Tables();
      NoRowsOfStranger(self, members, r, b);
      RenameRows(a, b);
      RenameBooks(self, members, ranks, activeMembers, phase, r, now, users, outgoing, tokens, funds, a, b);
      users := RenamedUser(users, a, b);
      members := Renamed(members, a, b);
      if a == lead {
        lead := b;
      }
      ok := true;
    }

    method RenameRows(a: Name, b: Name)
      requires a != b && forall key | key in funds :: key.owner != b
      modifies this`funds
      ensures RowsRenamed(old(funds), funds, a, b)
      ensures Total(funds) == Total(old(funds))
    {
      hide PartlyRenamed, RowsRenamed, Total;
      RenameStart(funds, a, b);
      while exists key :: key in funds && key.owner == a
        invariant PartlyRenamed(old(funds), funds, a, b)
        invariant Total(funds) == Total(old(funds))
        decreases |RowsOf(funds, a)|
      {
        var key :| key in funds && key.owner == a;
        RenameRowStep(old(funds), funds, a, b, key);
        RowsOfShrinks(funds, a, b, key);
        funds := RenameRow(funds, key, b);
      }
      RenameEnd(old(funds), funds, a, b);
    }

    // -------------------------------------------------------------------------------------------
    // Elections
    // -------------------------------------------------------------------------------------------

    /** Opens the seeding window in the last 24 hours; further seeds change nothing here. */
    method Seed() returns (ok: bool)
      requires Valid() && phase.Scheduled?
      modifies this`phase
      ensures Valid()
      ensures ok <==> old(phase).seeding || now + 172800 >= old(phase).electionTime
      ensures phase == if ok then old(phase).(seeding := true) else old(phase)
    {
      ok := phase.seeding || now + DAY >= phase.electionTime;
      if ok {
        phase := phase.(seeding := true);
      }
    }

    /** Starts the election that is due and seeded, pays out what is due, and lets the ranking of members begin
        only when nothing is being paid any more. */
    method PrepareElection(maxSteps: nat) returns (left: nat)
      requires Valid()
      modifies this`phase, this`ranks, this`dists, this`funds, this`pools, this`owned
      ensures Valid()
      ensures left <= maxSteps
      ensures old(phase).Scheduled? && (!old(phase).seeding || now < old(phase).electionTime || maxSteps == 0) ==>
        phase == old(phase) && ranks == old(ranks) && Tables() == old(Tables())
      ensures !old(phase).Scheduled? ==>
        ranks == old(ranks) && phase == (if left > 0 then Ranking else old(phase)) && Paid(old(Tables()), maxSteps, left)
      ensures old(phase).Scheduled? && old(phase).seeding && old(phase).electionTime <= now && maxSteps > 0 ==>
        && ranks == [] && phase == (if left > 0 then Ranking else Distributing)
        && old(SetupReady(self, members, ranks, Some(phase.electionTime), Tables()))
        && Paid(old(CaughtUp(self, members, ranks, Some(phase.electionTime), Some(phase.electionTime), Tables(), now)), maxSteps - 1, left)
    {
      hide TablesOk, MoneyOk, PaidTables, CaughtUp, SetupReady, Shape, Overdue, Timely, Sane, Actives, Due;
      left := maxSteps;
      if phase.Scheduled? {
        if !phase.seeding || now < phase.electionTime || left == 0 {
          return;
        }
        StartElection();
        left := left - 1;
      }
      left := Distribute(left);
      if left > 0 {
        phase := Ranking;
      }
    }

    /** A failed check rolls back what an action has done to the distributions. */
    method Restore(phase: Phase, ranks: seq<nat>, r: Reserves)
      requires Books(self, members, ranks, activeMembers, phase, r, now, users, outgoing, tokens)
      modifies this`phase, this`ranks, this`dists, this`funds, this`pools, this`owned
      ensures Valid() && this.phase == phase && this.ranks == ranks && Tables() == r
    {
      this.phase, this.ranks := phase, ranks;
      dists, funds, pools, owned := r.dists, r.funds, r.pools, r.owned;
    }

    /** With this budget, what is due was set up and paid from these tables on, with nothing scheduled. */
    ghost predicate Paid(from: Reserves, budget: nat, left: nat)
      reads this
    {
      if budget == 0 then Tables() == from && left == 0
      else
        && self !in members && SetupReady(self, members, ranks, None, from)
        && var r := CaughtUp(self, members, ranks, None, None, from, now);
           (Tables(), left) == PaidTables(self, members, r, budget - if Due(from.dists, now) then 1 else 0)
    }

    method StartElection()
      requires Valid() && phase.Scheduled? && phase.electionTime <= now
      modifies this`phase, this`ranks, this`dists, this`funds, this`pools, this`owned
      ensures Valid()
      ensures phase == Distributing && ranks == []
      ensures old(SetupReady(self, members, ranks, Some(phase.electionTime), Tables()))
      ensures Tables() == old(CaughtUp(self, members, ranks, Some(phase.electionTime), Some(phase.electionTime), Tables(), now))
    {
      hide TablesOk, CaughtUp, MoneyOk;
      var init := Some(phase.electionTime);
      StartBooks(self, members, ranks, activeMembers, phase, Tables(), now, users, outgoing, tokens);
      phase := Distributing;
      var _ := SetupDistribution(init);
      ranks := [];
    }

    /** The election is over: members have their new ranks, and the waiting distributions start. The
        check that no distribution changed its amount cannot fail. */
    method FinishElection(newMembers: MemberTable, newRanks: seq<nat>, newLead: Name, nextElection: Time)
      requires Valid() && phase.Ranking?
      requires MembersOk(self, newMembers, activeMembers)
      requires newMembers.Keys == members.Keys && forall m | m in members :: newMembers[m].active == members[m].active
      requires RankStats(newMembers, newRanks) && |newRanks| >= 2 && newRanks[|newRanks| - 1] == 1
      modifies this`phase, this`members, this`ranks, this`dists, this`lead
      ensures Valid()
      ensures members == newMembers && ranks == newRanks && lead == newLead && phase == Scheduled(nextElection, 1, false)
      ensures dists == StartedAll(newRanks, old(dists))
    {
      hide TablesOk, MoneyOk, RankDistribution, Shape;
      FinishBooks(self, members, newMembers, newRanks, activeMembers, nextElection, Tables(), now, users, outgoing, tokens);
      RanksFit(self, newMembers, newRanks, activeMembers);
      members, ranks := newMembers, newRanks;
      ProcessElectionDistribution();
      lead := newLead;
      phase := Scheduled(nextElection, 1, false);
    }

    method ProcessElectionDistribution()
      requires Shape(dists) && |ranks| >= 2 && ranks[|ranks| - 1] == 1 && Suffix(ranks, 1) < WIDTH16
      modifies this`dists
      ensures dists == StartedAll(ranks, old(dists))
    {
      var i := 0;
      while i < |dists| && !dists[i].Next?
        invariant 0 <= i <= |dists| == |old(dists)|
        invariant forall j | 0 <= j < |dists| :: dists[j] == if j < i then Started(ranks, old(dists)[j]) else old(dists)[j]
      {
        if dists[i].ForElection? {
          var amount := dists[i].amount;
          NothingIsLost(ranks, amount);
          var d, returned := MakeDistribution(ranks, amount);
          assert returned == amount;
          match d {
            case Success(amounts) =>
              dists := dists[i := Distribution.Current(dists[i].time, 0, amounts)];
            case Failure(_) =>
              assert false;
          }
        }
        i := i + 1;
      }
    }

    /** Rescheduling is possible until a day before the election, unless its seeding has begun or it was
        rescheduled too often. */
    method SetNextElectionTime(electionTime: Time) returns (ok: bool)
      requires Valid()
      modifies this`phase
      ensures Valid()
      ensures ok <==>
        && electionTime >= now + 172800
        && old(phase).Scheduled? && !old(phase).seeding && old(phase).electionTime >= now + 172800
        && NextVersion(old(phase).version) != 0
      ensures phase == if ok then Scheduled(electionTime, NextVersion(old(phase).version), false) else old(phase)
    {
      ok := electionTime >= now + DAY && phase.Scheduled? && !phase.seeding && NextVersion(phase.version) != 0
            && phase.electionTime >= now + DAY;
      if ok {
        NothingWaits(dists, phase.electionTime, now);
        phase := Scheduled(electionTime, NextVersion(phase.version), false);
      }
    }

    predicate MovesCloser(newStart: Time)
      reads this
    {
      phase.Scheduled? && !phase.seeding && newStart < phase.electionTime
    }

    /** The version of the schedule does not overflow. */
    predicate CanTrigger(newStart: Time)
      reads this
    {
      MovesCloser(newStart) ==> NextVersion(phase.version) != 0
    }

    function Triggered(newStart: Time): Phase
      reads this
    {
      if MovesCloser(newStart) then Scheduled(newStart, NextVersion(phase.version), false) else phase
    }

    /** An election is moved to a time at least 30 days ahead when that brings it closer. */
    method TriggerElection(newStart: Time) returns (ok: bool)
      requires Valid() && newStart >= now + THIRTY_DAYS
      modifies this`phase
      ensures Valid()
      ensures ok <==> old(CanTrigger(newStart))
      ensures phase == if ok then old(Triggered(newStart)) else old(phase)
    {
      ok := CanTrigger(newStart);
      if ok && MovesCloser(newStart) {
        NothingWaits(dists, phase.electionTime, now);
        phase := Triggered(newStart);
      }
    }

    method Tick(elapsed: nat)
      requires Valid()
      modifies this`now
      ensures Valid() && now == old(now) + elapsed
    {
      now := now + elapsed;
    }
  }

  // ---------------------------------------------------------------------------------------------
  // Whole runs
  // ---------------------------------------------------------------------------------------------

  datatype Action =
    | Wait(elapsed: nat)
    | Deposit(from: Name, quantity: int, donation: bool)
    | Withdrawal(owner: Name, quantity: int)
    | Donation(owner: Name, quantity: int)
    | Transfer(from: Name, to: Name, quantity: int)
    | Spend(from: Name, time: Time, rank: nat, to: Name, quantity: int)
    | PayOut(maxSteps: nat)
    | NewMember(m: Name)
    | Activation(m: Name)
    | Removal(m: Name)
    | Resignation(m: Name, newStart: Time)
    | Renaming(a: Name, b: Name)
    | Seeding
    | Preparation(maxSteps: nat)
    | Election(newMembers: MemberTable, newRanks: seq<nat>, newLead: Name, nextElection: Time)
    | Reschedule(electionTime: Time)
    | Trigger(newStart: Time)

  /** The outcome of an election fits the members: the same accounts, exact statistics and one lead
      representative. */
  predicate ElectionOutcome(c: Contract, newMembers: MemberTable, newRanks: seq<nat>)
    reads c
  {
    && c.phase.Ranking?
    && MembersOk(c.self, newMembers, c.activeMembers)
    && newMembers.Keys == c.members.Keys
    && (forall m | m in c.members :: newMembers[m].active == c.members[m].active)
    && RankStats(newMembers, newRanks) && |newRanks| >= 2 && newRanks[|newRanks| - 1] == 1
  }

  /** What is promised of every state between transactions: the fund of each running distribution is the sum of
      what members not yet processed are owed, a distribution that is not open has left nothing behind, all accounts
      add up to the token balance, and nothing is outgoing. */
  ghost predicate InOrder(c: Contract)
    reads c
  {
    && (forall i | 0 <= i < |c.dists| && c.dists[i].Current? ::
          Fund(c.self, c.funds, c.dists[i].time) == Total(OwedRows(c.members, c.dists[i].amounts, c.dists[i].last)))
    && (forall t: Time :: !Open(c.dists, t) ==> FundRow(c.self, t) !in c.funds)
    && Total(c.users) + Total(c.owned) + Total(c.funds) == c.tokens
    && c.outgoing == map[]
  }

  lemma ValidInOrder(c: Contract)
    requires c.Valid()
    ensures InOrder(c)
  {
    hide Fund, OwedRows, Total;
    forall i | 0 <= i < |c.dists| && c.dists[i].Current?
      ensures Fund(c.self, c.funds, c.dists[i].time) == Total(OwedRows(c.members, c.dists[i].amounts, c.dists[i].last))
    {
      assert Covered(c.self, c.members, c.funds, c.dists[i]);
    }
  }

  method Perform(c: Contract, action: Action)
    requires c.Valid()
    modifies c
    ensures c.Valid() && InOrder(c)
  {
    hide MembersOk, TablesOk, ElectionOk, MoneyOk, InOrder;
    match action {
      case Wait(elapsed) => c.Tick(elapsed);
      case Deposit(from, quantity, donation) =>
        if from != c.self {
          var _ := c.NotifyDeposit(from, quantity, donation);
        }
      case Withdrawal(owner, quantity) => var _ := c.Withdraw(owner, quantity);
      case Donation(owner, quantity) => var _ := c.Donate(owner, quantity);
      case Transfer(from, to, quantity) => var _ := c.UserTransfer(from, to, quantity);
      case Spend(from, time, rank, to, quantity) => var _ := c.FundTransfer(from, time, rank, to, quantity);
      case PayOut(maxSteps) => var _ := c.Distribute(maxSteps);
      case NewMember(m) =>
        if m != c.self && 0 < m < NOBODY {
          var _ := c.CreateMember(m);
        }
      case Activation(m) => var _ := c.SetActive(m);
      case Removal(m) => var _ := c.RemoveIfPending(m);
      case Resignation(m, newStart) =>
        if newStart >= c.now + THIRTY_DAYS {
          var _ := c.Resign(m, newStart);
        }
      case Renaming(a, b) =>
        if b != c.self && 0 < b < NOBODY {
          var _ := c.Rename(a, b);
        }
      case Seeding =>
        if c.phase.Scheduled? {
          var _ := c.Seed();
        }
      case Preparation(maxSteps) => var _ := c.PrepareElection(maxSteps);
      case Election(newMembers, newRanks, newLead, nextElection) =>
        if ElectionOutcome(c, newMembers, newRanks) {
          c.FinishElection(newMembers, newRanks, newLead, nextElection);
        }
      case Reschedule(electionTime) => var _ := c.SetNextElectionTime(electionTime);
      case Trigger(newStart) =>
        if newStart >= c.now + THIRTY_DAYS {
          var _ := c.TriggerElection(newStart);
        }
    }
    ValidInOrder(c);
  }

  /** Whatever actions arrive, in whatever order, the books stay in order. */
  method Run(self: Name, atomicAssets: Name, atomicMarket: Name, now: Time, electionTime: Time, actions: seq<Action>)
    returns (c: Contract)
    ensures c.Valid() && InOrder(c)
  {
    c := new Contract(self, atomicAssets, atomicMarket, now, electionTime);
    ValidInOrder(c);
    for i := 0 to |actions|
      invariant c.Valid() && InOrder(c) && fresh(c)
    {
      Perform(c, actions[i]);
    }
  }
}
