/** What happens to distributions and their accounts when a member resigns, is renamed or appears
    (contracts/eden/src/distributions.cpp, contracts/eden/src/members.cpp). */
module Refunds {
  import opened Totals
  import opened RankBudget
  import opened Members
  import opened Ledger
  import opened Payout

  // ---------------------------------------------------------------------------------------------
  // A member's own rows
  // ---------------------------------------------------------------------------------------------

  function RowsOf(funds: Funds, m: Name): Funds {
    map key | key in funds && key.owner == m :: funds[key]
  }

  function WithoutRows(funds: Funds, m: Name): Funds {
    map key | key in funds && key.owner != m :: funds[key]
  }

  /** The rows of a member go back to the master pool, one after the other. */
  ghost function Returned(owned: Accounts, rows: Funds): Accounts {
    if rows == map[] then owned else Add(owned, MASTER, Total(rows))
  }

  lemma ReturnRow(owned: Accounts, funds: Funds, m: Name, key: FundKey)
    requires key in funds && key.owner == m
    ensures Returned(Add(owned, MASTER, funds[key]), RowsOf(funds - {key}, m)) == Returned(owned, RowsOf(funds, m))
    ensures WithoutRows(funds - {key}, m) == WithoutRows(funds, m)
  {
    hide Total;
    var rows := RowsOf(funds, m);
    TotalRemove(rows, key);
    assert RowsOf(funds - {key}, m) == rows - {key};
    assert key in rows;
    if rows - {key} == map[] {
      assert rows == map[key := funds[key]];
      TotalZero(rows - {key});
    }
  }

  lemma RowsStep(funds: Funds, m: Name, key: FundKey)
    requires key in funds && key.owner == m
    ensures RowsOf(funds - {key}, m) == RowsOf(funds, m) - {key}
    ensures WithoutRows(funds - {key}, m) == WithoutRows(funds, m)
  {
  }

  lemma NoRows(funds: Funds, m: Name)
    requires RowsOf(funds, m) == map[]
    ensures WithoutRows(funds, m) == funds
  {
    assert forall key | key in funds :: key.owner == m ==> key in RowsOf(funds, m);
  }

  lemma {:induction false} RowsTotal(funds: Funds, m: Name)
    ensures Total(funds) == Total(RowsOf(funds, m)) + Total(WithoutRows(funds, m))
    decreases |RowsOf(funds, m)|
  {
    if RowsOf(funds, m) == map[] {
      NoRows(funds, m);
    } else {
      var key :| key in RowsOf(funds, m);
      RowsStep(funds, m, key);
      TotalRemove(funds, key);
      TotalRemove(RowsOf(funds, m), key);
      hide Total;
      RowsTotal(funds - {key}, m);
    }
  }

  lemma ReturnedTotal(owned: Accounts, rows: Funds)
    ensures Total(Returned(owned, rows)) == Total(owned) + Total(rows)
  {
    if rows != map[] {
      AddTotal(owned, MASTER, Total(rows));
    }
  }

  lemma WithoutRowsKeeps(self: Name, members: MemberTable, ds: seq<Distribution>, funds: Funds, m: Name)
    requires FundsOk(self, members, ds, funds) && m != self
    ensures FundsOk(self, members, ds, WithoutRows(funds, m))
  {
    var rest := WithoutRows(funds, m);
    forall i | 0 <= i < |ds| ensures Covered(self, members, rest, ds[i]) {
      assert Covered(self, members, funds, ds[i]);
    }
  }

  // ---------------------------------------------------------------------------------------------
  // What running distributions still owe to a member
  // ---------------------------------------------------------------------------------------------

  predicate StillOwed(d: Distribution, m: Name, rank: nat) {
    d.Current? && d.last < m && rank > 0
  }

  /** Takes the member's payments out of the fund of one running distribution. */
  function RefundOne(self: Name, d: Distribution, m: Name, rank: nat, funds: Funds): Funds {
    if StillOwed(d, m, rank) && FundRow(self, d.time) in funds
    then Sub(funds, FundRow(self, d.time), Pay(d.amounts, rank)) else funds
  }

  function RefundTo(d: Distribution, m: Name, rank: nat, owned: Accounts): Accounts {
    if StillOwed(d, m, rank) then Add(owned, MASTER, Pay(d.amounts, rank)) else owned
  }

  /** The distributions are taken in order up to the first that is not running. */
  function Refund(self: Name, ds: seq<Distribution>, m: Name, rank: nat, funds: Funds, owned: Accounts): (Funds, Accounts)
    decreases |ds|
  {
    if |ds| == 0 || !ds[0].Current? then (funds, owned)
    else Refund(self, ds[1..], m, rank, RefundOne(self, ds[0], m, rank, funds), RefundTo(ds[0], m, rank, owned))
  }

  /** The funds once the first k distributions have been refunded: exact for the remaining members
      there, and still counting the member further on. */
  ghost predicate PartlyRefunded(self: Name, members: MemberTable, ds: seq<Distribution>, m: Name, k: nat, funds: Funds) {
    forall i | 0 <= i < |ds| :: Covered(self, if i < k then members - {m} else members, funds, ds[i])
  }

  lemma CoveredWithout(self: Name, members: MemberTable, funds: Funds, funds': Funds, d: Distribution, m: Name)
    requires Covered(self, members, funds, d) && m in members
    requires Fund(self, funds', d.time)
          == Fund(self, funds, d.time) - if StillOwed(d, m, members[m].rank) then Pay(d.amounts, members[m].rank) else 0
    ensures Covered(self, members - {m}, funds', d)
  {
    if d.Current? {
      OwedRemove(members, d.amounts, d.last, m);
    }
  }

  /** The fund can always cover what it owes to one member. */
  lemma RefundCovered(self: Name, members: MemberTable, funds: Funds, d: Distribution, m: Name)
    requires Covered(self, members, funds, d) && m in members && StillOwed(d, m, members[m].rank)
    ensures members[m].rank <= |d.amounts|
    ensures Pay(d.amounts, members[m].rank) <= Fund(self, funds, d.time)
  {
    OwedRemove(members, d.amounts, d.last, m);
    OwedNonNegative(members - {m}, d.amounts, d.last);
  }

  lemma RefundOneEffect(self: Name, members: MemberTable, funds: Funds, d: Distribution, m: Name)
    requires Covered(self, members, funds, d) && m in members
    ensures var funds' := RefundOne(self, d, m, members[m].rank, funds);
      && Fund(self, funds', d.time)
         == Fund(self, funds, d.time) - (if StillOwed(d, m, members[m].rank) then Pay(d.amounts, members[m].rank) else 0)
      && (forall key | key != FundRow(self, d.time) :: (key in funds' <==> key in funds))
      && (forall key | key in funds' && key != FundRow(self, d.time) :: funds'[key] == funds[key])
      && (FundRow(self, d.time) in funds' ==> FundRow(self, d.time) in funds)
  {
    if StillOwed(d, m, members[m].rank) {
      RefundCovered(self, members, funds, d, m);
    }
  }

  lemma RefundOneTotal(self: Name, members: MemberTable, funds: Funds, owned: Accounts, d: Distribution, m: Name)
    requires Covered(self, members, funds, d) && m in members
    ensures Total(RefundOne(self, d, m, members[m].rank, funds)) + Total(RefundTo(d, m, members[m].rank, owned))
         == Total(funds) + Total(owned)
  {
    if StillOwed(d, m, members[m].rank) {
      RefundCovered(self, members, funds, d, m);
      var amount := Pay(d.amounts, members[m].rank);
      AddTotal(owned, MASTER, amount);
      if FundRow(self, d.time) in funds {
        SubTotal(funds, FundRow(self, d.time), amount);
      }
    }
  }

  lemma RefundOneStep(self: Name, members: MemberTable, ds: seq<Distribution>, funds: Funds, m: Name, k: nat)
    requires Shape(ds) && KeysOk(self, members, ds, funds) && k < |ds| && ds[k].Current? && m in members
    requires PartlyRefunded(self, members, ds, m, k, funds)
    ensures var funds' := RefundOne(self, ds[k], m, members[m].rank, funds);
      KeysOk(self, members, ds, funds') && PartlyRefunded(self, members, ds, m, k + 1, funds')
  {
    var funds' := RefundOne(self, ds[k], m, members[m].rank, funds);
    assert Covered(self, members, funds, ds[k]);
    RefundOneEffect(self, members, funds, ds[k], m);
    if StillOwed(ds[k], m, members[m].rank) {
      RefundCovered(self, members, funds, ds[k], m);
    }
    forall i | 0 <= i < |ds|
      ensures Covered(self, if i < k + 1 then members - {m} else members, funds', ds[i])
    {
      assert Covered(self, if i < k then members - {m} else members, funds, ds[i]);
      if i == k {
        CoveredWithout(self, members, funds, funds', ds[k], m);
      } else {
        assert ds[i].time != ds[k].time;
        assert Fund(self, funds', ds[i].time) == Fund(self, funds, ds[i].time);
      }
    }
  }

  /** Refunding all running distributions leaves every fund exact for the remaining members. */
  lemma {:induction false} RefundKeeps(self: Name, members: MemberTable, ds: seq<Distribution>, funds: Funds, owned: Accounts, m: Name, k: nat)
    requires Shape(ds) && KeysOk(self, members, ds, funds) && k <= |ds| && m in members
    requires PartlyRefunded(self, members, ds, m, k, funds)
    ensures var (funds', owned') := Refund(self, ds[k..], m, members[m].rank, funds, owned);
      && KeysOk(self, members, ds, funds')
      && AllCovered(self, members - {m}, ds, funds')
      && Total(funds') + Total(owned') == Total(funds) + Total(owned)
    decreases |ds| - k
  {
    hide KeysOk, Covered, RefundOne, RefundTo, Total;
    if k < |ds| && ds[k].Current? {
      assert ds[k..][0] == ds[k] && ds[k..][1..] == ds[k + 1..];
      assert Covered(self, members, funds, ds[k]);
      RefundOneTotal(self, members, funds, owned, ds[k], m);
      RefundOneStep(self, members, ds, funds, m, k);
      RefundKeeps(self, members, ds, RefundOne(self, ds[k], m, members[m].rank, funds), RefundTo(ds[k], m, members[m].rank, owned), m, k + 1);
    } else {
      RestUnaffected(self, members, ds, funds, m, k);
    }
  }

  /** Distributions that are not running do not depend on the members. */
  lemma RestUnaffected(self: Name, members: MemberTable, ds: seq<Distribution>, funds: Funds, m: Name, k: nat)
    requires Shape(ds) && k <= |ds| && (k < |ds| ==> !ds[k].Current?)
    requires PartlyRefunded(self, members, ds, m, k, funds)
    ensures AllCovered(self, members - {m}, ds, funds)
  {
    forall i | 0 <= i < |ds| ensures Covered(self, members - {m}, funds, ds[i]) {
      assert Covered(self, if i < k then members - {m} else members, funds, ds[i]);
    }
  }

  /** Without rows of its own the member can leave the table. */
  lemma KeysWithout(self: Name, members: MemberTable, ds: seq<Distribution>, funds: Funds, m: Name)
    requires KeysOk(self, members, ds, funds) && m != self
    requires forall key | key in funds :: key.owner != m
    ensures KeysOk(self, members - {m}, ds, funds)
  {
  }

  lemma {:induction false} RefundNoRows(self: Name, ds: seq<Distribution>, m: Name, rank: nat, funds: Funds, owned: Accounts)
    requires m != self && forall key | key in funds :: key.owner != m
    ensures forall key | key in Refund(self, ds, m, rank, funds, owned).0 :: key.owner != m
    decreases |ds|
  {
    if |ds| != 0 && ds[0].Current? {
      RefundNoRows(self, ds[1..], m, rank, RefundOne(self, ds[0], m, rank, funds), RefundTo(ds[0], m, rank, owned));
    }
  }

  lemma {:induction false} RefundNonNegative(self: Name, ds: seq<Distribution>, m: Name, rank: nat, funds: Funds, owned: Accounts)
    requires NonNegative(owned)
    ensures NonNegative(Refund(self, ds, m, rank, funds, owned).1)
    decreases |ds|
  {
    if |ds| != 0 && ds[0].Current? {
      RefundNonNegative(self, ds[1..], m, rank, RefundOne(self, ds[0], m, rank, funds), RefundTo(ds[0], m, rank, owned));
    }
  }

  /** Everything a resignation does to the funds and the pools. */
  ghost function Resigned(self: Name, members: MemberTable, r: Reserves, m: Name): Reserves
    requires m in members
  {
    var after := Refund(self, r.dists, m, members[m].rank, WithoutRows(r.funds, m), Returned(r.owned, RowsOf(r.funds, m)));
    r.(funds := after.0, owned := after.1)
  }

  lemma ResignedKeeps(self: Name, members: MemberTable, r: Reserves, m: Name)
    requires FundsOk(self, members, r.dists, r.funds) && NonNegative(r.owned)
    requires m in members && m != self
    ensures var r' := Resigned(self, members, r, m);
      && FundsOk(self, members - {m}, r'.dists, r'.funds) && NonNegative(r'.owned)
      && Total(r'.owned) + Total(r'.funds) == Total(r.owned) + Total(r.funds)
  {
    hide KeysOk, Covered, Refund, Total;
    var rest, owned := WithoutRows(r.funds, m), Returned(r.owned, RowsOf(r.funds, m));
    RowsTotal(r.funds, m);
    ReturnedTotal(r.owned, RowsOf(r.funds, m));
    WithoutRowsKeeps(self, members, r.dists, r.funds, m);
    assert PartlyRefunded(self, members, r.dists, m, 0, rest);
    assert r.dists[0..] == r.dists;
    RefundKeeps(self, members, r.dists, rest, owned, m, 0);
    RefundNoRows(self, r.dists, m, members[m].rank, rest, owned);
    KeysWithout(self, members, r.dists, Resigned(self, members, r, m).funds, m);
    ReturnedNonNegative(self, members, r, m);
    RefundNonNegative(self, r.dists, m, members[m].rank, rest, owned);
  }

  lemma ReturnedNonNegative(self: Name, members: MemberTable, r: Reserves, m: Name)
    requires KeysOk(self, members, r.dists, r.funds) && NonNegative(r.owned)
    ensures NonNegative(Returned(r.owned, RowsOf(r.funds, m)))
  {
    TotalNonNegative(RowsOf(r.funds, m));
  }

  // ---------------------------------------------------------------------------------------------
  // Members without a rank come and go
  // ---------------------------------------------------------------------------------------------

  lemma PutMemberKeeps(self: Name, members: MemberTable, ds: seq<Distribution>, funds: Funds, m: Name, v: Member)
    requires FundsOk(self, members, ds, funds)
    requires v.rank == 0 && (m in members ==> members[m].rank == 0 && !members[m].active)
    ensures FundsOk(self, members[m := v], ds, funds)
  {
    forall i | 0 <= i < |ds| ensures Covered(self, members[m := v], funds, ds[i]) {
      assert Covered(self, members, funds, ds[i]);
      if ds[i].Current? {
        OwedAdd(members, ds[i].amounts, ds[i].last, m, v);
      }
    }
  }

  lemma DropPendingKeeps(self: Name, members: MemberTable, ds: seq<Distribution>, funds: Funds, m: Name)
    requires FundsOk(self, members, ds, funds)
    requires m in members && members[m].rank == 0 && !members[m].active && m != self
    ensures FundsOk(self, members - {m}, ds, funds)
  {
    forall i | 0 <= i < |ds| ensures Covered(self, members - {m}, funds, ds[i]) {
      assert Covered(self, members, funds, ds[i]);
      if ds[i].Current? {
        OwedRemove(members, ds[i].amounts, ds[i].last, m);
      }
    }
  }

  // ---------------------------------------------------------------------------------------------
  // A member spends from a distribution account
  // ---------------------------------------------------------------------------------------------

  lemma SpendKeeps(self: Name, members: MemberTable, ds: seq<Distribution>, funds: Funds, key: FundKey, amount: nat)
    requires FundsOk(self, members, ds, funds)
    requires key in funds && key.owner != self && amount <= funds[key]
    ensures FundsOk(self, members, ds, Sub(funds, key, amount))
  {
    var funds' := Sub(funds, key, amount);
    forall i | 0 <= i < |ds| ensures Covered(self, members, funds', ds[i]) {
      assert Covered(self, members, funds, ds[i]);
    }
  }

  // ---------------------------------------------------------------------------------------------
  // The election is over: waiting distributions start
  // ---------------------------------------------------------------------------------------------

  /** The rows that wait for the election become running distributions. */
  function Started(ranks: seq<nat>, d: Distribution): Distribution
    requires |ranks| >= 2
  {
    if d.ForElection? then Current(d.time, 0, RankDistribution(ranks, d.amount)) else d
  }

  function StartedAll(ranks: seq<nat>, ds: seq<Distribution>): (r: seq<Distribution>)
    requires |ranks| >= 2
    ensures |r| == |ds|
  {
    seq(|ds|, i requires 0 <= i < |ds| => Started(ranks, ds[i]))
  }

  lemma StartedKeeps(self: Name, members: MemberTable, members': MemberTable, ranks: seq<nat>, ds: seq<Distribution>, funds: Funds)
    requires FundsOk(self, members, ds, funds)
    requires forall i | 0 <= i < |ds| :: !ds[i].Current?
    requires members'.Keys == members.Keys && forall m | m in members :: members'[m].active == members[m].active
    requires RankStats(members', ranks) && Sane(members') && |ranks| >= 2 && ranks[|ranks| - 1] == 1
    ensures FundsOk(self, members', StartedAll(ranks, ds), funds)
  {
    var e := StartedAll(ranks, ds);
    forall key | key in funds ensures funds[key] >= 0 && KeyOk(self, members', e, key) {
      StartedKey(self, members, members', ranks, ds, key);
    }
    forall i | 0 <= i < |e| ensures Covered(self, members', funds, e[i]) {
      assert Covered(self, members, funds, ds[i]);
      StartedCovered(self, members', ranks, funds, ds[i]);
    }
  }

  lemma StartedKey(self: Name, members: MemberTable, members': MemberTable, ranks: seq<nat>, ds: seq<Distribution>, key: FundKey)
    requires KeyOk(self, members, ds, key) && |ranks| >= 2
    requires forall i | 0 <= i < |ds| :: !ds[i].Current?
    requires members'.Keys == members.Keys && forall m | m in members :: members'[m].active == members[m].active
    ensures KeyOk(self, members', StartedAll(ranks, ds), key)
  {
    var e := StartedAll(ranks, ds);
    assert forall i | 0 <= i < |e| :: e[i].time == ds[i].time && (e[i].Next? <==> ds[i].Next?);
    if key.owner == self {
      var i :| 0 <= i < |ds| && ds[i].time == key.time && !ds[i].Next?;
      assert e[i].time == key.time && !e[i].Next?;
    } else {
      assert forall i | 0 <= i < |ds| && ds[i].time == key.time :: ds[i].Current?;
    }
  }

  lemma StartedCovered(self: Name, members: MemberTable, ranks: seq<nat>, funds: Funds, d: Distribution)
    requires !d.Current? && (d.ForElection? ==> Fund(self, funds, d.time) == d.amount)
    requires RankStats(members, ranks) && Sane(members) && |ranks| >= 2 && ranks[|ranks| - 1] == 1
    ensures Covered(self, members, funds, Started(ranks, d))
  {
    if d.ForElection? {
      NewDistributionIsCovered(members, ranks, d.amount);
    }
  }

  // ---------------------------------------------------------------------------------------------
  // A member changes its name
  // ---------------------------------------------------------------------------------------------

  /** Members represented by the renamed one follow it. */
  function Follow(v: Member, rank: nat, a: Name, b: Name): Member {
    if v.rank <= rank && v.rep == a then v.(rep := b) else v
  }

  function Renamed(members: MemberTable, a: Name, b: Name): MemberTable
    requires a in members && b !in members
  {
    var rank := members[a].rank;
    (map m | m in members && m != a :: Follow(members[m], rank, a, b))[b := Follow(members[a], rank, a, b)]
  }

  lemma RenamedRankStats(members: MemberTable, ranks: seq<nat>, a: Name, b: Name)
    requires RankStats(members, ranks) && a in members && b !in members
    requires a != NOBODY && b != NOBODY
    ensures RankStats(Renamed(members, a, b), ranks)
  {
    var members' := Renamed(members, a, b);
    forall k | 0 <= k < |ranks| ensures ranks[k] == |AtRank(members', members'.Keys, k)| {
      RenamedAtRank(members, a, b, k);
    }
  }

  lemma RenamedAtRank(members: MemberTable, a: Name, b: Name, k: nat)
    requires a in members && b !in members && a != NOBODY && b != NOBODY
    ensures |AtRank(Renamed(members, a, b), Renamed(members, a, b).Keys, k)| == |AtRank(members, members.Keys, k)|
  {
    var s, s' := AtRank(members, members.Keys, k), AtRank(Renamed(members, a, b), Renamed(members, a, b).Keys, k);
    RenamedSet(members, a, b, k);
    assert b !in s;
  }

  lemma RenamedSet(members: MemberTable, a: Name, b: Name, k: nat)
    requires a in members && b !in members && a != NOBODY && b != NOBODY
    ensures var s := AtRank(members, members.Keys, k);
      AtRank(Renamed(members, a, b), Renamed(members, a, b).Keys, k) == if a in s then s - {a} + {b} else s
  {
    RenamedEntries(members, a, b);
    hide Renamed;
  }

  lemma RenamedEntries(members: MemberTable, a: Name, b: Name)
    requires a in members && b !in members && a != NOBODY && b != NOBODY
    ensures var members' := Renamed(members, a, b);
      && members'.Keys == members.Keys - {a} + {b}
      && (forall m | m in members && m != a ::
            members'[m].rank == members[m].rank && members'[m].Represented() == members[m].Represented())
      && members'[b].rank == members[a].rank && members'[b].Represented() == members[a].Represented()
  {
  }

  lemma RenamedOwed(members: MemberTable, amounts: seq<nat>, a: Name, b: Name)
    requires a in members && b !in members && a > 0 && b > 0
    ensures Owed(Renamed(members, a, b), amounts, 0) == Owed(members, amounts, 0)
  {
    var rows := OwedRows(members, amounts, 0);
    var pay: int := Pay(amounts, members[a].rank);
    assert OwedRows(Renamed(members, a, b), amounts, 0) == (rows - {a})[b := pay];
    TotalRemove(rows, a);
    TotalUpdate(rows - {a}, b, pay);
  }

  /** No running distribution has begun to pay. */
  predicate NothingPaid(ds: seq<Distribution>) {
    forall i | 0 <= i < |ds| && ds[i].Current? :: ds[i].last == 0
  }

  /** The rows of a have become rows of b. */
  ghost predicate RowsRenamed(funds: Funds, funds': Funds, a: Name, b: Name) {
    && (forall key | key in funds' :: key.owner != a)
    && (forall key: FundKey | key.owner != a && key.owner != b ::
          (key in funds' <==> key in funds) && (key in funds ==> funds'[key] == funds[key]))
    && (forall key: FundKey | key.owner == b ::
          var was := FundKey(a, key.time, key.rank);
          (key in funds' <==> was in funds) && (was in funds ==> funds'[key] == funds[was]))
  }

  lemma RenamedKeeps(self: Name, members: MemberTable, ds: seq<Distribution>, funds: Funds, funds': Funds, a: Name, b: Name)
    requires FundsOk(self, members, ds, funds) && NothingPaid(ds) && Sane(members)
    requires a in members && b !in members && a != self && b != self && b > 0
    requires RowsRenamed(funds, funds', a, b)
    ensures FundsOk(self, Renamed(members, a, b), ds, funds')
  {
    var members' := Renamed(members, a, b);
    forall key: FundKey | key in funds' ensures funds'[key] >= 0 && KeyOk(self, members', ds, key) {
      var was := if key.owner == b then FundKey(a, key.time, key.rank) else key;
      assert was in funds && funds'[key] == funds[was];
      assert KeyOk(self, members, ds, was);
      RenamedKey(self, members, ds, a, b, was, key);
    }
    forall i | 0 <= i < |ds| ensures Covered(self, members', funds', ds[i]) {
      assert Covered(self, members, funds, ds[i]);
      assert Fund(self, funds', ds[i].time) == Fund(self, funds, ds[i].time);
      RenamedCovered(self, members, funds, funds', ds[i], a, b);
    }
  }

  lemma RenamedKey(self: Name, members: MemberTable, ds: seq<Distribution>, a: Name, b: Name, was: FundKey, key: FundKey)
    requires NothingPaid(ds) && Sane(members) && KeyOk(self, members, ds, was)
    requires a in members && b !in members && a != self && b != self
    requires was.owner != b
    requires key == if was.owner == a then FundKey(b, was.time, was.rank) else was
    ensures KeyOk(self, Renamed(members, a, b), ds, key)
  {
    if was.owner != self {
      assert forall i | 0 <= i < |ds| && ds[i].time == was.time :: ds[i].Current? && was.owner <= ds[i].last;
    }
  }

  lemma RenamedCovered(self: Name, members: MemberTable, funds: Funds, funds': Funds, d: Distribution, a: Name, b: Name)
    requires Covered(self, members, funds, d) && (d.Current? ==> d.last == 0) && Sane(members)
    requires a in members && b !in members && b > 0
    requires Fund(self, funds', d.time) == Fund(self, funds, d.time)
    ensures Covered(self, Renamed(members, a, b), funds', d)
  {
    if d.Current? {
      RenamedOwed(members, d.amounts, a, b);
    }
  }

  /** One row changes its owner. */
  function RenameRow(funds: Funds, key: FundKey, b: Name): Funds
    requires key in funds
  {
    (funds - {key})[FundKey(b, key.time, key.rank) := funds[key]]
  }

  /** While rows are being moved: each row of the original is either still there or already moved. */
  ghost predicate PartlyRenamed(funds: Funds, now: Funds, a: Name, b: Name) {
    && (forall key: FundKey | key.owner != a && key.owner != b ::
          (key in now <==> key in funds) && (key in funds ==> now[key] == funds[key]))
    && (forall key: FundKey | key.owner == a && key in now :: key in funds && now[key] == funds[key])
    && (forall key: FundKey | key.owner == b && key in now ::
          var was := FundKey(a, key.time, key.rank); was in funds && was !in now && now[key] == funds[was])
    && (forall key: FundKey | key.owner == a && key in funds :: key in now || FundKey(b, key.time, key.rank) in now)
  }

  lemma RenameRowStep(funds: Funds, now: Funds, a: Name, b: Name, key: FundKey)
    requires PartlyRenamed(funds, now, a, b) && a != b && key in now && key.owner == a
    ensures PartlyRenamed(funds, RenameRow(now, key, b), a, b)
    ensures Total(RenameRow(now, key, b)) == Total(now)
  {
    hide Total;
    TotalRemove(now, key);
    assert FundKey(b, key.time, key.rank) !in now;
    TotalUpdate(now - {key}, FundKey(b, key.time, key.rank), now[key]);
  }
}
