/** Paying a distribution out by a sweep over the members that can stop after any number of steps
    (contracts/eden/src/distributions.cpp, both distribute_monthly). */
module Payout {
  import opened Basics
  import opened Totals
  import opened Members
  import opened Ledger

  // ---------------------------------------------------------------------------------------------
  // One member
  // ---------------------------------------------------------------------------------------------

  /** One row for every rank up to n, taken from the contract's fund when it has a row. */
  function PayRanks(self: Name, funds: Funds, t: Time, m: Name, amounts: seq<nat>, n: nat): Funds
    requires n <= |amounts| && m != self
  {
    if n == 0 then funds else
      var before := PayRanks(self, funds, t, m, amounts, n - 1);
      PayRank(self, before, t, m, n, amounts[n - 1])
  }

  function PayRank(self: Name, funds: Funds, t: Time, m: Name, rank: nat, amount: nat): Funds
    requires m != self
  {
    var paid := funds[FundKey(m, t, rank) := amount];
    if FundRow(self, t) in paid then paid[FundRow(self, t) := paid[FundRow(self, t)] - amount] else paid
  }

  predicate PaidKey(t: Time, m: Name, n: nat, key: FundKey) {
    key.owner == m && key.time == t && 0 < key.rank <= n
  }

  lemma {:induction false} PayRanksRows(self: Name, funds: Funds, t: Time, m: Name, amounts: seq<nat>, n: nat)
    requires n <= |amounts| && m != self
    ensures var paid := PayRanks(self, funds, t, m, amounts, n);
      && (forall key :: key in paid <==> key in funds || PaidKey(t, m, n, key))
      && (forall key | PaidKey(t, m, n, key) :: paid[key] == amounts[key.rank - 1])
      && (forall key | key in funds && !PaidKey(t, m, n, key) && key != FundRow(self, t) :: paid[key] == funds[key])
      && (FundRow(self, t) in funds ==> paid[FundRow(self, t)] == funds[FundRow(self, t)] - SumTo(amounts, n))
  {
    if n != 0 {
      PayRanksRows(self, funds, t, m, amounts, n - 1);
    }
  }

  lemma {:induction false} PayRanksTotal(self: Name, funds: Funds, t: Time, m: Name, amounts: seq<nat>, n: nat)
    requires n <= |amounts| && m != self
    requires forall k | 0 < k <= n :: FundKey(m, t, k) !in funds
    ensures Total(PayRanks(self, funds, t, m, amounts, n))
         == Total(funds) + if FundRow(self, t) in funds then 0 else SumTo(amounts, n)
  {
    hide PayRank, Total;
    if n != 0 {
      PayRanksTotal(self, funds, t, m, amounts, n - 1);
      var before := PayRanks(self, funds, t, m, amounts, n - 1);
      RowStillFree(self, funds, t, m, amounts, n);
      PayRankTotal(self, before, t, m, n, amounts[n - 1]);
    }
  }

  lemma RowStillFree(self: Name, funds: Funds, t: Time, m: Name, amounts: seq<nat>, n: nat)
    requires 0 < n <= |amounts| && m != self && FundKey(m, t, n) !in funds
    ensures FundKey(m, t, n) !in PayRanks(self, funds, t, m, amounts, n - 1)
    ensures FundRow(self, t) in PayRanks(self, funds, t, m, amounts, n - 1) <==> FundRow(self, t) in funds
  {
    PayRanksRows(self, funds, t, m, amounts, n - 1);
    assert !PaidKey(t, m, n - 1, FundKey(m, t, n)) && !PaidKey(t, m, n - 1, FundRow(self, t));
  }

  lemma PayRankTotal(self: Name, funds: Funds, t: Time, m: Name, rank: nat, amount: nat)
    requires m != self && FundKey(m, t, rank) !in funds
    ensures Total(PayRank(self, funds, t, m, rank, amount))
         == Total(funds) + if FundRow(self, t) in funds then 0 else amount
  {
    hide Total;
    var paid := funds[FundKey(m, t, rank) := amount];
    TotalUpdate(funds, FundKey(m, t, rank), amount);
    if FundRow(self, t) in paid {
      TotalUpdate(paid, FundRow(self, t), paid[FundRow(self, t)] - amount);
    }
  }

  // ---------------------------------------------------------------------------------------------
  // The running distribution
  // ---------------------------------------------------------------------------------------------

  /** The first row of the table is a running distribution that has reached `last`. */
  ghost predicate Running(self: Name, members: MemberTable, ds: seq<Distribution>, funds: Funds) {
    && FundsOk(self, members, ds, funds)
    && self !in members
    && |ds| > 0 && ds[0].Current?
  }

  /** A member that the sweep reaches has no rows yet, and the fund can pay it. */
  lemma NextMemberUnpaid(self: Name, members: MemberTable, ds: seq<Distribution>, funds: Funds, m: Name)
    requires Running(self, members, ds, funds) && IsNext(members, ds[0].last, m)
    ensures members[m].rank <= |ds[0].amounts|
    ensures forall k | k > 0 :: FundKey(m, ds[0].time, k) !in funds
    ensures Owed(members, ds[0].amounts, ds[0].last)
         == SumTo(ds[0].amounts, members[m].rank) + Owed(members, ds[0].amounts, m)
    ensures Fund(self, funds, ds[0].time) >= SumTo(ds[0].amounts, members[m].rank)
    ensures FundRow(self, ds[0].time) !in funds ==> SumTo(ds[0].amounts, members[m].rank) == 0
  {
    assert Covered(self, members, funds, ds[0]);
    OwedStep(members, ds[0].amounts, ds[0].last, m);
    OwedNonNegative(members, ds[0].amounts, m);
  }

  function Advance(ds: seq<Distribution>, m: Name): seq<Distribution>
    requires |ds| > 0 && ds[0].Current?
  {
    ds[0 := ds[0].(last := m)]
  }

  lemma AdvanceShape(ds: seq<Distribution>, m: Name)
    requires Shape(ds) && |ds| > 0 && ds[0].Current?
    ensures Shape(Advance(ds, m))
  {
  }

  lemma AdvanceKey(self: Name, members: MemberTable, ds: seq<Distribution>, m: Name, key: FundKey)
    requires |ds| > 0 && ds[0].Current? && Shape(ds) && ds[0].last <= m && KeyOk(self, members, ds, key)
    ensures KeyOk(self, members, Advance(ds, m), key)
  {
    var e := Advance(ds, m);
    if key.owner == self {
      var i :| 0 <= i < |ds| && ds[i].time == key.time && !ds[i].Next?;
      assert e[i].time == key.time && !e[i].Next?;
    }
  }

  lemma PaidKeyOk(self: Name, members: MemberTable, ds: seq<Distribution>, m: Name, key: FundKey)
    requires |ds| > 1 && ds[0].Current? && Shape(ds) && m in members && members[m].active && m != self
    requires PaidKey(ds[0].time, m, key.rank, key)
    ensures KeyOk(self, members, Advance(ds, m), key)
  {
  }

  /** Paying the next member keeps every fund exact and moves money only between rows. */
  lemma PayMember(self: Name, members: MemberTable, ds: seq<Distribution>, funds: Funds, m: Name)
    requires Running(self, members, ds, funds) && IsNext(members, ds[0].last, m)
    ensures members[m].rank <= |ds[0].amounts|
    ensures var paid := PayRanks(self, funds, ds[0].time, m, ds[0].amounts, members[m].rank);
      Running(self, members, Advance(ds, m), paid) && Total(paid) == Total(funds)
  {
    var t, amounts := ds[0].time, ds[0].amounts;
    NextMemberUnpaid(self, members, ds, funds, m);
    var n := members[m].rank;
    PayRanksTotal(self, funds, t, m, amounts, n);
    PayMemberKeys(self, members, ds, funds, m);
    PayMemberCover(self, members, ds, funds, m);
    AdvanceShape(ds, m);
  }

  lemma PayMemberKeys(self: Name, members: MemberTable, ds: seq<Distribution>, funds: Funds, m: Name)
    requires Running(self, members, ds, funds) && IsNext(members, ds[0].last, m)
    requires members[m].rank <= |ds[0].amounts|
    ensures KeysOk(self, members, Advance(ds, m), PayRanks(self, funds, ds[0].time, m, ds[0].amounts, members[m].rank))
  {
    var t, amounts, n := ds[0].time, ds[0].amounts, members[m].rank;
    var paid := PayRanks(self, funds, t, m, amounts, n);
    PayRanksRows(self, funds, t, m, amounts, n);
    NextMemberUnpaid(self, members, ds, funds, m);
    forall key | key in paid
      ensures paid[key] >= 0 && KeyOk(self, members, Advance(ds, m), key)
    {
      if PaidKey(t, m, n, key) {
        PaidKeyOk(self, members, ds, m, key);
      } else {
        AdvanceKey(self, members, ds, m, key);
      }
    }
  }

  lemma PayMemberCover(self: Name, members: MemberTable, ds: seq<Distribution>, funds: Funds, m: Name)
    requires Running(self, members, ds, funds) && IsNext(members, ds[0].last, m)
    requires members[m].rank <= |ds[0].amounts|
    ensures AllCovered(self, members, Advance(ds, m), PayRanks(self, funds, ds[0].time, m, ds[0].amounts, members[m].rank))
  {
    var t, amounts, n := ds[0].time, ds[0].amounts, members[m].rank;
    var paid, e := PayRanks(self, funds, t, m, amounts, n), Advance(ds, m);
    PayRanksRows(self, funds, t, m, amounts, n);
    NextMemberUnpaid(self, members, ds, funds, m);
    OwedNonNegative(members, amounts, m);
    forall i | 0 <= i < |e| ensures Covered(self, members, paid, e[i]) {
      assert Covered(self, members, funds, ds[i]);
      if i > 0 {
        assert e[i].time != t;
      }
    }
  }

  // ---------------------------------------------------------------------------------------------
  // The sweep
  // ---------------------------------------------------------------------------------------------

  ghost function NextMember(members: MemberTable, last: Name): (r: Option<Name>)
    ensures r.Some? ==> IsNext(members, last, r.value)
    ensures r.None? ==> forall k | k in members :: k <= last
  {
    if exists m :: IsNext(members, last, m) then
      var m :| IsNext(members, last, m); Some(m)
    else
      assert forall k | k in members :: k <= last by {
        if k :| k in members && k > last {
          NextExists(members, last);
        }
      }
      None
  }

  /** Where the sweep stands after at most `steps` members: the last member, the rows, and the
      steps left. */
  ghost function Sweep(self: Name, members: MemberTable, d: Distribution, funds: Funds, steps: nat): (r: (Name, Funds, nat))
    requires d.Current? && self !in members
    ensures r.2 <= steps
    ensures r.2 > 0 ==> NextMember(members, r.0).None?
    decreases steps
  {
    var next := NextMember(members, d.last);
    if steps == 0 || next.None? then (d.last, funds, steps) else
      Sweep(self, members, d.(last := next.value), PayOne(self, members, d, funds, next.value), steps - 1)
  }

  /** All the payments of one member. */
  function PayOne(self: Name, members: MemberTable, d: Distribution, funds: Funds, m: Name): Funds
    requires d.Current? && m in members && m != self
  {
    PayRanks(self, funds, d.time, m, d.amounts, if members[m].rank <= |d.amounts| then members[m].rank else |d.amounts|)
  }

  /** The table and the rows after a sweep. */
  ghost predicate Swept(self: Name, members: MemberTable, ds: seq<Distribution>, funds: Funds, last: Name, paid: Funds) {
    && |ds| > 0 && ds[0].Current?
    && Running(self, members, Advance(ds, last), paid)
    && Total(paid) == Total(funds)
  }

  lemma SweepUnfold(self: Name, members: MemberTable, d: Distribution, funds: Funds, steps: nat, m: Name)
    requires d.Current? && self !in members && steps > 0 && NextMember(members, d.last) == Some(m)
    ensures Sweep(self, members, d, funds, steps)
         == Sweep(self, members, d.(last := m), PayOne(self, members, d, funds, m), steps - 1)
  {
  }

  lemma PayOneKeeps(self: Name, members: MemberTable, ds: seq<Distribution>, funds: Funds, m: Name)
    requires Running(self, members, ds, funds) && IsNext(members, ds[0].last, m)
    ensures Swept(self, members, ds, funds, m, PayOne(self, members, ds[0], funds, m))
  {
    PayMember(self, members, ds, funds, m);
  }

  lemma SweptTwice(self: Name, members: MemberTable, ds: seq<Distribution>, funds: Funds, m: Name, paid: Funds, last: Name, paid': Funds)
    requires Swept(self, members, ds, funds, m, paid)
    requires Swept(self, members, Advance(ds, m), paid, last, paid')
    ensures Swept(self, members, ds, funds, last, paid')
  {
    assert Advance(Advance(ds, m), last) == Advance(ds, last);
  }

  /** The sweep keeps every fund exact, for any number of steps. */
  lemma {:induction false} SweepKeepsRunning(self: Name, members: MemberTable, ds: seq<Distribution>, funds: Funds, steps: nat)
    requires Running(self, members, ds, funds)
    ensures var r := Sweep(self, members, ds[0], funds, steps); Swept(self, members, ds, funds, r.0, r.1)
    decreases steps
  {
    hide FundsOk, PayRanks;
    if steps == 0 || NextMember(members, ds[0].last).None? {
      assert Advance(ds, ds[0].last) == ds;
    } else {
      var m := NextMember(members, ds[0].last).value;
      var paid := PayOne(self, members, ds[0], funds, m);
      PayOneKeeps(self, members, ds, funds, m);
      SweepUnfold(self, members, ds[0], funds, steps, m);
      SweepKeepsRunning(self, members, Advance(ds, m), paid, steps - 1);
      var r := Sweep(self, members, Advance(ds, m)[0], paid, steps - 1);
      SweptTwice(self, members, ds, funds, m, paid, r.0, r.1);
    }
  }

  /** Splitting the steps makes no difference. */
  lemma {:induction false} SweepSplit(self: Name, members: MemberTable, d: Distribution, funds: Funds, a: nat, b: nat)
    requires d.Current? && self !in members
    ensures var (last, paid, left) := Sweep(self, members, d, funds, a);
      var (last', paid', left') := Sweep(self, members, d.(last := last), paid, left + b);
      Sweep(self, members, d, funds, a + b) == (last', paid', left')
    decreases a
  {
    var next := NextMember(members, d.last);
    if a != 0 && next.Some? {
      SweepSplit(self, members, d.(last := next.value), PayOne(self, members, d, funds, next.value), a - 1, b);
    } else {
      assert d.(last := d.last) == d;
    }
  }

  // ---------------------------------------------------------------------------------------------
  // The fund's row is erased when it reaches zero
  // ---------------------------------------------------------------------------------------------

  function Settle(self: Name, funds: Funds, t: Time): Funds {
    if FundRow(self, t) in funds && funds[FundRow(self, t)] == 0 then funds - {FundRow(self, t)} else funds
  }

  lemma SettleKeeps(self: Name, members: MemberTable, ds: seq<Distribution>, funds: Funds, t: Time)
    requires FundsOk(self, members, ds, funds)
    ensures FundsOk(self, members, ds, Settle(self, funds, t))
    ensures Total(Settle(self, funds, t)) == Total(funds)
  {
    var settled := Settle(self, funds, t);
    if settled != funds {
      TotalRemove(funds, FundRow(self, t));
      forall i | 0 <= i < |ds| ensures Covered(self, members, settled, ds[i]) {
        assert Covered(self, members, funds, ds[i]);
        assert forall u :: Fund(self, settled, u) == Fund(self, funds, u);
      }
    }
  }

  /** Once the sweep has passed all members nothing is left of the fund. */
  lemma NothingLeft(self: Name, members: MemberTable, ds: seq<Distribution>, funds: Funds)
    requires Running(self, members, ds, funds) && NextMember(members, ds[0].last).None?
    ensures FundRow(self, ds[0].time) !in Settle(self, funds, ds[0].time)
  {
    assert Covered(self, members, funds, ds[0]);
    OwedDone(members, ds[0].amounts, ds[0].last);
  }

  /** The finished distribution leaves the table. */
  lemma FinishKeeps(self: Name, members: MemberTable, ds: seq<Distribution>, funds: Funds)
    requires Running(self, members, ds, funds) && FundRow(self, ds[0].time) !in funds
    ensures FundsOk(self, members, ds[1..], funds)
    ensures |ds| > 1
  {
    var e := ds[1..];
    assert forall i | 0 <= i < |e| :: e[i] == ds[i + 1];
    forall key | key in funds ensures funds[key] >= 0 && KeyOk(self, members, e, key) {
      assert KeyOk(self, members, ds, key);
      assert Before(e, key.time);
      if key.owner == self {
        var i :| 0 <= i < |ds| && ds[i].time == key.time && !ds[i].Next?;
        assert key == FundRow(self, key.time);
        assert e[i - 1] == ds[i];
      }
    }
    forall i | 0 <= i < |e| ensures Covered(self, members, funds, e[i]) {
      assert Covered(self, members, funds, ds[i + 1]);
    }
  }

  lemma PayRanksWithoutFund(self: Name, funds: Funds, t: Time, m: Name, amounts: seq<nat>, n: nat)
    requires n <= |amounts| && m != self
    requires FundRow(self, t) in funds && funds[FundRow(self, t)] == 0 && SumTo(amounts, n) == 0
    ensures var paid := PayRanks(self, funds, t, m, amounts, n);
      && FundRow(self, t) in paid && paid[FundRow(self, t)] == 0
      && PayRanks(self, funds - {FundRow(self, t)}, t, m, amounts, n) == paid - {FundRow(self, t)}
  {
    PayRanksRows(self, funds, t, m, amounts, n);
    PayRanksRows(self, funds - {FundRow(self, t)}, t, m, amounts, n);
  }

  /** Paying a member when the exhausted fund has already been erased. */
  lemma PayAfterSettle(self: Name, members: MemberTable, ds: seq<Distribution>, funds: Funds, m: Name)
    requires Running(self, members, ds, funds) && IsNext(members, ds[0].last, m)
    requires Settle(self, funds, ds[0].time) != funds
    ensures var t := ds[0].time;
      && PayOne(self, members, ds[0], Settle(self, funds, t), m) == Settle(self, PayOne(self, members, ds[0], funds, m), t)
      && PayOne(self, members, ds[0], Settle(self, funds, t), m) != PayOne(self, members, ds[0], funds, m)
  {
    hide FundsOk, PayRanks;
    NextMemberUnpaid(self, members, ds, funds, m);
    PayRanksWithoutFund(self, funds, ds[0].time, m, ds[0].amounts, members[m].rank);
  }

  /** Erasing an exhausted fund early changes nothing that is paid later. */
  lemma {:induction false} SettleEarly(self: Name, members: MemberTable, ds: seq<Distribution>, funds: Funds, steps: nat)
    requires Running(self, members, ds, funds)
    ensures var t := ds[0].time;
      var r := Sweep(self, members, ds[0], funds, steps);
      var r' := Sweep(self, members, ds[0], Settle(self, funds, t), steps);
      r'.0 == r.0 && r'.2 == r.2 && Settle(self, r'.1, t) == Settle(self, r.1, t)
    decreases steps
  {
    hide FundsOk, PayRanks, PayOne;
    var t := ds[0].time;
    if Settle(self, funds, t) != funds && steps != 0 && NextMember(members, ds[0].last).Some? {
      var m := NextMember(members, ds[0].last).value;
      SweepUnfold(self, members, ds[0], funds, steps, m);
      SweepUnfold(self, members, ds[0], Settle(self, funds, t), steps, m);
      PayOneKeeps(self, members, ds, funds, m);
      PayAfterSettle(self, members, ds, funds, m);
      SettleEarly(self, members, Advance(ds, m), PayOne(self, members, ds[0], funds, m), steps - 1);
    }
  }

  // ---------------------------------------------------------------------------------------------
  // All running distributions
  // ---------------------------------------------------------------------------------------------

  /** Distributions are paid out in time order until the steps run out or the first row is no longer
      a running distribution. Removing a finished row takes one step. */
  ghost function Distribute(self: Name, members: MemberTable, ds: seq<Distribution>, funds: Funds, steps: nat)
    : (r: (seq<Distribution>, Funds, nat))
    requires self !in members
    ensures r.2 <= steps
    ensures r.2 > 0 ==> |r.0| == 0 || !r.0[0].Current?
    decreases |ds|
  {
    if steps == 0 || |ds| == 0 || !ds[0].Current? then (ds, funds, steps) else
      var r := Sweep(self, members, ds[0], funds, steps);
      var settled := Settle(self, r.1, ds[0].time);
      if r.2 > 0 then Distribute(self, members, ds[1..], settled, r.2 - 1)
      else (Advance(ds, r.0), settled, 0)
  }

  /** What a payout keeps: exact funds, their total, and the rows after the running ones. */
  ghost predicate PaidOut(self: Name, members: MemberTable, ds: seq<Distribution>, funds: Funds, ds': seq<Distribution>, funds': Funds) {
    && FundsOk(self, members, ds', funds')
    && Total(funds') == Total(funds)
    && (|ds| > 0 ==> |ds'| > 0 && ds'[|ds'| - 1] == ds[|ds| - 1])
    && (forall i | 0 <= i < |ds'| && ds'[i].ForElection? :: ds'[i] in ds)
  }

  /** A sweep that has reached every member finishes the distribution. */
  lemma FinishSwept(self: Name, members: MemberTable, ds: seq<Distribution>, funds: Funds, last: Name, paid: Funds)
    requires Swept(self, members, ds, funds, last, paid) && NextMember(members, last).None?
    ensures FundsOk(self, members, ds[1..], Settle(self, paid, ds[0].time))
    ensures Total(Settle(self, paid, ds[0].time)) == Total(funds)
    ensures |ds| > 1
  {
    var e := Advance(ds, last);
    SettleKeeps(self, members, e, paid, ds[0].time);
    NothingLeft(self, members, e, paid);
    FinishKeeps(self, members, e, Settle(self, paid, ds[0].time));
    assert e[1..] == ds[1..];
  }

  lemma PauseSwept(self: Name, members: MemberTable, ds: seq<Distribution>, funds: Funds, last: Name, paid: Funds)
    requires Swept(self, members, ds, funds, last, paid)
    ensures PaidOut(self, members, ds, funds, Advance(ds, last), Settle(self, paid, ds[0].time))
  {
    SettleKeeps(self, members, Advance(ds, last), paid, ds[0].time);
    forall i | 0 <= i < |ds| && Advance(ds, last)[i].ForElection? ensures Advance(ds, last)[i] in ds {
      assert Advance(ds, last)[i] == ds[i];
    }
  }

  lemma PaidOutTail(self: Name, members: MemberTable, ds: seq<Distribution>, funds: Funds, settled: Funds, ds': seq<Distribution>, funds': Funds)
    requires |ds| > 1 && Total(settled) == Total(funds)
    requires PaidOut(self, members, ds[1..], settled, ds', funds')
    ensures PaidOut(self, members, ds, funds, ds', funds')
  {
  }

  lemma {:induction false} DistributeKeeps(self: Name, members: MemberTable, ds: seq<Distribution>, funds: Funds, steps: nat)
    requires FundsOk(self, members, ds, funds) && self !in members
    ensures var r := Distribute(self, members, ds, funds, steps); PaidOut(self, members, ds, funds, r.0, r.1)
    decreases |ds|
  {
    hide FundsOk, Settle, Sweep;
    if steps != 0 && |ds| != 0 && ds[0].Current? {
      SweepKeepsRunning(self, members, ds, funds, steps);
      var r := Sweep(self, members, ds[0], funds, steps);
      if r.2 > 0 {
        FinishSwept(self, members, ds, funds, r.0, r.1);
        var settled := Settle(self, r.1, ds[0].time);
        DistributeKeeps(self, members, ds[1..], settled, r.2 - 1);
        var q := Distribute(self, members, ds[1..], settled, r.2 - 1);
        PaidOutTail(self, members, ds, funds, settled, q.0, q.1);
      } else {
        PauseSwept(self, members, ds, funds, r.0, r.1);
      }
    }
  }
}
