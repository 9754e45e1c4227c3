/** Members, their ranks, and the rank statistics (contracts/eden/src/members.cpp). */
module Members {
  import opened Totals
  import opened RankBudget

  /** Account names are 64-bit numbers, ordered as numbers. */
  type Name = nat

  /** The representative of a member who was not in the election. */
  const NOBODY: Name := 0xFFFF_FFFF_FFFF_FFFF

  datatype Member = Member(active: bool, participation: nat, rank: nat, rep: Name) {
    predicate Represented() { rep != NOBODY }
  }

  const NEW_MEMBER := Member(false, 0, 0, NOBODY)

  type MemberTable = map<Name, Member>

  /** Accounts have proper names, and only active members have ranks. */
  predicate Sane(members: MemberTable) {
    forall m | m in members :: 0 < m < NOBODY && (members[m].rank > 0 ==> members[m].active)
  }

  function Actives(members: MemberTable): set<Name> {
    set m | m in members && members[m].active
  }

  lemma ActivesDrop(members: MemberTable, m: Name)
    requires m in members
    ensures |Actives(members - {m})| == |Actives(members)| - if members[m].active then 1 else 0
  {
    var rest := Actives(members - {m});
    assert Actives(members) == if members[m].active then rest + {m} else rest;
  }

  lemma ActivesPut(members: MemberTable, m: Name, v: Member)
    requires m in members ==> !members[m].active
    ensures |Actives(members[m := v])| == |Actives(members)| + if v.active then 1 else 0
  {
    assert Actives(members[m := v]) == if v.active then Actives(members) + {m} else Actives(members);
  }

  const MAX_ACTIVE_MEMBERS: nat := 10000

  /** Represented members of `who` with the given rank. */
  function AtRank(members: MemberTable, who: set<Name>, k: nat): set<Name> {
    set m | m in who && m in members && members[m].Represented() && members[m].rank == k
  }

  /** The statistics count the represented members of `who` at each rank, and nobody is above the
      top rank. */
  predicate Counts(members: MemberTable, who: set<Name>, ranks: seq<nat>) {
    && (forall k | 0 <= k < |ranks| :: ranks[k] == |AtRank(members, who, k)|)
    && (forall m | m in who && m in members ::
          if members[m].Represented() then members[m].rank < |ranks| else members[m].rank == 0)
  }

  predicate RankStats(members: MemberTable, ranks: seq<nat>) {
    Counts(members, members.Keys, ranks)
  }

  // ---------------------------------------------------------------------------------------------
  // Operations on the statistics
  // ---------------------------------------------------------------------------------------------

  /** set_rank on the statistics: the vector grows to hold the rank. */
  function CountRank(ranks: seq<nat>, rank: nat, rep: Name): (r: seq<nat>)
    ensures rep != NOBODY ==> rank < |r|
    ensures |r| == if rep == NOBODY || rank < |ranks| then |ranks| else rank + 1
  {
    if rep == NOBODY then ranks else
      var grown := if |ranks| <= rank then ranks + seq(rank + 1 - |ranks|, i => 0) else ranks;
      grown[rank := grown[rank] + 1]
  }

  /** set_rank on the table. */
  function WithRank(members: MemberTable, m: Name, rank: nat, rep: Name): MemberTable
    requires m in members
  {
    members[m := members[m].(rank := rank, rep := rep, participation := 0)]
  }

  /** erase on the statistics. */
  function UncountRank(ranks: seq<nat>, m: Member): seq<nat>
    requires m.Represented() ==> m.rank < |ranks| && ranks[m.rank] > 0
  {
    if m.active && m.Represented() then ranks[m.rank := ranks[m.rank] - 1] else ranks
  }

  /** A member that settles with a rank is counted exactly once. */
  lemma CountsSettle(members: MemberTable, who: set<Name>, ranks: seq<nat>, m: Name, rank: nat, rep: Name)
    requires Counts(members, who, ranks) && m in members && m !in who
    requires rep == NOBODY ==> rank == 0
    ensures Counts(WithRank(members, m, rank, rep), who + {m}, CountRank(ranks, rank, rep))
  {
    var members', ranks' := WithRank(members, m, rank, rep), CountRank(ranks, rank, rep);
    forall k | 0 <= k < |ranks'|
      ensures ranks'[k] == |AtRank(members', who + {m}, k)|
    {
      AtRankSettle(members, who, m, rank, rep, k);
      if k >= |ranks| {
        assert AtRank(members, who, k) == {};
      }
    }
  }

  lemma AtRankSettle(members: MemberTable, who: set<Name>, m: Name, rank: nat, rep: Name, k: nat)
    requires m in members && m !in who
    ensures |AtRank(WithRank(members, m, rank, rep), who + {m}, k)|
         == |AtRank(members, who, k)| + if rep != NOBODY && k == rank then 1 else 0
  {
    var s := AtRank(members, who, k);
    assert AtRank(WithRank(members, m, rank, rep), who + {m}, k) == if rep != NOBODY && k == rank then s + {m} else s;
  }

  /** Statistics depend only on the members they are about. */
  lemma CountsFrame(members: MemberTable, members': MemberTable, who: set<Name>, ranks: seq<nat>)
    requires Counts(members, who, ranks)
    requires forall m | m in who :: (m in members <==> m in members')
    requires forall m | m in who && m in members :: members'[m].rank == members[m].rank && members'[m].rep == members[m].rep
    ensures Counts(members', who, ranks)
  {
    forall k | 0 <= k < |ranks| ensures ranks[k] == |AtRank(members', who, k)| {
      assert AtRank(members', who, k) == AtRank(members, who, k);
    }
  }

  /** Members who were not in the election are not counted. */
  lemma CountsUnranked(members: MemberTable, who: set<Name>, ranks: seq<nat>, m: Name)
    requires Counts(members, who, ranks)
    requires m in members ==> !members[m].Represented() && members[m].rank == 0
    ensures Counts(members, who + {m}, ranks)
  {
    forall k | 0 <= k < |ranks| ensures ranks[k] == |AtRank(members, who + {m}, k)| {
      assert AtRank(members, who + {m}, k) == AtRank(members, who, k);
    }
  }

  lemma RemovedCount(members: MemberTable, ranks: seq<nat>, m: Name, k: nat)
    requires RankStats(members, ranks) && m in members && k < |ranks|
    ensures var s := AtRank(members - {m}, members.Keys - {m}, k);
      ranks[k] == |s| + if members[m].Represented() && members[m].rank == k then 1 else 0
  {
    assert ranks[k] == |AtRank(members, members.Keys, k)|;
    AtRankRemove(members, m, k);
  }

  lemma AtRankRemove(members: MemberTable, m: Name, k: nat)
    requires m in members
    ensures |AtRank(members, members.Keys, k)| == |AtRank(members - {m}, members.Keys - {m}, k)|
              + if members[m].Represented() && members[m].rank == k then 1 else 0
  {
    var s := AtRank(members, members.Keys, k);
    var t := AtRank(members - {m}, members.Keys - {m}, k);
    assert s == if members[m].Represented() && members[m].rank == k then t + {m} else t;
  }

  /** Removing a member keeps the statistics exact; the counter it lowers is never zero. */
  lemma RankStatsRemove(members: MemberTable, ranks: seq<nat>, m: Name)
    requires RankStats(members, ranks) && m in members
    requires members[m].Represented() ==> members[m].active
    ensures members[m].Represented() ==> members[m].rank < |ranks| && ranks[members[m].rank] > 0
    ensures RankStats(members - {m}, UncountRank(ranks, members[m]))
  {
    forall k | 0 <= k < |ranks|
      ensures ranks[k] == |AtRank(members - {m}, (members - {m}).Keys, k)|
                            + if members[m].Represented() && members[m].rank == k then 1 else 0
    {
      RemovedCount(members, ranks, m, k);
      assert (members - {m}).Keys == members.Keys - {m};
    }
  }

  lemma RankStatsAdd(members: MemberTable, ranks: seq<nat>, m: Name, v: Member)
    requires RankStats(members, ranks)
    requires m in members ==> !members[m].Represented()
    requires !v.Represented() && v.rank == 0
    ensures RankStats(members[m := v], ranks)
  {
    var members' := members[m := v];
    assert members'.Keys == members.Keys + {m};
    forall k | 0 <= k < |ranks| ensures ranks[k] == |AtRank(members', members'.Keys, k)| {
      assert AtRank(members', members'.Keys, k) == AtRank(members, members.Keys, k);
    }
  }

  // ---------------------------------------------------------------------------------------------
  // What a distribution owes
  // ---------------------------------------------------------------------------------------------

  /** What a member of the given rank receives: one payment for every rank up to its own. */
  function Pay(amounts: seq<nat>, rank: nat): nat {
    SumTo(amounts, if rank <= |amounts| then rank else |amounts|)
  }

  function SumTo(amounts: seq<nat>, n: nat): nat
    requires n <= |amounts|
  {
    if n == 0 then 0 else SumTo(amounts, n - 1) + amounts[n - 1]
  }

  /** The payments still owed to the members after `last`. */
  function OwedRows(members: MemberTable, amounts: seq<nat>, last: Name): map<Name, int> {
    map m | m in members && m > last :: Pay(amounts, members[m].rank)
  }

  ghost function Owed(members: MemberTable, amounts: seq<nat>, last: Name): int {
    Total(OwedRows(members, amounts, last))
  }

  lemma OwedNonNegative(members: MemberTable, amounts: seq<nat>, last: Name)
    ensures Owed(members, amounts, last) >= 0
  {
    TotalNonNegative(OwedRows(members, amounts, last));
  }

  /** The next member in the table's order. */
  predicate IsNext(members: MemberTable, last: Name, m: Name) {
    m in members && m > last && forall k | k in members && k > last :: m <= k
  }

  lemma NextExists(members: MemberTable, last: Name)
    requires exists k :: k in members && k > last
    ensures exists m :: IsNext(members, last, m)
  {
    var k :| k in members && k > last;
    var later := set j | j in members && j > last;
    assert k in later;
    var m := Least(later);
    assert forall j | j in members && j > last :: j in later;
    assert IsNext(members, last, m);
  }

  lemma {:induction false} Least(s: set<Name>) returns (m: Name)
    requires s != {}
    ensures m in s && forall k | k in s :: m <= k
    decreases |s|
  {
    var x :| x in s;
    var rest := s - {x};
    m := x;
    if rest != {} {
      var least := Least(rest);
      m := if least < x then least else x;
    }
    forall k | k in s ensures m <= k {
      assert k == x || k in rest;
    }
  }

  lemma OwedStep(members: MemberTable, amounts: seq<nat>, last: Name, m: Name)
    requires IsNext(members, last, m)
    ensures Owed(members, amounts, last) == Pay(amounts, members[m].rank) + Owed(members, amounts, m)
  {
    TotalRemove(OwedRows(members, amounts, last), m);
    assert OwedRows(members, amounts, last) - {m} == OwedRows(members, amounts, m);
  }

  lemma OwedDone(members: MemberTable, amounts: seq<nat>, last: Name)
    requires forall k | k in members :: k <= last
    ensures Owed(members, amounts, last) == 0
  {
    assert OwedRows(members, amounts, last) == map[];
  }

  lemma OwedRemove(members: MemberTable, amounts: seq<nat>, last: Name, m: Name)
    requires m in members
    ensures Owed(members, amounts, last)
         == Owed(members - {m}, amounts, last) + (if m > last then Pay(amounts, members[m].rank) else 0)
  {
    var rows := OwedRows(members, amounts, last);
    assert OwedRows(members - {m}, amounts, last) == rows - {m};
    if m > last {
      TotalRemove(rows, m);
    } else {
      assert rows - {m} == rows;
    }
  }

  /** A member of rank 0 is owed nothing. */
  lemma OwedAdd(members: MemberTable, amounts: seq<nat>, last: Name, m: Name, v: Member)
    requires v.rank == 0 && (m in members ==> members[m].rank == 0)
    ensures Owed(members[m := v], amounts, last) == Owed(members, amounts, last)
  {
    hide Total;
    var rows := OwedRows(members, amounts, last);
    if m > last {
      assert OwedRows(members[m := v], amounts, last) == rows[m := 0];
      TotalUpdate(rows, m, 0);
    } else {
      assert OwedRows(members[m := v], amounts, last) == rows;
    }
  }

  // ---------------------------------------------------------------------------------------------
  // Exchanging the summations: by member and by rank
  // ---------------------------------------------------------------------------------------------

  lemma {:induction false} SuffixLower(ranks: seq<nat>, r: nat, i: nat)
    requires r < |ranks| && ranks[r] > 0
    ensures Suffix(ranks, i) == Suffix(ranks[r := ranks[r] - 1], i) + if i <= r then 1 else 0
    decreases |ranks| - i
  {
    if i < |ranks| {
      SuffixLower(ranks, r, i + 1);
    }
  }

  /** One member less at rank r lowers what is spent by that member's payments. */
  lemma {:induction false} SpentLower(amounts: seq<nat>, ranks: seq<nat>, r: nat, k: nat)
    requires r < |ranks| && ranks[r] > 0 && r <= |amounts|
    ensures SpentFrom(amounts, ranks, k)
         == SpentFrom(amounts, ranks[r := ranks[r] - 1], k) + (if k < r then SumTo(amounts, r) - SumTo(amounts, k) else 0)
    decreases |amounts| - k
  {
    if k < |amounts| {
      SpentLower(amounts, ranks, r, k + 1);
      SuffixLower(ranks, r, k + 1);
      if k < r {
        assert amounts[k] * (Suffix(ranks[r := ranks[r] - 1], k + 1) + 1)
            == amounts[k] * Suffix(ranks[r := ranks[r] - 1], k + 1) + amounts[k];
      }
    }
  }

  lemma {:induction false} SpentNobody(amounts: seq<nat>, ranks: seq<nat>, k: nat)
    requires forall i | 0 <= i < |ranks| :: ranks[i] == 0
    ensures SpentFrom(amounts, ranks, k) == 0
    decreases |amounts| - k
  {
    if k < |amounts| {
      SpentNobody(amounts, ranks, k + 1);
      SuffixNobody(ranks, k + 1);
    }
  }

  lemma SuffixNobody(ranks: seq<nat>, i: nat)
    requires forall i | 0 <= i < |ranks| :: ranks[i] == 0
    ensures Suffix(ranks, i) == 0
    decreases |ranks| - i
  {
    if i < |ranks| {
      SuffixNobody(ranks, i + 1);
    }
  }

  lemma NoMembersNoRanks(members: MemberTable, ranks: seq<nat>)
    requires RankStats(members, ranks) && |members| == 0
    ensures forall k | 0 <= k < |ranks| :: ranks[k] == 0
  {
    forall k | 0 <= k < |ranks| ensures ranks[k] == 0 {
      assert AtRank(members, members.Keys, k) == {};
    }
  }

  /** What all members are owed, member by member, is what the budget spends, rank by rank. */
  lemma {:induction false} OwedIsSpent(members: MemberTable, ranks: seq<nat>, amounts: seq<nat>)
    requires RankStats(members, ranks)
    requires forall m | m in members :: m > 0 && members[m].rank <= |amounts|
    ensures Owed(members, amounts, 0) == SpentFrom(amounts, ranks, 0)
    decreases |members|
  {
    hide RankStats, Owed, SpentFrom;
    if |members| == 0 {
      NobodyOwedNothing(members, ranks, amounts);
    } else {
      var m :| m in members;
      OwedRemove(members, amounts, 0, m);
      var ranks' := OneLess(members, ranks, m);
      OwedIsSpent(members - {m}, ranks', amounts);
      MemberShare(members[m], ranks, ranks', amounts);
    }
  }

  lemma NobodyOwedNothing(members: MemberTable, ranks: seq<nat>, amounts: seq<nat>)
    requires RankStats(members, ranks) && |members| == 0
    ensures Owed(members, amounts, 0) == SpentFrom(amounts, ranks, 0)
  {
    assert OwedRows(members, amounts, 0) == map[];
    NoMembersNoRanks(members, ranks);
    SpentNobody(amounts, ranks, 0);
  }

  /** What one member is paid is what one entry less in the statistics saves. */
  lemma MemberShare(v: Member, ranks: seq<nat>, ranks': seq<nat>, amounts: seq<nat>)
    requires v.rank <= |amounts| && (!v.Represented() ==> v.rank == 0)
    requires v.Represented() ==> v.rank < |ranks| && ranks[v.rank] > 0
    requires ranks' == if v.Represented() then ranks[v.rank := ranks[v.rank] - 1] else ranks
    ensures SpentFrom(amounts, ranks, 0) == SpentFrom(amounts, ranks', 0) + Pay(amounts, v.rank)
  {
    hide SpentFrom;
    if v.Represented() {
      SpentLower(amounts, ranks, v.rank, 0);
    }
  }

  /** The statistics of the remaining members. */
  lemma OneLess(members: MemberTable, ranks: seq<nat>, m: Name) returns (ranks': seq<nat>)
    requires RankStats(members, ranks) && m in members
    ensures members[m].Represented() ==> members[m].rank < |ranks| && ranks[members[m].rank] > 0
    ensures ranks' == if members[m].Represented() then ranks[members[m].rank := ranks[members[m].rank] - 1] else ranks
    ensures members[m].Represented() || members[m].rank == 0
    ensures RankStats(members - {m}, ranks')
  {
    var v := members[m].(active := true);
    var members' := members[m := v];
    assert members'.Keys == members.Keys;
    CountsFrame(members, members', members.Keys, ranks);
    RankStatsRemove(members', ranks, m);
    ranks' := UncountRank(ranks, v);
    assert members' - {m} == members - {m};
  }

  function RepresentedMembers(members: MemberTable): set<Name> {
    set m | m in members && members[m].Represented()
  }

  /** No more members are counted than are represented. */
  lemma {:induction false} RankTotal(members: MemberTable, ranks: seq<nat>)
    requires RankStats(members, ranks)
    ensures Suffix(ranks, 0) <= |RepresentedMembers(members)|
    decreases |members|
  {
    if |members| == 0 {
      NoMembersNoRanks(members, ranks);
      SuffixNobody(ranks, 0);
    } else {
      var m :| m in members;
      var ranks' := OneLess(members, ranks, m);
      RepresentedRemove(members, m);
      hide RankStats, RepresentedMembers;
      RankTotal(members - {m}, ranks');
      if members[m].Represented() {
        SuffixLower(ranks, members[m].rank, 0);
      }
    }
  }

  lemma RepresentedRemove(members: MemberTable, m: Name)
    requires m in members
    ensures |RepresentedMembers(members)|
         == |RepresentedMembers(members - {m})| + if members[m].Represented() then 1 else 0
  {
    var rest := RepresentedMembers(members - {m});
    assert RepresentedMembers(members) == if members[m].Represented() then rest + {m} else rest;
  }

  lemma SuffixContains(ranks: seq<nat>, i: nat, j: nat)
    requires i <= j < |ranks|
    ensures Suffix(ranks, i) >= ranks[j]
    decreases j - i
  {
    if i < j {
      SuffixContains(ranks, i + 1, j);
    }
  }

  /** A new distribution has an amount for every rank that a member has, and sets aside exactly
      what it owes to the members. */
  lemma NewDistributionIsCovered(members: MemberTable, ranks: seq<nat>, amount: nat)
    requires RankStats(members, ranks) && |ranks| >= 2 && ranks[|ranks| - 1] <= 1
    requires Sane(members)
    ensures forall m | m in members :: members[m].rank <= |RankDistribution(ranks, amount)|
    ensures Owed(members, RankDistribution(ranks, amount), 0) == Distributed(ranks, amount) <= amount
    ensures ranks[|ranks| - 1] == 1 ==> Distributed(ranks, amount) == amount
  {
    forall m | m in members ensures members[m].rank <= |RankDistribution(ranks, amount)| {
      var r := members[m].rank;
      if r > 0 {
        assert m in AtRank(members, members.Keys, r);
        SuffixContains(ranks, r, r);
        DistributionLength(ranks, amount, r);
      }
    }
    OwedIsSpent(members, ranks, RankDistribution(ranks, amount));
    NothingIsLost(ranks, amount);
  }
}
