/** What every step of an election keeps. */
module ElectionInvariant {
  import opened Powers
  import opened Members
  import opened Shuffle
  import opened GroupVote
  import opened ElectionConfig
  import opened GroupIndex
  import opened ElectionModel
  import opened ElectionTrace

  // ---------------------------------------------------------------------------------------------
  // Voters and settled members
  // ---------------------------------------------------------------------------------------------

  /** A voter of the running election whose rank is still open. */
  predicate IsVoter(s: Stage, m: Name) {
    match s
    case InitVoters(_, _, _, order, _) => m in order
    case Voting(_, _, ballots) => m in MembersOf(ballots)
    case PostRound(_, _, _, _, ballots, order, _) => m in MembersOf(ballots) || m in order
    case Final(_, order) => m in order
    case _ => false
  }

  predicate VoterLists(s: Stage) {
    match s
    case InitVoters(_, _, _, order, _) => Distinct(order)
    case Voting(_, _, ballots) => DistinctMembers(ballots)
    case PostRound(_, _, _, _, ballots, order, _) =>
      && DistinctMembers(ballots) && Distinct(order)
      && forall m | m in order :: m !in MembersOf(ballots)
    case Final(_, order) => Distinct(order)
    case _ => true
  }

  /** A member whose rank is final for this election: every member except the voters and, while
      voters are collected, the members not looked at yet. */
  function Settled(w: World): set<Name> {
    set m | m in w.members && !IsVoter(w.stage, m) && (w.stage.InitVoters? ==> m <= w.stage.last)
  }

  ghost predicate VotersOk(w: World) {
    && VoterLists(w.stage)
    && (forall m | IsVoter(w.stage, m) :: m in w.members && w.members[m].active)
    && (w.stage.InitVoters? ==> forall m | m in w.stage.order :: m <= w.stage.last)
  }

  /** Accounts have proper names; only active members were ever ranked. */
  predicate MembersFine(members: MemberTable) {
    && (forall m | m in members :: 0 < m < NOBODY && IsAccount(m))
    && (forall m | m in members && !members[m].active :: members[m].rank == 0 && !members[m].Represented())
    && |Actives(members)| <= MAX_ACTIVE_MEMBERS
  }

  // ---------------------------------------------------------------------------------------------
  // Representatives are always above
  // ---------------------------------------------------------------------------------------------

  /** The round a voter has reached, or the rank of a settled member. */
  function Level(w: World, m: Name): nat
    requires m in w.members
  {
    match w.stage
    case Voting(round, _, ballots) => if m in MembersOf(ballots) then round else w.members[m].rank
    case PostRound(round, _, _, _, ballots, order, _) =>
      if m in MembersOf(ballots) then round else if m in order then round + 1 else w.members[m].rank
    case Final(round, order) => if m in order then round else w.members[m].rank
    case _ => w.members[m].rank
  }

  /** A representative is a failed-group marker or a member further up. */
  predicate RepAbove(w: World, m: Name)
    requires m in w.members
  {
    var rep := w.members[m].rep;
    !IsAccount(rep) || (rep in w.members && Level(w, rep) > w.members[m].rank)
  }

  predicate RepsOk(w: World) {
    w.stage.Voting? || w.stage.PostRound? || w.stage.Final? ==>
      forall m | m in Settled(w) && w.members[m].Represented() :: RepAbove(w, m)
  }

  // ---------------------------------------------------------------------------------------------
  // Rounds
  // ---------------------------------------------------------------------------------------------

  predicate RoundsOk(w: World) {
    match w.stage
    case Waiting => true
    case Seeding(version) => version > 0
    case InitVoters(version, last, seed, order, reported) =>
      && version > 0 && |w.ranks| == 0 && reported <= |order|
      && (reported > 0 ==> forall m | m in w.members && m > last :: w.members[m].participation != version)
    case Voting(round, config, ballots) =>
      && |w.ranks| == round && |ballots| > 0
      && Rounds(|ballots|) > 1 && config == FirstConfig(|ballots|)
    case PostRound(round, config, seed, taken, ballots, order, reported) =>
      && config.participants > 0 && Rounds(config.participants) > 1 && config == FirstConfig(config.participants)
      && taken + |ballots| == config.participants < WIDTH16
      && |w.ranks| == (if taken == 0 then round else round + 1)
      && reported <= |order|
      && (reported > 0 ==> |ballots| == 0)
    case Final(round, order) => 0 < round == |w.ranks| && 0 < |order| < 12
  }

  // ---------------------------------------------------------------------------------------------
  // Events
  // ---------------------------------------------------------------------------------------------

  /** `next` voters are the first `g` groups. */
  predicate AtBoundary(c: RoundConfig, next: nat, g: nat) {
    Storable(c) && g <= c.groups && next == GroupToFirstMemberIndex(c, g)
  }

  predicate CreatingOk(p: Parse, round: nat, n: nat, seen: nat) {
    && n > 0
    && p.Creating? && p.round == round && p.voting == (Rounds(n) > 1)
    && p.participants == n && p.groups == FirstConfig(n).groups
    && p.seen == seen && AtBoundary(FirstConfig(n), seen, p.created)
    && round + Rounds(n) <= p.rounds
  }

  predicate ParseOk(s: Stage, p: Parse) {
    match s
    case Waiting => p == Idle
    case Seeding(_) => p == SeedingOpen
    case InitVoters(_, _, _, order, reported) =>
      if reported == 0 then p == SeedingDone else CreatingOk(p, 0, |order|, reported)
    case Voting(round, config, ballots) =>
      p.Open? && p.round == round && p.voting && p.groups == config.groups && round + Rounds(|ballots|) <= p.rounds
    case PostRound(round, config, _, taken, _, order, reported) =>
      if reported == 0 then
        && p.Reporting? && p.round == round && p.voting && p.groups == config.groups
        && AtBoundary(config, taken, p.reported)
        && |order| <= p.reported
        && round + Rounds(config.participants) <= p.rounds
      else
        CreatingOk(p, round + 1, |order|, reported)
    case Final(round, _) =>
      p.Open? && p.round == round && !p.voting && p.groups == 1 && round < p.rounds
  }

  ghost predicate Inv(w: World) {
    && MembersFine(w.members)
    && VotersOk(w)
    && Counts(w.members, Settled(w), w.ranks)
    && RepsOk(w)
    && RoundsOk(w)
    && ParseOk(w.stage, ParseAll(w.events))
  }

  // ---------------------------------------------------------------------------------------------
  // Facts about plans
  // ---------------------------------------------------------------------------------------------

  lemma PlanLength(n: nat)
    requires n > 0
    ensures |PlanFor(n)| == Rounds(n)
    ensures FirstConfig(n).participants == n
  {
  }

  /** The first round of a plan can be stored, and its groups have between 1 and 11 members. */
  lemma FirstConfigFacts(n: nat)
    requires 0 < n < WIDTH16
    ensures Storable(FirstConfig(n))
    ensures FirstConfig(n).participants == n
    ensures FirstConfig(n).Ceil() <= 11
    ensures n >= 3 ==> FirstConfig(n).Floor() >= if Rounds(n) == 1 then 3 else 4
    ensures Rounds(n) == 1 ==> FirstConfig(n).groups == 1 && n < 12
  {
    hide PlanFor, Rounds, FirstConfig;
    FirstConfigShape(n);
    var c := FirstConfig(n);
    CeilWithin(n, c.groups, 11);
    MulMono(1, c.groups, 11, c.groups);
    MulMono(11, c.groups, 255, c.groups);
    FloorAtLeast(n, c.groups, 1);
  }

  lemma FirstConfigShape(n: nat)
    requires n > 0
    ensures var c := FirstConfig(n);
      && c.groups > 0 && c.participants == n && c.Floor() >= 1 && c.Ceil() <= 11
      && (n >= 3 ==> c.Floor() >= if Rounds(n) == 1 then 3 else 4)
      && (Rounds(n) == 1 ==> c.groups == 1 && n < 12)
      && c.groups <= n
  {
    PlanLength(n);
    if n < 3 {
      TinyElection(n);
    } else {
      var basic := Root(n, Rounds(n));
      PlanIsLegal(n, Rounds(n), basic, Large(n));
      PowAtOne(4);
      var c := FirstConfig(n);
      FloorAtLeast(n, c.groups, 1);
    }
  }

  /** The winners of a round need fewer rounds than its participants. */
  lemma WinnersNeedFewerRounds(n: nat, winners: nat)
    requires n > 0 && Rounds(n) > 1 && 0 < winners && FirstConfig(n).groups > 0 && winners <= FirstConfig(n).groups
    ensures Rounds(winners) < Rounds(n)
  {
    FirstConfigShape(n);
    PowAtOne(4);
    var c := FirstConfig(n);
    var r := Rounds(n);
    FloorAtLeast(n, c.groups, 4);
    assert Pow(4, r) == 4 * Pow(4, r - 1);
    RoundsBelow(winners, r - 1);
  }

  lemma RoundsBelow(n: nat, r: nat)
    requires n < 3 * Pow(4, r) && r > 0
    ensures Rounds(n) <= r
  {
    if Rounds(n) > r {
      PowMonoExp(4, r, Rounds(n) - 1);
    }
  }

  /** The group at a boundary leads to the next boundary and stays inside the round. */
  lemma NextBoundary(c: RoundConfig, next: nat, g: nat)
    requires AtBoundary(c, next, g) && next < c.participants
    requires c.Floor() >= 1 && c.Ceil() <= 11
    ensures g < c.groups
    ensures AtBoundary(c, next + GroupSize(c, next, c.participants - next), g + 1)
    ensures GroupSize(c, next, c.participants - next) == WalkSize(c, next)
    ensures c.Floor() <= WalkSize(c, next) <= 11
  {
    HeaderWidths(c);
    if g == c.groups {
      Ranges(c, 0);
    }
    WalkFollowsGroups(c, g);
    Ranges(c, g);
    GroupAtLeastFloor(c, g);
  }

  lemma GroupAtLeastFloor(c: RoundConfig, g: nat)
    requires Storable(c) && g < c.groups && c.Floor() >= 1
    ensures c.Floor() <= (if g < c.NumLargeGroups() then c.GroupMaxSize() else c.GroupMinSize()) <= c.Ceil()
  {
    HeaderWidths(c);
    var f := c.Floor();
    FloorAtLeast(c.participants, c.groups, f);
    CeilBounds(c.participants, c.groups);
    CeilWithin(c.participants, c.groups, f);
    // with a short group the participants do not fill all groups to the maximum
    if g >= c.NumLargeGroups() {
      var m := c.Ceil();
      if m <= f {
        MulMono(m, c.groups, f, c.groups);
      }
    } else {
      var m := c.Ceil();
      if m < f {
        MulLess(m, f, c.groups);
      }
    }
  }

  lemma BoundaryAtEnd(c: RoundConfig, g: nat)
    requires AtBoundary(c, c.participants, g) && c.Floor() >= 1
    ensures g == c.groups
  {
    if g < c.groups {
      Ranges(c, g);
      FirstMonotone(c, g + 1, c.groups);
      Ranges(c, c.groups - 1);
      GroupAtLeastFloor(c, g);
    }
  }

  lemma BoundaryAtStart(c: RoundConfig)
    requires Storable(c)
    ensures AtBoundary(c, 0, 0)
  {
    Ranges(c, 0);
  }

  // ---------------------------------------------------------------------------------------------
  // Collecting voters
  // ---------------------------------------------------------------------------------------------

  lemma InsertMembers(order: seq<Name>, voter: Name, pos: nat)
    requires pos <= |order|
    ensures forall m :: m in Insert(order, voter, pos) <==> m in order || m == voter
  {
    InsertElements(order, voter, pos);
    forall m: Name ensures m in Insert(order, voter, pos) <==> m in order || m == voter {
      assert m in Insert(order, voter, pos) <==> m in multiset(Insert(order, voter, pos));
      assert m in order <==> m in multiset(order);
    }
  }

  lemma InsertDistinct(order: seq<Name>, voter: Name, pos: nat)
    requires Distinct(order) && voter !in order && pos <= |order|
    ensures Distinct(Insert(order, voter, pos))
  {
  }

  lemma CollectKeeps(w: World, m: Name)
    requires Inv(w) && w.stage.InitVoters? && IsNext(w.members, w.stage.last, m)
    requires w.members[m].active && w.members[m].participation == w.stage.version
    ensures Inv(ProcessMember(w, m))
  {
    hide CreatingOk, ParseAll, Counts;
    var w' := ProcessMember(w, m);
    assert m !in w.stage.order;
    var order, pos := w.stage.order, Draw(w.stage.seed, |w.stage.order|);
    InsertMembers(order, m, pos);
    InsertDistinct(order, m, pos);
    assert Settled(w') == Settled(w);
  }

  lemma PassOverKeeps(w: World, m: Name)
    requires Inv(w) && w.stage.InitVoters? && IsNext(w.members, w.stage.last, m)
    requires !(w.members[m].active && w.members[m].participation == w.stage.version)
    ensures Inv(ProcessMember(w, m))
  {
    hide CreatingOk, ParseAll, Counts;
    assert m !in w.stage.order;
    PassOverCounts(w, m);
    if w.members[m].active {
      ActivesSame(w.members, ProcessMember(w, m).members);
    }
  }

  lemma PassOverCounts(w: World, m: Name)
    requires w.stage.InitVoters? && IsNext(w.members, w.stage.last, m) && Counts(w.members, Settled(w), w.ranks)
    requires |w.ranks| == 0 && MembersFine(w.members) && m !in w.stage.order
    requires !(w.members[m].active && w.members[m].participation == w.stage.version)
    ensures var w' := ProcessMember(w, m); Counts(w'.members, Settled(w'), w'.ranks)
  {
    var w' := ProcessMember(w, m);
    assert Settled(w') == Settled(w) + {m};
    hide Settled, IsNext;
    if w.members[m].active {
      CountsSettle(w.members, Settled(w), w.ranks, m, 0, NOBODY);
    } else {
      CountsUnranked(w.members, Settled(w), w.ranks, m);
    }
  }

  /** Looking at the next member keeps the invariant. */
  lemma ProcessMemberKeeps(w: World, m: Name)
    requires Inv(w) && w.stage.InitVoters? && IsNext(w.members, w.stage.last, m)
    ensures Inv(ProcessMember(w, m))
  {
    hide Inv;
    if w.members[m].active && w.members[m].participation == w.stage.version {
      CollectKeeps(w, m);
    } else {
      PassOverKeeps(w, m);
    }
  }

  lemma ActivesSame(a: MemberTable, b: MemberTable)
    requires a.Keys == b.Keys && forall m | m in a :: a[m].active == b[m].active
    ensures Actives(a) == Actives(b)
  {
  }

  lemma VoterCount(order: seq<Name>, members: MemberTable)
    requires Distinct(order) && forall i | 0 <= i < |order| :: order[i] in members && members[order[i]].active
    ensures |order| <= |Actives(members)|
  {
    SequenceInSet(order, Actives(members));
  }

  lemma {:induction false} SequenceInSet<T>(s: seq<T>, a: set<T>)
    requires Distinct(s) && forall i | 0 <= i < |s| :: s[i] in a
    ensures |s| <= |a|
    decreases |s|
  {
    if |s| != 0 {
      var n := |s| - 1;
      SequenceInSet(s[..n], a - {s[n]});
    }
  }

  lemma NextGroupParse(events: seq<Event>, group: Event, round: nat, n: nat, seen: nat)
    requires CreatingOk(ParseAll(events), round, n, seen) && group.CreateGroup? && group.round == round && |group.voters| > 0
    requires ParseAll(events).created < FirstConfig(n).groups
    requires AtBoundary(FirstConfig(n), seen + |group.voters|, ParseAll(events).created + 1)
    ensures CreatingOk(ParseAll(events + [group]), round, n, seen + |group.voters|)
  {
    hide FirstConfig, Rounds, PlanFor, ParseAll, AtBoundary;
    ParseOne(events, group);
  }

  /** The groups of a round are reported one after the other. */
  lemma GroupEventsParse(events: seq<Event>, opening: seq<Event>, round: nat, order: seq<Name>, reported: nat, rounds: nat)
    requires 0 < |order| < WIDTH16 && reported < |order|
    requires reported == 0 ==>
      && round + Rounds(|order|) <= rounds
      && FeedAll(ParseAll(events), opening)
         == Creating(rounds, round, Rounds(|order|) > 1, |order|, FirstConfig(|order|).groups, 0, 0)
    requires reported > 0 ==> CreatingOk(ParseAll(events), round, |order|, reported)
    ensures var size := GroupSize(FirstConfig(|order|), reported, |order| - reported);
      && size > 0
      && CreatingOk(ParseAll(events + GroupEvents(opening, round, order, reported, size)), round, |order|, reported + size)
  {
    hide FirstConfig, Rounds, PlanFor, ParseAll, Feed, GroupSize, GroupToFirstMemberIndex;
    var n := |order|;
    var c := FirstConfig(n);
    FirstConfigFacts(n);
    FirstConfigShape(n);
    var size := GroupSize(c, reported, n - reported);
    var prefix := events + if reported == 0 then opening else [];
    if reported == 0 {
      ParseMore(events, opening);
      BoundaryAtStart(c);
    } else {
      assert prefix == events;
    }
    var p := ParseAll(prefix);
    assert CreatingOk(p, round, n, reported);
    NextBoundary(c, reported, p.created);
    var group := CreateGroup(round, order[reported..reported + size]);
    NextGroupParse(prefix, group, round, n, reported);
    assert prefix + [group] == events + GroupEvents(opening, round, order, reported, size);
  }

  /** Reporting a group of the first round keeps the invariant. */
  lemma ReportFirstKeeps(w: World)
    requires Inv(w) && w.stage.InitVoters? && w.stage.reported < |w.stage.order|
    requires forall m | m in w.members :: m <= w.stage.last
    ensures Inv(ReportFirst(w))
    ensures ReportFirst(w).stage.reported > w.stage.reported
  {
    hide CreatingOk, ParseAll, Counts, PlanFor, FirstConfig, Rounds;
    var order, reported := w.stage.order, w.stage.reported;
    var n := |order|;
    VoterCount(order, w.members);
    PlanLength(n);
    var opening := [ConfigSummary(|PlanFor(n)|, n), RoundEvent(0, n)];
    if reported == 0 {
      OpeningParse(n);
    }
    GroupEventsParse(w.events, opening, 0, order, reported, Rounds(n));
    assert Settled(ReportFirst(w)) == Settled(w);
  }

  lemma OpeningParse(n: nat)
    requires 0 < n < WIDTH16
    ensures FeedAll(SeedingDone, [ConfigSummary(|PlanFor(n)|, n), RoundEvent(0, n)])
         == Creating(Rounds(n), 0, Rounds(n) > 1, n, FirstConfig(n).groups, 0, 0)
  {
    PlanLength(n);
    FirstConfigFacts(n);
    assert Rounds(n) >= 1;
    hide PlanFor, Rounds, FirstConfig;
    var opening := [ConfigSummary(|PlanFor(n)|, n), RoundEvent(0, n)];
    RoundEventIs(0, n);
    TwoEvents(SeedingDone, opening);
  }

  lemma TwoEvents(p: Parse, events: seq<Event>)
    requires |events| == 2
    ensures FeedAll(p, events) == Feed(Feed(p, events[0]), events[1])
  {
    var rest := events[1..];
    assert FeedAll(p, events) == FeedAll(Feed(p, events[0]), rest);
    assert rest[1..] == [] && rest[0] == events[1];
    assert FeedAll(Feed(p, events[0]), rest) == FeedAll(Feed(Feed(p, events[0]), rest[0]), rest[1..]);
  }

  lemma RoundEventIs(round: nat, n: nat)
    requires n > 0
    ensures RoundEvent(round, n) == CreateRound(round, Rounds(n) > 1, n, FirstConfig(n).groups)
  {
    PlanLength(n);
  }

  // ---------------------------------------------------------------------------------------------
  // Settling members
  // ---------------------------------------------------------------------------------------------

  /** What set_rank does to each listed member. */
  lemma {:induction false} SettleEffect(members: MemberTable, ranks: seq<nat>, ms: seq<Name>, rank: nat, rep: Name)
    requires AllIn(ms, members)
    ensures var t := Settle(members, ranks, ms, rank, rep).0;
      && t.Keys == members.Keys
      && (forall m | m in members && m in ms && m != rep ::
            t[m] == members[m].(rank := rank, rep := rep, participation := 0))
      && (forall m | m in members && !(m in ms && m != rep) :: t[m] == members[m])
    decreases |ms|
  {
    if |ms| != 0 {
      var n := |ms| - 1;
      SettleEffect(members, ranks, ms[..n], rank, rep);
      assert forall m :: m in ms <==> m in ms[..n] || m == ms[n];
    }
  }

  /** The listed members other than the representative. */
  function Losers(ms: seq<Name>, rep: Name): set<Name> {
    set m | m in ms && m != rep
  }

  lemma LosersStep(ms: seq<Name>, rep: Name)
    requires |ms| > 0
    ensures var n := |ms| - 1;
      Losers(ms, rep) == Losers(ms[..n], rep) + if ms[n] == rep then {} else {ms[n]}
  {
    var n := |ms| - 1;
    assert forall m :: m in ms <==> m in ms[..n] || m == ms[n];
  }

  /** Each listed member is counted exactly once at its rank. */
  lemma {:induction false} SettleCounts(members: MemberTable, ranks: seq<nat>, ms: seq<Name>, rank: nat, rep: Name, who: set<Name>)
    requires AllIn(ms, members) && Distinct(ms) && Counts(members, who, ranks) && rep != NOBODY
    requires forall i | 0 <= i < |ms| :: ms[i] !in who
    ensures var r := Settle(members, ranks, ms, rank, rep);
      Counts(r.0, who + Losers(ms, rep), r.1)
    decreases |ms|
  {
    hide Counts;
    if |ms| == 0 {
      assert who + Losers(ms, rep) == who;
    } else {
      var n := |ms| - 1;
      SettleCounts(members, ranks, ms[..n], rank, rep, who);
      LosersStep(ms, rep);
      var r := Settle(members, ranks, ms[..n], rank, rep);
      var done := who + Losers(ms[..n], rep);
      assert ms[n] !in done;
      hide Losers;
      if ms[n] == rep {
        assert who + Losers(ms, rep) == done;
      } else {
        CountsSettle(r.0, done, r.1, ms[n], rank, rep);
        assert who + Losers(ms, rep) == done + {ms[n]};
      }
    }
  }

  /** The statistics grow to hold the rank as soon as one member is counted there. */
  lemma {:induction false} SettleLength(members: MemberTable, ranks: seq<nat>, ms: seq<Name>, rank: nat, rep: Name)
    requires AllIn(ms, members) && rank <= |ranks| <= rank + 1 && rep != NOBODY
    ensures var n := |Settle(members, ranks, ms, rank, rep).1|;
      n == if exists i :: 0 <= i < |ms| && ms[i] != rep then rank + 1 else |ranks|
    decreases |ms|
  {
    if |ms| != 0 {
      var n := |ms| - 1;
      SettleLength(members, ranks, ms[..n], rank, rep);
      if i :| 0 <= i < n && ms[..n][i] != rep {
        assert ms[i] != rep;
      }
    }
  }

  /** The voted and the missing are the whole group. */
  lemma {:induction false} VotedAndMissing(group: seq<Ballot>)
    ensures multiset(Voted(group) + Missing(group)) == multiset(MembersOf(group))
    decreases |group|
  {
    hide Voted, Missing;
    if |group| == 0 {
      NobodyVoted(group);
    } else {
      var rest, last := group[..|group| - 1], group[|group| - 1];
      VotedAndMissing(rest);
      VotedOrMissing(group);
      assert MembersOf(group) == MembersOf(rest) + [last.member];
      if Missing(group) == Missing(rest) {
        JoinFirst(Voted(rest), Missing(rest), MembersOf(rest), last.member);
      } else {
        JoinSecond(Voted(rest), Missing(rest), MembersOf(rest), last.member);
      }
    }
  }

  lemma NobodyVoted(group: seq<Ballot>)
    requires |group| == 0
    ensures Voted(group) == Missing(group) == MembersOf(group) == []
  {
  }

  lemma JoinFirst(a: seq<Name>, b: seq<Name>, all: seq<Name>, m: Name)
    requires multiset(a + b) == multiset(all)
    ensures multiset((a + [m]) + b) == multiset(all + [m])
  {
  }

  lemma JoinSecond(a: seq<Name>, b: seq<Name>, all: seq<Name>, m: Name)
    requires multiset(a + b) == multiset(all)
    ensures multiset(a + (b + [m])) == multiset(all + [m])
  {
    assert a + (b + [m]) == (a + b) + [m];
  }

  lemma VotedOrMissing(group: seq<Ballot>)
    requires |group| > 0
    ensures var rest, last := group[..|group| - 1], group[|group| - 1];
      || (Voted(group) == Voted(rest) + [last.member] && Missing(group) == Missing(rest))
      || (Voted(group) == Voted(rest) && Missing(group) == Missing(rest) + [last.member])
  {
  }

  lemma GroupLists(group: seq<Ballot>)
    requires DistinctMembers(group)
    ensures Distinct(Voted(group) + Missing(group))
    ensures |Voted(group) + Missing(group)| == |group|
    ensures forall m :: m in Voted(group) + Missing(group) <==> m in MembersOf(group)
  {
    var all := Voted(group) + Missing(group);
    VotedAndMissing(group);
    assert Distinct(MembersOf(group));
    SameElements(MembersOf(group), all);
    assert |multiset(all)| == |multiset(MembersOf(group))|;
    forall m: Name ensures m in all <==> m in MembersOf(group) {
      assert m in all <==> m in multiset(all);
      assert m in MembersOf(group) <==> m in multiset(MembersOf(group));
    }
  }

  // ---------------------------------------------------------------------------------------------
  // Counting a group
  // ---------------------------------------------------------------------------------------------

  function NextGroup(s: Stage): seq<Ballot>
    requires s.PostRound?
  {
    s.ballots[..GroupSize(s.config, s.taken, |s.ballots|)]
  }

  function AfterGroup(s: Stage): seq<Ballot>
    requires s.PostRound?
  {
    s.ballots[GroupSize(s.config, s.taken, |s.ballots|)..]
  }

  lemma MarkerFacts(m: Name)
    requires 0 < m < NOBODY && IsAccount(m)
    ensures !IsAccount(Marker(m)) && Marker(m) != NOBODY
  {
  }

  lemma MembersSplit(ballots: seq<Ballot>, size: nat)
    requires size <= |ballots| && DistinctMembers(ballots)
    ensures forall m :: m in MembersOf(ballots) <==> m in MembersOf(ballots[..size]) || m in MembersOf(ballots[size..])
    ensures forall m | m in MembersOf(ballots[..size]) :: m !in MembersOf(ballots[size..])
    ensures DistinctMembers(ballots[..size]) && DistinctMembers(ballots[size..])
  {
    assert MembersOf(ballots) == MembersOf(ballots[..size]) + MembersOf(ballots[size..]);
    var a, b := MembersOf(ballots[..size]), MembersOf(ballots[size..]);
    forall m | m in a ensures m !in b {
    }
  }

  lemma VoterIsMember(ballots: seq<Ballot>, i: nat)
    requires i < |ballots|
    ensures ballots[i].member in MembersOf(ballots)
  {
    assert MembersOf(ballots)[i] == ballots[i].member;
  }

  /** The size of the group, and the boundary after it. */
  lemma GroupBounds(w: World)
    requires RoundsOk(w) && w.stage.PostRound? && |w.stage.ballots| > 0
    requires w.stage.reported == 0 && ParseOk(w.stage, ParseAll(w.events))
    ensures var s, p := w.stage, ParseAll(w.events);
      && 4 <= |NextGroup(s)| <= 11
      && |NextGroup(s)| == WalkSize(s.config, s.taken)
      && p.reported < p.groups
      && AtBoundary(s.config, s.taken + |NextGroup(s)|, p.reported + 1)
  {
    var s, p := w.stage, ParseAll(w.events);
    FirstConfigFacts(s.config.participants);
    FirstConfigShape(s.config.participants);
    hide FirstConfig, Rounds, ParseAll;
    NextBoundary(s.config, s.taken, p.reported);
  }

  /** The winner is a member of the group, or the marker of its first member. */
  lemma WinnerFacts(w: World)
    requires MembersFine(w.members) && VotersOk(w) && w.stage.PostRound? && |NextGroup(w.stage)| > 0
    ensures var group := NextGroup(w.stage);
      var winner := GroupWinner(group);
      && winner != NOBODY
      && (IsAccount(winner) <==> winner in MembersOf(group))
      && DistinctMembers(group)
      && (forall m | m in MembersOf(group) :: m in w.members && w.members[m].active && m in MembersOf(w.stage.ballots))
  {
    var s, group := w.stage, NextGroup(w.stage);
    MembersSplit(s.ballots, |group|);
    forall m | m in MembersOf(group) ensures IsVoter(s, m) {
    }
    VoterIsMember(group, 0);
    MarkerFacts(group[0].member);
    if Winner(group).Some? {
      WinnerIsInGroup(group, Winner(group).value);
      var i :| 0 <= i < |group| && group[i].member == Winner(group).value;
      VoterIsMember(group, i);
    }
  }

  /** The tables after counting the next group. */
  lemma CountGroupIs(w: World)
    requires w.stage.PostRound? && AllIn(MembersOf(w.stage.ballots), w.members)
    requires |NextGroup(w.stage)| > 0 && DistinctMembers(NextGroup(w.stage))
    ensures var s, group := w.stage, NextGroup(w.stage);
      var winner, ms := GroupWinner(group), Voted(group) + Missing(group);
      && AllIn(ms, w.members)
      && CountGroup(w) == World(Settle(w.members, w.ranks, ms, s.round, winner).0,
                                Settle(w.members, w.ranks, ms, s.round, winner).1,
                                PostRound(s.round, s.config, s.seed, s.taken + |group|, AfterGroup(s),
                                          if IsAccount(winner) then Insert(s.order, winner, Draw(s.seed, |s.order|)) else s.order,
                                          s.reported),
                                w.lead, w.board, w.events + [ReportGroup(s.round, winner, group)])
  {
    hide GroupWinner, Settle, Insert, Voted, Missing;
    var group := NextGroup(w.stage);
    VotedAreMembers(group);
    GroupMembersIn(w.stage.ballots, |group|, w.members);
  }

  lemma VotersInTable(w: World)
    requires VotersOk(w) && w.stage.PostRound?
    ensures AllIn(MembersOf(w.stage.ballots), w.members)
  {
    forall i | 0 <= i < |MembersOf(w.stage.ballots)| ensures MembersOf(w.stage.ballots)[i] in w.members {
      assert IsVoter(w.stage, MembersOf(w.stage.ballots)[i]);
    }
  }

  /** Who votes after a group has been counted: everybody but its losers. */
  lemma CountGroupVoters(w: World)
    requires MembersFine(w.members) && VotersOk(w) && w.stage.PostRound? && |NextGroup(w.stage)| > 0
    requires AllIn(MembersOf(w.stage.ballots), w.members)
    ensures var group := NextGroup(w.stage);
      && (forall m :: IsVoter(CountGroup(w).stage, m) <==>
            IsVoter(w.stage, m) && !(m in MembersOf(group) && m != GroupWinner(group)))
      && VoterLists(CountGroup(w).stage)
  {
    var s, group := w.stage, NextGroup(w.stage);
    var winner := GroupWinner(group);
    WinnerFacts(w);
    CountGroupIs(w);
    MembersSplit(s.ballots, |group|);
    if IsAccount(winner) {
      InsertMembers(s.order, winner, Draw(s.seed, |s.order|));
      InsertDistinct(s.order, winner, Draw(s.seed, |s.order|));
    }
  }

  /** What counting a group does to the table of members. */
  lemma CountGroupTable(w: World)
    requires MembersFine(w.members) && VotersOk(w) && w.stage.PostRound? && |NextGroup(w.stage)| > 0
    requires AllIn(MembersOf(w.stage.ballots), w.members)
    ensures var w', group := CountGroup(w), NextGroup(w.stage);
      var winner := GroupWinner(group);
      && w'.members.Keys == w.members.Keys
      && (forall m | m in w.members && m in MembersOf(group) && m != winner ::
            w'.members[m] == w.members[m].(rank := w.stage.round, rep := winner, participation := 0))
      && (forall m | m in w.members && !(m in MembersOf(group) && m != winner) :: w'.members[m] == w.members[m])
  {
    var group := NextGroup(w.stage);
    WinnerFacts(w);
    CountGroupIs(w);
    GroupLists(group);
    SettleEffect(w.members, w.ranks, Voted(group) + Missing(group), w.stage.round, GroupWinner(group));
  }

  lemma CountGroupCounts(w: World)
    requires MembersFine(w.members) && VotersOk(w) && w.stage.PostRound? && |NextGroup(w.stage)| > 0
    requires AllIn(MembersOf(w.stage.ballots), w.members)
    requires Counts(w.members, Settled(w), w.ranks)
    ensures Counts(CountGroup(w).members, Settled(CountGroup(w)), CountGroup(w).ranks)
  {
    hide Counts, Settle;
    var group := NextGroup(w.stage);
    var winner, ms := GroupWinner(group), Voted(group) + Missing(group);
    WinnerFacts(w);
    CountGroupIs(w);
    GroupLists(group);
    SettleCounts(w.members, w.ranks, ms, w.stage.round, winner, Settled(w));
    CountGroupVoters(w);
    CountGroupTable(w);
    SettledAfter(w, CountGroup(w), Losers(ms, winner));
  }

  lemma SettledAfter(w: World, w': World, losers: set<Name>)
    requires w'.members.Keys == w.members.Keys && !w.stage.InitVoters? && !w'.stage.InitVoters?
    requires forall m | m in w.members :: IsVoter(w'.stage, m) <==> IsVoter(w.stage, m) && m !in losers
    requires forall m | m in losers :: m in w.members && IsVoter(w.stage, m)
    ensures Settled(w') == Settled(w) + losers
  {
  }

  /** Nobody sinks when a group is counted, and its winner rises. */
  lemma CountGroupLevels(w: World, m: Name)
    requires MembersFine(w.members) && VotersOk(w) && w.stage.PostRound? && |NextGroup(w.stage)| > 0
    requires AllIn(MembersOf(w.stage.ballots), w.members) && m in w.members
    ensures m in CountGroup(w).members && Level(CountGroup(w), m) >= Level(w, m)
    ensures m == GroupWinner(NextGroup(w.stage)) ==> Level(CountGroup(w), m) == w.stage.round + 1
  {
    hide CountGroup, GroupWinner, Settle, Actives, Voted, Missing, Insert;
    var s, group := w.stage, NextGroup(w.stage);
    var winner := GroupWinner(group);
    WinnerFacts(w);
    CountGroupIs(w);
    CountGroupTable(w);
    MembersSplit(s.ballots, |group|);
    if IsAccount(winner) {
      InsertMembers(s.order, winner, Draw(s.seed, |s.order|));
    }
  }

  lemma CountGroupReps(w: World)
    requires MembersFine(w.members) && VotersOk(w) && w.stage.PostRound? && |NextGroup(w.stage)| > 0
    requires AllIn(MembersOf(w.stage.ballots), w.members)
    requires RepsOk(w)
    ensures RepsOk(CountGroup(w))
  {
    var w', group := CountGroup(w), NextGroup(w.stage);
    var winner := GroupWinner(group);
    WinnerFacts(w);
    CountGroupIs(w);
    CountGroupVoters(w);
    CountGroupTable(w);
    hide CountGroup, GroupWinner, Settle, IsVoter, Level;
    forall m | m in Settled(w') && w'.members[m].Represented()
      ensures RepAbove(w', m)
    {
      if m in MembersOf(group) && m != winner {
        if IsAccount(winner) {
          CountGroupLevels(w, winner);
        }
      } else {
        assert m in Settled(w) && w'.members[m] == w.members[m];
        assert RepAbove(w, m);
        if IsAccount(w.members[m].rep) {
          CountGroupLevels(w, w.members[m].rep);
        }
      }
    }
  }

  lemma CountGroupRounds(w: World)
    requires MembersFine(w.members) && VotersOk(w) && w.stage.PostRound?
    requires AllIn(MembersOf(w.stage.ballots), w.members)
    requires RoundsOk(w) && w.stage.reported == 0 && |NextGroup(w.stage)| >= 2
    ensures RoundsOk(CountGroup(w))
  {
    hide Rounds, FirstConfig, CountGroup, GroupWinner, Settle, MembersFine, VotersOk, Voted, Missing;
    var s, group := w.stage, NextGroup(w.stage);
    var winner, ms := GroupWinner(group), Voted(group) + Missing(group);
    WinnerFacts(w);
    CountGroupIs(w);
    GroupLists(group);
    SettleLength(w.members, w.ranks, ms, s.round, winner);
    assert ms[0] != ms[1];
    assert ms[0] != winner || ms[1] != winner;
  }

  lemma CountGroupParse(w: World)
    requires MembersFine(w.members) && VotersOk(w) && w.stage.PostRound? && |w.stage.ballots| > 0
    requires AllIn(MembersOf(w.stage.ballots), w.members)
    requires RoundsOk(w) && w.stage.reported == 0
    requires ParseOk(w.stage, ParseAll(w.events))
    ensures ParseOk(CountGroup(w).stage, ParseAll(CountGroup(w).events))
  {
    hide Rounds, FirstConfig, ParseAll, Settle;
    var s, group := w.stage, NextGroup(w.stage);
    GroupBounds(w);
    WinnerFacts(w);
    CountGroupIs(w);
    ParseOne(w.events, ReportGroup(s.round, GroupWinner(group), group));
  }

  /** Only active members of the round vote, so the counts fit in 16 bits. */
  lemma ParticipantsFit(w: World)
    requires MembersFine(w.members) && VotersOk(w) && RoundsOk(w)
    ensures w.stage.Voting? ==> |w.stage.ballots| < WIDTH16
    ensures w.stage.InitVoters? || w.stage.PostRound? || w.stage.Final? ==> |w.stage.order| < WIDTH16
  {
    match w.stage
    case InitVoters(_, _, _, order, _) => VoterCountOf(w, order);
    case Voting(_, _, ballots) => VoterCountOf(w, MembersOf(ballots));
    case PostRound(_, _, _, _, _, order, _) => VoterCountOf(w, order);
    case Final(_, order) => VoterCountOf(w, order);
    case _ =>
  }

  lemma VoterCountOf(w: World, order: seq<Name>)
    requires MembersFine(w.members) && VotersOk(w) && Distinct(order)
    requires forall m | m in order :: IsVoter(w.stage, m)
    ensures |order| < WIDTH16
  {
    forall i | 0 <= i < |order| ensures order[i] in w.members && w.members[order[i]].active {
      assert IsVoter(w.stage, order[i]);
    }
    VoterCount(order, w.members);
  }

  /** Counting the next group keeps the invariant. */
  lemma CountGroupKeeps(w: World)
    requires Inv(w) && w.stage.PostRound? && |w.stage.ballots| > 0
    ensures AllIn(MembersOf(w.stage.ballots), w.members)
    ensures Inv(CountGroup(w))
    ensures CountGroup(w).stage.PostRound? && |CountGroup(w).stage.ballots| < |w.stage.ballots|
    ensures CountGroup(w).stage.config == w.stage.config
  {
    VotersInTable(w);
    GroupBounds(w);
    CountGroupCounts(w);
    CountGroupReps(w);
    CountGroupRounds(w);
    CountGroupParse(w);
    CountGroupVotersOk(w);
    CountGroupShape(w);
  }

  lemma CountGroupShape(w: World)
    requires MembersFine(w.members) && VotersOk(w) && w.stage.PostRound? && |NextGroup(w.stage)| > 0
    requires AllIn(MembersOf(w.stage.ballots), w.members)
    ensures CountGroup(w).stage.PostRound? && |CountGroup(w).stage.ballots| < |w.stage.ballots|
    ensures CountGroup(w).stage.config == w.stage.config
  {
    WinnerFacts(w);
    CountGroupIs(w);
  }

  lemma CountGroupVotersOk(w: World)
    requires MembersFine(w.members) && VotersOk(w) && w.stage.PostRound? && |NextGroup(w.stage)| > 0
    requires AllIn(MembersOf(w.stage.ballots), w.members)
    ensures MembersFine(CountGroup(w).members) && VotersOk(CountGroup(w))
  {
    WinnerFacts(w);
    CountGroupIs(w);
    CountGroupVoters(w);
    CountGroupTable(w);
    hide CountGroup, GroupWinner, Settle, IsVoter, VoterLists;
    var w' := CountGroup(w);
    assert forall m | m in w.members :: w'.members[m].active == w.members[m].active;
    ActivesSame(w.members, w'.members);
  }

  // ---------------------------------------------------------------------------------------------
  // From round to round
  // ---------------------------------------------------------------------------------------------

  lemma SettledSame(w: World, w': World)
    requires w'.members == w.members && !w'.stage.InitVoters?
    requires w.stage.InitVoters? ==> forall m | m in w.members :: m <= w.stage.last
    requires forall m :: IsVoter(w'.stage, m) <==> IsVoter(w.stage, m)
    ensures Settled(w') == Settled(w)
  {
  }

  lemma NoVotesMembers(order: seq<Name>)
    ensures MembersOf(NoVotes(order)) == order
  {
  }

  lemma EndVoteKeeps(w: World, seed: Seed)
    requires Inv(w) && w.stage.Voting?
    ensures Inv(EndVote(w, seed))
  {
    hide Rounds, Counts, ParseAll;
    ParticipantsFit(w);
    FirstConfigFacts(|w.stage.ballots|);
    hide FirstConfig;
    BoundaryAtStart(w.stage.config);
    ParseOne(w.events, EndRoundVoting(w.stage.round));
    SettledSame(w, EndVote(w, seed));
  }

  lemma NextRoundOpens(w: World)
    requires Inv(w) && w.stage.PostRound? && |w.stage.ballots| == 0 && |w.stage.order| > 0 && w.stage.reported == 0
    ensures var s, p := w.stage, ParseAll(w.events);
      var n := |s.order|;
      && n < WIDTH16 && p.Reporting?
      && s.round + 1 + Rounds(n) <= p.rounds
      && FeedAll(p, [EndRound(s.round), RoundEvent(s.round + 1, n)])
         == Creating(p.rounds, s.round + 1, Rounds(n) > 1, n, FirstConfig(n).groups, 0, 0)
  {
    hide Counts, RepsOk, MembersFine, VotersOk, PlanFor, ParseAll, Feed;
    var s, p := w.stage, ParseAll(w.events);
    var n := |s.order|;
    ParticipantsFit(w);
    FirstConfigFacts(s.config.participants);
    FirstConfigShape(s.config.participants);
    BoundaryAtEnd(s.config, p.reported);
    WinnersNeedFewerRounds(s.config.participants, n);
    FirstConfigFacts(n);
    assert Rounds(n) >= 1;
    ReportThenCreate(p, s.round, n);
  }

  lemma ReportThenCreate(p: Parse, round: nat, n: nat)
    requires 0 < n && p.Reporting? && p.round == round && p.voting && p.reported == p.groups && round + 1 < p.rounds
    requires Rounds(n) > 1 || FirstConfig(n).groups == 1
    ensures FeedAll(p, [EndRound(round), RoundEvent(round + 1, n)])
         == Creating(p.rounds, round + 1, Rounds(n) > 1, n, FirstConfig(n).groups, 0, 0)
  {
    RoundEventIs(round + 1, n);
    hide Rounds, FirstConfig, PlanFor, ParseAll, RoundEvent;
    TwoEvents(p, [EndRound(round), RoundEvent(round + 1, n)]);
  }

  /** Reporting a group of the next round keeps the invariant. */
  lemma ReportNextKeeps(w: World)
    requires Inv(w) && w.stage.PostRound? && |w.stage.ballots| == 0 && w.stage.reported < |w.stage.order|
    ensures Inv(ReportNext(w))
    ensures ReportNext(w).stage.PostRound? && ReportNext(w).stage.reported > w.stage.reported
  {
    hide Counts, PlanFor, FirstConfig, Rounds, ParseAll, MembersFine, RoundEvent;
    var s := w.stage;
    ParticipantsFit(w);
    var opening := [EndRound(s.round), RoundEvent(s.round + 1, |s.order|)];
    if s.reported == 0 {
      NextRoundOpens(w);
    }
    GroupEventsParse(w.events, opening, s.round + 1, s.order, s.reported, ParseAll(w.events).rounds);
    SettledSame(w, ReportNext(w));
  }

  lemma LevelsSame(w: World, w': World)
    requires w'.members == w.members && RepsOk(w) && Settled(w') == Settled(w)
    requires w.stage.Voting? || w.stage.PostRound? || w.stage.Final?
    requires forall m | m in w.members :: Level(w', m) == Level(w, m)
    ensures RepsOk(w')
  {
    forall m | m in Settled(w') && w'.members[m].Represented() ensures RepAbove(w', m) {
      assert RepAbove(w, m);
    }
  }

  lemma BeginParse(events: seq<Event>, round: nat, n: nat)
    requires 0 < n < WIDTH16 && CreatingOk(ParseAll(events), round, n, n)
    ensures var p := ParseAll(events);
      ParseAll(events + [BeginRoundVoting(round)]) == Open(p.rounds, round, Rounds(n) > 1, FirstConfig(n).groups)
  {
    FirstConfigFacts(n);
    FirstConfigShape(n);
    hide Rounds, FirstConfig, PlanFor, ParseAll;
    BoundaryAtEnd(FirstConfig(n), ParseAll(events).created);
    ParseOne(events, BeginRoundVoting(round));
  }

  /** Opening the next round keeps the invariant. */
  lemma BeginNextKeeps(w: World)
    requires Inv(w) && w.stage.PostRound? && |w.stage.ballots| == 0 && w.stage.reported == |w.stage.order| > 0
    ensures Inv(BeginNext(w))
  {
    hide Counts, ParseAll, MembersFine, BeginNext;
    BeginNextStage(w);
    assert MembersOf(w.stage.ballots) == [];
    NoVotesMembers(w.stage.order);
    BeginNextRounds(w);
    hide FirstConfig, Rounds, RoundsOk, ParseOk;
    SettledSame(w, BeginNext(w));
    LevelsSame(w, BeginNext(w));
  }

  lemma BeginNextRounds(w: World)
    requires MembersFine(w.members) && VotersOk(w) && RoundsOk(w) && ParseOk(w.stage, ParseAll(w.events))
    requires w.stage.PostRound? && |w.stage.ballots| == 0 && w.stage.reported == |w.stage.order| > 0
    ensures RoundsOk(BeginNext(w)) && ParseOk(BeginNext(w).stage, ParseAll(BeginNext(w).events))
  {
    hide ParseAll, MembersFine, VotersOk, CreatingOk, BeginNext, PlanFor;
    var n := |w.stage.order|;
    ParticipantsFit(w);
    BeginNextParse(w.events, w.stage.round, n);
    BeginNextStage(w);
    FirstConfigFacts(n);
  }

  lemma BeginNextStage(w: World)
    requires w.stage.PostRound? && |w.stage.order| > 0
    ensures var s, w' := w.stage, BeginNext(w);
      var n := |s.order|;
      && w'.members == w.members && w'.ranks == w.ranks
      && w'.stage == (if Rounds(n) == 1 then Final(s.round + 1, s.order) else Voting(s.round + 1, FirstConfig(n), NoVotes(s.order)))
      && w'.events == w.events + [BeginRoundVoting(s.round + 1)] + (if Rounds(n) == 1 then [SeedUpdate] else [])
  {
    hide PlanFor, Rounds, FirstConfig;
    PlanLength(|w.stage.order|);
  }

  lemma BeginNextParse(events: seq<Event>, round: nat, n: nat)
    requires 0 < n < WIDTH16 && CreatingOk(ParseAll(events), round + 1, n, n)
    ensures var p, all := ParseAll(events), events + [BeginRoundVoting(round + 1)] + (if Rounds(n) == 1 then [SeedUpdate] else []);
      && ParseAll(all) == Open(p.rounds, round + 1, Rounds(n) > 1, FirstConfig(n).groups)
      && round + 1 + Rounds(n) <= p.rounds
      && Rounds(n) >= 1
  {
    BeginParse(events, round + 1, n);
    hide Rounds, FirstConfig, ParseAll;
    var e := events + [BeginRoundVoting(round + 1)];
    ParseOne(e, SeedUpdate);
    assert e + [] == e;
  }

  // ---------------------------------------------------------------------------------------------
  // The end
  // ---------------------------------------------------------------------------------------------

  /** At the end of an election the statistics are exact, there is one lead representative at the
      top, and every representative is a failed-group marker, the lead representing itself, or a
      member of a higher rank. */
  predicate Elected(w: World) {
    && w.stage.Waiting?
    && RankStats(w.members, w.ranks)
    && |w.ranks| >= 2 && w.ranks[|w.ranks| - 1] == 1
    && w.lead in w.members && w.members[w.lead].rank == |w.ranks| - 1 && w.members[w.lead].rep == w.lead
    && (forall m | m in w.members && w.members[m].Represented() ::
          var rep := w.members[m].rep;
          || !IsAccount(rep)
          || (rep == m == w.lead)
          || (rep in w.members && w.members[rep].rank > w.members[m].rank))
  }

  function Others(w: World, board: seq<Name>): set<Name> {
    set m | m in w.members && m !in board
  }

  /** What is known just before the result is recorded: `board` are the voters of the last round. */
  ghost predicate ReadyToFinish(w: World, board: seq<Name>, winner: Name) {
    && MembersFine(w.members)
    && Distinct(board) && AllIn(board, w.members) && (forall m | m in board :: w.members[m].active)
    && winner in board
    && Counts(w.members, Others(w, board), w.ranks)
    && (forall m | m in w.members && m !in board && w.members[m].Represented() ::
          var rep := w.members[m].rep;
          || !IsAccount(rep)
          || (rep in w.members && (if rep in board then |w.ranks| else w.members[rep].rank) > w.members[m].rank))
  }

  lemma FinishTables(w: World, board: seq<Name>, winner: Name)
    requires ReadyToFinish(w, board, winner)
    ensures var w', round := FinishElection(w, board, winner), |w.ranks|;
      && w'.members.Keys == w.members.Keys
      && w'.members[winner] == w.members[winner].(rank := round + 1, rep := winner, participation := 0)
      && (forall m | m in board && m != winner ::
            m in w.members && w'.members[m] == w.members[m].(rank := round, rep := winner, participation := 0))
      && (forall m | m in w.members && m !in board :: w'.members[m] == w.members[m])
  {
    SettleEffect(w.members, w.ranks, board, |w.ranks|, winner);
  }

  lemma FinishStats(w: World, board: seq<Name>, winner: Name)
    requires ReadyToFinish(w, board, winner)
    ensures var w', round := FinishElection(w, board, winner), |w.ranks|;
      && RankStats(w'.members, w'.ranks)
      && |w'.ranks| == round + 2 && w'.ranks[round + 1] == 1
  {
    hide Counts, Settle, CountRank, MembersFine;
    var round := |w.ranks|;
    var who := Others(w, board);
    NamesBelow(w, winner);
    SettleCounts(w.members, w.ranks, board, round, winner, who);
    SettleLength(w.members, w.ranks, board, round, winner);
    var r := Settle(w.members, w.ranks, board, round, winner);
    OthersAndLosers(w, board, winner);
    CountsSettle(r.0, who + Losers(board, winner), r.1, winner, round + 1, winner);
    CountRankTop(r.1, round + 1, winner);
    FinishTables(w, board, winner);
  }

  lemma NamesBelow(w: World, m: Name)
    requires MembersFine(w.members) && m in w.members
    ensures m != NOBODY
  {
  }

  lemma OthersAndLosers(w: World, board: seq<Name>, winner: Name)
    requires AllIn(board, w.members) && winner in board
    ensures Others(w, board) + Losers(board, winner) + {winner} == w.members.Keys
    ensures winner !in Others(w, board) + Losers(board, winner)
  {
  }

  lemma CountRankTop(ranks: seq<nat>, rank: nat, rep: Name)
    requires |ranks| <= rank && rep != NOBODY
    ensures |CountRank(ranks, rank, rep)| == rank + 1 && CountRank(ranks, rank, rep)[rank] == 1
  {
  }

  lemma FinishReps(w: World, board: seq<Name>, winner: Name)
    requires ReadyToFinish(w, board, winner)
    ensures var w' := FinishElection(w, board, winner);
      forall m | m in w'.members && w'.members[m].Represented() ::
        var rep := w'.members[m].rep;
        || !IsAccount(rep)
        || (rep == m == w'.lead)
        || (rep in w'.members && w'.members[rep].rank > w'.members[m].rank)
  {
    FinishTables(w, board, winner);
    var w' := FinishElection(w, board, winner);
    forall m | m in w'.members && w'.members[m].Represented()
      ensures var rep := w'.members[m].rep;
        || !IsAccount(rep)
        || (rep == m == w'.lead)
        || (rep in w'.members && w'.members[rep].rank > w'.members[m].rank)
    {
      if m !in board {
        assert w'.members[m] == w.members[m];
        var rep := w.members[m].rep;
        if IsAccount(rep) {
          assert rep in w.members;
        }
      }
    }
  }

  /** Recording the result of the last round. */
  lemma FinishKeeps(w: World, board: seq<Name>, winner: Name)
    requires ReadyToFinish(w, board, winner)
    requires |w.ranks| == 0 ==> ParseAll(w.events).Open? && ParseAll(w.events).round == 0
    requires |w.ranks| > 0 ==> ParseAll(w.events).Open? && ParseAll(w.events).round == |w.ranks|
    requires ParseAll(w.events).Open? ==> !ParseAll(w.events).voting && ParseAll(w.events).groups == 1
    ensures Inv(FinishElection(w, board, winner))
    ensures Elected(FinishElection(w, board, winner))
  {
    FinishParse(w.events, |w.ranks|, winner, board);
    FinishMembers(w, board, winner);
    FinishElected(w, board, winner);
    FinishShape(w, board, winner);
    hide ParseAll, FinishElection, MembersFine, ReadyToFinish;
    WaitingInv(FinishElection(w, board, winner));
  }

  /** Between elections the statistics are about all members. */
  lemma WaitingInv(w: World)
    requires w.stage.Waiting? && MembersFine(w.members) && RankStats(w.members, w.ranks) && ParseAll(w.events) == Idle
    ensures Inv(w)
  {
    hide MembersFine, ParseAll, Counts;
    assert Settled(w) == w.members.Keys;
  }

  lemma FinishElected(w: World, board: seq<Name>, winner: Name)
    requires ReadyToFinish(w, board, winner)
    ensures Elected(FinishElection(w, board, winner)) && RankStats(FinishElection(w, board, winner).members, FinishElection(w, board, winner).ranks)
  {
    FinishTables(w, board, winner);
    FinishStats(w, board, winner);
    FinishReps(w, board, winner);
    FinishShape(w, board, winner);
    hide Settle, Counts, ParseAll, FinishElection, WithRank, CountRank, Losers, Others, MembersFine, RankStats;
  }

  lemma FinishMembers(w: World, board: seq<Name>, winner: Name)
    requires ReadyToFinish(w, board, winner)
    ensures MembersFine(FinishElection(w, board, winner).members)
  {
    FinishTables(w, board, winner);
    hide Counts, FinishElection;
    var w' := FinishElection(w, board, winner);
    assert forall m | m in w.members :: w'.members[m].active == w.members[m].active;
    ActivesSame(w.members, w'.members);
  }

  lemma FinishShape(w: World, board: seq<Name>, winner: Name)
    requires AllIn(board, w.members) && winner in w.members
    ensures var w' := FinishElection(w, board, winner);
      && w'.stage == Waiting && w'.lead == winner && w'.board == board
      && w'.events == w.events + (if |w.ranks| > 0 then [EndSeeding] else []) + FinalEvents(|w.ranks|, winner, board)
  {
  }

  lemma FinishParse(events: seq<Event>, round: nat, winner: Name, board: seq<Name>)
    requires var p := ParseAll(events); p.Open? && p.round == round && !p.voting && p.groups == 1
    ensures ParseAll(events + (if round > 0 then [EndSeeding] else []) + FinalEvents(round, winner, board)) == Idle
  {
    hide ParseAll;
    var e0 := events + if round > 0 then [EndSeeding] else [];
    if round > 0 {
      ParseOne(events, EndSeeding);
    } else {
      assert e0 == events;
    }
    var e1 := e0 + [EndRoundVoting(round)];
    ParseOne(e0, EndRoundVoting(round));
    var report := ReportGroup(round, winner, NoVotes(board));
    var e2 := e1 + [report];
    ParseOne(e1, report);
    var e3 := e2 + [EndRound(round)];
    ParseOne(e2, EndRound(round));
    var e4 := e3 + [EndElection];
    ParseOne(e3, EndElection);
    ParseOne(e4, Schedule);
    assert e4 + [Schedule] == e0 + FinalEvents(round, winner, board);
  }

  lemma FinalReady(w: World, winner: Name)
    requires VotersOk(w) && MembersFine(w.members) && RepsOk(w) && Counts(w.members, Settled(w), w.ranks) && RoundsOk(w)
    requires w.stage.Final? && winner in w.stage.order
    ensures ReadyToFinish(w, w.stage.order, winner)
    ensures AllIn(w.stage.order, w.members)
  {
    hide Counts;
    var board := w.stage.order;
    forall i | 0 <= i < |board| ensures board[i] in w.members {
      assert IsVoter(w.stage, board[i]);
    }
    forall m | m in board ensures m in w.members && w.members[m].active {
      assert IsVoter(w.stage, m);
    }
    assert Settled(w) == Others(w, board);
    forall m | m in w.members && m !in board && w.members[m].Represented()
      ensures RepAbove(w, m)
    {
      assert m in Settled(w);
    }
  }

  /** The voters of the final round become the board. */
  lemma FinalKeeps(w: World, winner: Name)
    requires Inv(w) && w.stage.Final? && winner in w.stage.order
    ensures AllIn(w.stage.order, w.members) && |w.stage.order| < 12
    ensures Inv(FinishElection(w, w.stage.order, winner))
    ensures Elected(FinishElection(w, w.stage.order, winner))
  {
    FinalReady(w, winner);
    hide ReadyToFinish, FinishElection;
    var board := w.stage.order;
    FinishKeeps(w, board, winner);
  }
}
