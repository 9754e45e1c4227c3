/** The election as the contract runs it: loops over the tables of members and votes that can stop
    after any number of steps (contracts/eden/src/elections.cpp). */
module ElectionEngine {
  import opened Basics
  import opened Members
  import opened Shuffle
  import opened GroupVote
  import opened ElectionConfig
  import opened GroupIndex
  import opened ElectionModel
  import opened ElectionTrace
  import opened ElectionInvariant
  import opened ElectionRun
  import opened VoteIndex
  import Refunds

  datatype ElectionState =
    | RegistrationState
    | SeedingState(version: nat)
    | InitVotersState(version: nat, seed: Seed, nextMemberIdx: nat, lastProcessed: Name, nextReportIndex: nat)
    | ActiveState(round: nat, config: RoundConfig)
    | PostRoundState(seed: Seed, prevRound: nat, prevConfig: RoundConfig, nextInputIndex: nat, nextOutputIndex: nat, nextReportIndex: nat)
    | FinalState

  // ---------------------------------------------------------------------------------------------
  // The tables and their sorted views
  // ---------------------------------------------------------------------------------------------

  ghost predicate Tie(state: ElectionState, votes: VoteTable, ballots: seq<Ballot>, order: seq<Name>, finalRound: nat) {
    match state
    case RegistrationState => votes == map[] && ballots == [] && order == []
    case SeedingState(_) => votes == map[] && ballots == [] && order == []
    case InitVotersState(_, _, next, _, _) =>
      Fresh(votes, 0, order) && InRounds(votes, 0, 0) && next == |order| && ballots == []
    case ActiveState(round, _) => Rows(votes, round, 0, ballots) && InRounds(votes, round, round) && order == []
    case PostRoundState(_, round, _, input, output, _) =>
      && Rows(votes, round, input, ballots) && Fresh(votes, round + 1, order)
      && InRounds(votes, round, round + 1) && output == |order|
    case FinalState => Fresh(votes, finalRound, order) && InRounds(votes, finalRound, finalRound) && ballots == []
  }

  ghost function StageOf(state: ElectionState, ballots: seq<Ballot>, order: seq<Name>, finalRound: nat): Stage {
    match state
    case RegistrationState => Waiting
    case SeedingState(version) => Seeding(version)
    case InitVotersState(version, seed, _, last, reported) => InitVoters(version, last, seed, order, reported)
    case ActiveState(round, config) => Voting(round, config, ballots)
    case PostRoundState(seed, round, config, input, _, reported) => PostRound(round, config, seed, input, ballots, order, reported)
    case FinalState => Final(finalRound, order)
  }

  lemma VoterIsNew(w: World, votes: VoteTable, m: Name)
    requires Inv(w) && w.stage.InitVoters? && m > w.stage.last
    requires Fresh(votes, 0, w.stage.order) && InRounds(votes, 0, 0)
    ensures m !in votes
  {
    VoterIndex(votes, 0, 0, w.stage.order, m);
  }

  lemma AddedInRounds(votes: VoteTable, r: VoteTable, voter: Name)
    requires InRounds(votes, 0, 0) && r.Keys == votes.Keys + {voter} && r[voter].round == 0
    requires forall m | m in votes && votes[m].round == 0 :: r[m].round == 0
    ensures InRounds(r, 0, 0)
  {
  }

  // ---------------------------------------------------------------------------------------------
  // Reporting groups
  // ---------------------------------------------------------------------------------------------

  /** The events that open a round are on record before its first group is. */
  function Opened(w: World, opening: seq<Event>): World
    requires w.stage.InitVoters? || w.stage.PostRound?
  {
    if w.stage.reported == 0 then w.(events := w.events + opening) else w
  }

  function FirstOpening(n: nat): seq<Event>
    requires n > 0
  {
    [ConfigSummary(|PlanFor(n)|, n), RoundEvent(0, n)]
  }

  function NextOpening(round: nat, n: nat): seq<Event>
    requires n > 0
  {
    [EndRound(round), RoundEvent(round + 1, n)]
  }

  /** The next group has the size that the loop computes. */
  lemma NextGroupSize(order: seq<Name>, reported: nat, p: Parse, round: nat)
    requires 0 < |order| < WIDTH16 && reported < |order|
    requires reported == 0 || CreatingOk(p, round, |order|, reported)
    ensures var c := FirstConfig(|order|);
      Storable(c) && 0 < WalkSize(c, reported) == GroupSize(c, reported, |order| - reported) <= |order| - reported
  {
    var n := |order|;
    FirstConfigFacts(n);
    FirstConfigShape(n);
    hide FirstConfig, Rounds;
    var c := FirstConfig(n);
    if reported == 0 {
      BoundaryAtStart(c);
      NextBoundary(c, 0, 0);
    } else {
      NextBoundary(c, reported, p.created);
    }
  }

  lemma FirstGroupSize(w: World)
    requires Inv(w) && w.stage.InitVoters? && w.stage.reported < |w.stage.order|
    ensures var n, reported := |w.stage.order|, w.stage.reported;
      && n < WIDTH16 && Storable(FirstConfig(n))
      && 0 < WalkSize(FirstConfig(n), reported) == GroupSize(FirstConfig(n), reported, n - reported) <= n - reported
  {
    ParticipantsFit(w);
    hide FirstConfig, CreatingOk, Counts, MembersFine, VotersOk;
    NextGroupSize(w.stage.order, w.stage.reported, ParseAll(w.events), 0);
  }

  lemma NextRoundGroupSize(w: World)
    requires Inv(w) && w.stage.PostRound? && w.stage.reported < |w.stage.order|
    ensures var n, reported := |w.stage.order|, w.stage.reported;
      && n < WIDTH16 && Storable(FirstConfig(n))
      && 0 < WalkSize(FirstConfig(n), reported) == GroupSize(FirstConfig(n), reported, n - reported) <= n - reported
  {
    ParticipantsFit(w);
    hide FirstConfig, CreatingOk, Counts, MembersFine, VotersOk;
    NextGroupSize(w.stage.order, w.stage.reported, ParseAll(w.events), w.stage.round + 1);
  }

  /** Reads the members of a group from the index. */
  method GroupVoters(votes: VoteTable, round: nat, first: nat, size: nat, ghost order: seq<Name>) returns (voters: seq<Name>)
    requires Narrow(votes) && Indexed(votes, round, 0, order) && first + size <= |order| < INDEX_SPAN
    ensures voters == order[first..first + size]
  {
    hide Indexed, Narrow, IsLowerBound, Key;
    voters := [];
    for i := 0 to size
      invariant voters == order[first..first + i]
    {
      var row := LowerBound(votes, round * INDEX_SPAN + 0 + (first + i));
      LowerBoundIs(votes, round, 0, order, first + i, row);
      voters := voters + [row.value];
    }
  }

  // ---------------------------------------------------------------------------------------------
  // The engine
  // ---------------------------------------------------------------------------------------------

  class Engine {
    var members: MemberTable
    var ranks: seq<nat>
    var votes: VoteTable
    var state: ElectionState
    var lead: Name
    var board: seq<Name>
    var events: seq<Event>

    /** The views of the table of votes, in the order of its secondary index. */
    ghost var ballots: seq<Ballot>
    ghost var order: seq<Name>

    ghost function View(): World
      reads this
    {
      World(members, ranks, StageOf(state, ballots, order, |ranks|), lead, board, events)
    }

    ghost predicate Tied()
      reads this
    {
      Tie(state, votes, ballots, order, |ranks|)
    }

    ghost predicate Valid()
      reads this
    {
      Tied() && Inv(View())
    }

    constructor ()
      ensures Valid() && View() == NOTHING
    {
      members, ranks, votes, state, lead, board, events := map[], [], map[], RegistrationState, 0, [], [];
      ballots, order := [], [];
      new;
      assert Settled(NOTHING) == {};
      assert Actives(map[]) == {};
      assert Inv(NOTHING);
    }

    // -------------------------------------------------------------------------------------------
    // Ranks
    // -------------------------------------------------------------------------------------------

    method SetRank(m: Name, rank: nat, rep: Name)
      requires m in members
      modifies this`members, this`ranks
      ensures members == WithRank(old(members), m, rank, rep)
      ensures ranks == CountRank(old(ranks), rank, rep)
      ensures members.Keys == old(members).Keys
    {
      members := members[m := members[m].(rank := rank, rep := rep, participation := 0)];
      if rep != NOBODY {
        if |ranks| <= rank {
          ranks := ranks + seq(rank + 1 - |ranks|, i => 0);
        }
        ranks := ranks[rank := ranks[rank] + 1];
      }
    }

    /** set_rank for every listed member except the representative. */
    method SetRanks(ms: seq<Name>, rank: nat, rep: Name)
      requires AllIn(ms, members)
      modifies this`members, this`ranks
      ensures (members, ranks) == Settle(old(members), old(ranks), ms, rank, rep)
    {
      hide WithRank, CountRank;
      for i := 0 to |ms|
        invariant members.Keys == old(members).Keys
        invariant (members, ranks) == Settle(old(members), old(ranks), ms[..i], rank, rep)
      {
        assert ms[..i + 1][..i] == ms[..i];
        if ms[i] != rep {
          SetRank(ms[i], rank, rep);
        }
      }
      assert ms[..|ms|] == ms;
    }

    // -------------------------------------------------------------------------------------------
    // Collecting voters
    // -------------------------------------------------------------------------------------------

    /** add_voter for the first round. */
    method AddFirstVoter(m: Name, pos: nat)
      requires state.InitVotersState? && Tied() && m !in votes && pos <= |order|
      modifies this`votes, this`order, this`state
      ensures state == InitVotersState(old(state).version, old(state).seed, old(state).nextMemberIdx + 1,
                                       old(state).lastProcessed, old(state).nextReportIndex)
      ensures order == Insert(old(order), m, pos) && Tied()
    {
      hide Indexed, Insert;
      var s := state;
      var r := AddVoter(votes, 0, s.nextMemberIdx, m, pos, order);
      FreshWithVoter(votes, r, 0, order, m, pos);
      AddedInRounds(votes, r, m);
      hide Fresh, InRounds;
      votes := r;
      order := Insert(order, m, pos);
      state := InitVotersState(s.version, s.seed, s.nextMemberIdx + 1, s.lastProcessed, s.nextReportIndex);
    }

    /** A participant becomes a voter. */
    method Include(m: Name)
      requires Tied() && state.InitVotersState? && m !in votes
      requires m in members && members[m].active && members[m].participation == state.version
      modifies this`votes, this`order, this`state
      ensures Tied() && state.InitVotersState?
      ensures View() == ProcessMember(old(View()), m)
    {
      hide Fresh, InRounds, Insert, Draw;
      AddFirstVoter(m, Draw(state.seed, state.nextMemberIdx));
      state := InitVotersState(state.version, state.seed, state.nextMemberIdx, m, state.nextReportIndex);
    }

    /** An active member who does not participate loses the rank. */
    method Exclude(m: Name)
      requires Tied() && state.InitVotersState? && m in members
      requires members[m].active ==> members[m].participation != state.version
      modifies this`members, this`ranks, this`state
      ensures Tied() && state.InitVotersState?
      ensures View() == ProcessMember(old(View()), m)
    {
      hide Fresh, InRounds, Insert, Draw, CountRank, WithRank;
      if members[m].active {
        SetRank(m, 0, NOBODY);
      }
      state := InitVotersState(state.version, state.seed, state.nextMemberIdx, m, state.nextReportIndex);
    }

    /** One iteration of randomize_voters. */
    method ProcessOne(m: Name)
      requires Valid() && state.InitVotersState? && IsNext(members, state.lastProcessed, m)
      modifies this
      ensures Valid() && state.InitVotersState?
      ensures View() == ProcessMember(old(View()), m)
    {
      ProcessMemberKeeps(View(), m);
      VoterIsNew(View(), votes, m);
      hide Inv, Fresh, InRounds, ProcessMember;
      if members[m].active && members[m].participation == state.version {
        Include(m);
      } else {
        Exclude(m);
      }
    }

    /** Stops at the end of the table or of the budget. */
    method RandomizeVoters(maxSteps: nat) returns (left: nat)
      requires Valid() && state.InitVotersState?
      modifies this
      ensures Valid() && state.InitVotersState? && left <= maxSteps
      ensures View() == Steps(old(View()), maxSteps - left)
      ensures Busy(old(View()), maxSteps - left)
      ensures left > 0 ==> !MoreMembers(View())
    {
      hide Tie, Inv, ProcessMember, Step, Busy;
      NotBusy(View());
      left := maxSteps;
      while left > 0 && exists m :: m in members && m > state.lastProcessed
        invariant Valid() && state.InitVotersState? && left <= maxSteps
        invariant View() == Steps(old(View()), maxSteps - left) && Busy(old(View()), maxSteps - left)
      {
        BusyMore(old(View()), maxSteps - left);
        NextExists(members, state.lastProcessed);
        var m :| m in members && IsNext(members, state.lastProcessed, m);
        StepProcesses(View(), m);
        StepsOneMore(old(View()), maxSteps - left);
        ProcessOne(m);
        left := left - 1;
      }
    }

    // -------------------------------------------------------------------------------------------
    // Reporting the groups of the first round
    // -------------------------------------------------------------------------------------------

    /** One iteration of the loop that reports groups; `w` is the state before the opening events
        and the group. */
    method ReportFirstGroup(config: RoundConfig, ghost w: World)
      requires Tied() && state.InitVotersState? && 0 < |order| < WIDTH16 && config == FirstConfig(|order|)
      requires w.stage.InitVoters? && w.stage.order == order && w.stage.reported < |order|
      requires View() == Opened(w, FirstOpening(|order|))
      requires Storable(config)
      requires 0 < WalkSize(config, w.stage.reported) == GroupSize(config, w.stage.reported, |order| - w.stage.reported)
      modifies this`events, this`state
      ensures Tied() && state.InitVotersState?
      ensures View() == ReportFirst(w)
    {
      hide FirstConfig, PlanFor, Indexed;
      var next := state.nextReportIndex;
      var size := config.GroupMinSize() + if next < config.NumLargeGroups() * config.GroupMaxSize() then 1 else 0;
      FirstRoundNarrow(votes, order);
      var voters := GroupVoters(votes, 0, next, size, order);
      hide Fresh, InRounds, WalkSize, GroupSize;
      events := events + [CreateGroup(0, voters)];
      state := InitVotersState(state.version, state.seed, state.nextMemberIdx, state.lastProcessed, next + size);
    }

    ghost predicate Started(w: World) {
      (w.stage.InitVoters? || w.stage.PostRound?) && w.stage.reported > 0
    }

    /** Between two iterations of the loop: the groups before `row` are reported. */
    ghost predicate ReportingFirst(w: World, row: Option<Name>)
      reads this
    {
      && Tied() && state.InitVotersState?
      && Inv(w) && w.stage.InitVoters? && w.stage.order == order && !MoreMembers(w)
      && 0 < |order| < WIDTH16 && w.stage.reported <= |order|
      && (row.Some? <==> w.stage.reported < |order|)
      && View() == Opened(w, FirstOpening(|order|))
    }

    /** make_election_config; it never fails. */
    method Plan(numParticipants: nat) returns (configs: seq<RoundConfig>)
      requires numParticipants < WIDTH16
      ensures configs == PlanFor(numParticipants)
    {
      hide PlanFor;
      var r := MakeElectionConfig(numParticipants);
      configs := r.value;
    }

    method OpenFirstRound() returns (row: Option<Name>, config: RoundConfig)
      requires Valid() && state.InitVotersState? && |order| > 0 && !MoreMembers(View())
      modifies this`events
      ensures ReportingFirst(old(View()), row) && config == FirstConfig(|order|)
    {
      InitFacts(View());
      hide Inv, PlanFor, MoreMembers, Fresh, InRounds, Key;
      var configs := Plan(state.nextMemberIdx);
      PlanLength(|order|);
      config := configs[0];
      if state.nextReportIndex == 0 {
        events := events + [ConfigSummary(|configs|, configs[0].participants),
                            CreateRound(0, |configs| > 1, configs[0].participants, configs[0].groups)];
      }
      row := LowerBound(votes, state.nextReportIndex);
      RowAhead(votes, 0, order, state.nextReportIndex, row);
    }

    method NextFirstGroup(config: RoundConfig, row: Option<Name>, ghost w: World) returns (next: Option<Name>)
      requires ReportingFirst(w, row) && row.Some? && config == FirstConfig(|order|)
      modifies this`events, this`state
      ensures ReportingFirst(Step(w), next) && Started(Step(w))
    {
      FirstGroupSize(w);
      StepReportsFirst(w);
      hide Inv, FirstConfig, PlanFor, MoreMembers, Step, ReportFirst, WalkSize, GroupSize, Fresh, InRounds, Key;
      ReportFirstGroup(config, w);
      next := LowerBound(votes, state.nextReportIndex);
      RowAhead(votes, 0, order, state.nextReportIndex, next);
    }

    /** The loop that reports the groups of the first round. */
    method ReportFirstGroups(maxSteps: nat) returns (left: nat)
      requires Valid() && state.InitVotersState? && |order| > 0 && !MoreMembers(View())
      modifies this`events, this`state
      ensures Valid() && state.InitVotersState? && left <= maxSteps && !MoreMembers(View())
      ensures View() == Steps(old(View()), maxSteps - left)
      ensures Busy(old(View()), maxSteps - left)
      ensures left > 0 ==> View().stage.reported == |order|
    {
      hide ReportingFirst, Step, FirstConfig, Inv, Tie, MoreMembers, Busy;
      left := maxSteps;
      NotBusy(View());
      if left == 0 {
        return;
      }
      ghost var w := View();
      var row, config := OpenFirstRound();
      while left > 0 && row.Some?
        invariant left <= maxSteps && ReportingFirst(w, row)
        invariant w == Steps(old(View()), maxSteps - left) && (left < maxSteps ==> Started(w))
        invariant Busy(old(View()), maxSteps - left)
      {
        HasVoters(w, row);
        BusyMore(old(View()), maxSteps - left);
        StepsOneMore(old(View()), maxSteps - left);
        row := NextFirstGroup(config, row, w);
        w := Step(w);
        left := left - 1;
      }
      ReportingDone(w, row);
    }

    lemma HasVoters(w: World, row: Option<Name>)
      requires ReportingFirst(w, row) || ReportingNext(w, row)
      ensures CanStep(w)
    {
    }

    lemma ReportingDone(w: World, row: Option<Name>)
      requires ReportingFirst(w, row) && (Started(w) || row.None?)
      ensures Valid() && state.InitVotersState? && View() == w && !MoreMembers(w)
      ensures row.None? ==> w.stage.reported == |order|
    {
    }

    // -------------------------------------------------------------------------------------------
    // Finishing an election
    // -------------------------------------------------------------------------------------------

    /** Empties the table of votes; more than 11 members or none are refused. */
    method ExtractBoard(ghost round: nat) returns (r: seq<Name>, ok: bool)
      requires Fresh(votes, round, order) && InRounds(votes, round, round) && |order| < INDEX_SPAN
      modifies this`votes
      ensures ok <==> 0 < |order| < 12
      ensures ok ==> r == order && votes == map[]
    {
      hide Key, IsLowerBound, Fresh, InRounds, Remaining;
      r := [];
      RemainingAll(votes, round, order);
      var row := LowerBound(votes, 0);
      RemainingRow(votes, round, order, 0, row);
      while row.Some?
        invariant r <= order && |r| < 12
        invariant Remaining(votes, round, order, |r|)
        invariant row == if |r| < |order| then Some(order[|r|]) else None
        decreases |order| - |r|
      {
        r := r + [row.value];
        if |r| >= 12 {
          return r, false;
        }
        RemainingErase(votes, round, order, |r| - 1);
        votes := votes - {row.value};
        row := LowerBound(votes, 0);
        RemainingRow(votes, round, order, |r|, row);
      }
      ok := |r| > 0;
      NothingRemains(votes, round, order);
      assert r == order;
    }

    /** finish_election, after the votes are gone; the budget is distributed in Treasury.dfy. */
    method CloseElection(elected: seq<Name>, winner: Name, ghost w: World)
      requires AllIn(elected, members) && winner in members && votes == map[]
      requires w == World(members, ranks, w.stage, lead, board, events)
      modifies this
      ensures Tied() && View() == FinishElection(w, elected, winner) && state.RegistrationState?
    {
      hide WithRank, CountRank, Settle, FinishElection;
      var round := |ranks|;
      FinishIs(w, elected, winner);
      SetRanks(elected, round, winner);
      SettledKeys(old(members), old(ranks), elected, round, winner);
      SetRank(winner, round + 1, winner);
      lead, board := winner, elected;
      if round > 0 {
        events := events + [EndSeeding];
      }
      events := events + [EndRoundVoting(round), ReportGroup(round, winner, NoVotes(elected)), EndRound(round), EndElection, Schedule];
      state := RegistrationState;
      ballots, order := [], [];
    }

    /** An election with a single group ends at once. */
    method EndAtOnce()
      requires Tied() && state.InitVotersState? && 0 < |order| < 12 && AllIn(order, members)
      modifies this
      ensures Tied() && View() == FinishElection(old(View()), old(order), old(order)[0]) && state.RegistrationState?
    {
      hide Fresh, InRounds, FinishElection;
      ghost var w := View();
      var elected, ok := ExtractBoard(0);
      assert ok;
      CloseElection(elected, elected[0], w);
    }

    method OpenFirstVoting(config: RoundConfig)
      requires Tied() && state.InitVotersState?
      modifies this`state, this`ballots, this`order
      ensures Tied() && View() == old(View()).(stage := Voting(0, config, NoVotes(old(order)))) && state.ActiveState?
    {
      FreshRows(votes, 0, order);
      hide Rows, Fresh, InRounds;
      state := ActiveState(0, config);
      ballots, order := NoVotes(order), [];
    }

    /** The first round opens, or an election with a single group ends. */
    method BeginFirstRound(configs: seq<RoundConfig>)
      requires Valid() && state.InitVotersState? && state.nextReportIndex == |order| > 0 && !MoreMembers(View())
      requires configs == PlanFor(|order|) && |configs| > 0
      modifies this
      ensures Valid() && View() == Step(old(View())) && !state.InitVotersState? && !state.PostRoundState?
    {
      hide Inv, PlanFor, MoreMembers, Step, FinishElection, Fresh, InRounds, Rows;
      StepBegins(View());
      events := events + [BeginRoundVoting(0)];
      if |configs| == 1 {
        EndAtOnce();
      } else {
        OpenFirstVoting(configs[0]);
      }
    }

    // -------------------------------------------------------------------------------------------
    // The actions
    // -------------------------------------------------------------------------------------------

    /** start_election; clear_ranks empties the statistics. */
    method StartElection(newSeed: Seed)
      requires Valid() && state.SeedingState?
      modifies this
      ensures Valid() && View() == Start(old(View()), newSeed)
      ensures state.InitVotersState?
    {
      StartKeeps(View(), newSeed);
      hide Inv;
      events := events + [EndSeeding];
      state := InitVotersState(state.version, newSeed, 0, 0, 0);
      ranks := [];
    }

    /** The loops of prepare_election once the monthly distribution is done. An election without
        voters is refused. */
    method CollectAndReport(maxSteps: nat) returns (left: nat, ok: bool)
      requires Valid() && state.InitVotersState?
      modifies this
      ensures Valid() && left <= maxSteps
      ensures View() == Steps(old(View()), maxSteps - left) && UsesBudget(old(View()), maxSteps, left)
      ensures ok <==> !NoVoters(old(View()), maxSteps)
    {
      hide Inv, MoreMembers, Step, PlanFor, Steps, Busy, CanStep, NoVoters;
      left := RandomizeVoters(maxSteps);
      ok := true;
      if left > 0 {
        if state.nextMemberIdx == 0 {
          NobodyTakesPart();
          VotersDecide(old(View()), maxSteps, left);
          return left, false;
        }
        InitFacts(View());
        var configs := Plan(state.nextMemberIdx);
        ghost var w, used := View(), maxSteps - left;
        var budget := left;
        left := ReportFirstGroups(left);
        StepsSplit(old(View()), used, budget - left);
        BusyBoth(old(View()), used, budget - left);
        if left > 0 {
          StepsOneMore(old(View()), used + (budget - left));
          PlanLength(|order|);
          VotersLeft();
          BusyMore(old(View()), used + (budget - left));
          BeginFirstRound(configs);
          left := left - 1;
          Opens(View());
        }
      }
      VotersDecide(old(View()), maxSteps, left);
    }

    lemma NobodyTakesPart()
      requires Tied() && state.InitVotersState? && state.nextMemberIdx == 0 && !MoreMembers(View())
      ensures !CanStep(View())
    {
    }

    lemma VotersLeft()
      requires (state.InitVotersState? || state.PostRoundState?) && |order| > 0
      ensures CanStep(View())
    {
    }

    method Restore(m: MemberTable, r: seq<nat>, v: VoteTable, s: ElectionState, l: Name, b: seq<Name>, e: seq<Event>,
                   ghost bs: seq<Ballot>, ghost o: seq<Name>)
      modifies this
      ensures (members, ranks, votes, state, lead, board, events) == (m, r, v, s, l, b, e)
      ensures ballots == bs && order == o
    {
      members, ranks, votes, state, lead, board, events := m, r, v, s, l, b, e;
      ballots, order := bs, o;
    }

    /** prepare_election; the monthly distribution uses `paid` of the steps first. A refused call
        leaves everything as it was. */
    method PrepareElection(maxSteps: nat, paid: nat, newSeed: Seed) returns (left: nat, ok: bool)
      requires Valid()
      modifies this
      ensures Valid() && left <= maxSteps
      ensures !ok ==> View() == old(View())
      ensures !Preparing(old(state)) || (old(state).SeedingState? && maxSteps == 0) ==> ok && left == maxSteps && View() == old(View())
      ensures Preparing(old(state)) && (old(state).SeedingState? ==> maxSteps > 0) ==>
        var w := if old(state).SeedingState? then Start(old(View()), newSeed) else old(View());
        var budget := Minus(if old(state).SeedingState? then maxSteps - 1 else maxSteps, paid);
        && (ok <==> !NoVoters(w, budget))
        && (ok ==> left <= budget && View() == Steps(w, budget - left) && UsesBudget(w, budget, left))
    {
      hide Inv, Step, Steps, Tie, Busy, CanStep, NoVoters;
      left, ok := maxSteps, true;
      var m, r, v, s, l, b, e := members, ranks, votes, state, lead, board, events;
      ghost var bs, o := ballots, order;
      if state.SeedingState? {
        if left == 0 {
          return;
        }
        StartElection(newSeed);
        left := left - 1;
      }
      if state.InitVotersState? {
        left := Minus(left, paid);
        if left == 0 {
          NoSteps(View());
          NotBusy(View());
          VotersDecide(View(), 0, 0);
          return;
        }
        left, ok := CollectAndReport(left);
        if !ok {
          Restore(m, r, v, s, l, b, e, bs, o);
        }
      }
    }

    predicate Preparing(s: ElectionState) {
      s.SeedingState? || s.InitVotersState?
    }

    // -------------------------------------------------------------------------------------------
    // Finishing a round
    // -------------------------------------------------------------------------------------------

    /** Reads and erases the rows of the next group. */
    method TakeGroup(size: nat) returns (group: seq<Ballot>)
      requires Tied() && state.PostRoundState? && size <= |ballots|
      requires |order| < INDEX_SPAN && state.nextInputIndex + |ballots| < INDEX_SPAN
      modifies this`votes, this`ballots, this`state
      ensures group == old(ballots)[..size] && ballots == old(ballots)[size..]
      ensures state == old(PostRoundState(state.seed, state.prevRound, state.prevConfig, state.nextInputIndex + size,
                                          state.nextOutputIndex, state.nextReportIndex))
      ensures Tied()
    {
      hide Rows, Fresh, InRounds, Key, IsLowerBound;
      var s := state;
      group := [];
      var i := 0;
      while i < size
        invariant i <= size && state == s && |old(ballots)| == i + |ballots|
        invariant group == old(ballots)[..i] && ballots == old(ballots)[i..]
        invariant Rows(votes, s.prevRound, s.nextInputIndex + i, ballots)
        invariant Fresh(votes, s.prevRound + 1, order) && InRounds(votes, s.prevRound, s.prevRound + 1)
      {
        var row := LowerBound(votes, s.prevRound * INDEX_SPAN + (s.nextInputIndex + i) + 0);
        FirstBallot(votes, s.prevRound, s.nextInputIndex + i, ballots, order, row);
        group := group + [Ballot(row.value, votes[row.value].candidate)];
        votes := votes - {row.value};
        ballots := ballots[1..];
        i := i + 1;
      }
      state := PostRoundState(s.seed, s.prevRound, s.prevConfig, s.nextInputIndex + size, s.nextOutputIndex, s.nextReportIndex);
    }

    /** add_voter for the next round. */
    method AddNextVoter(m: Name, pos: nat)
      requires state.PostRoundState? && Tied() && m !in votes && pos <= |order|
      modifies this`votes, this`order, this`state
      ensures state == old(PostRoundState(state.seed, state.prevRound, state.prevConfig, state.nextInputIndex,
                                          state.nextOutputIndex + 1, state.nextReportIndex))
      ensures order == Insert(old(order), m, pos) && Tied()
    {
      hide Indexed, Insert, Rows;
      var s := state;
      var r := AddVoter(votes, s.prevRound + 1, s.nextOutputIndex, m, pos, order);
      FreshWithVoter(votes, r, s.prevRound + 1, order, m, pos);
      AddedNext(votes, r, s.prevRound, s.nextInputIndex, ballots, m);
      hide Fresh, InRounds;
      votes := r;
      order := Insert(order, m, pos);
      state := PostRoundState(s.seed, s.prevRound, s.prevConfig, s.nextInputIndex, s.nextOutputIndex + 1, s.nextReportIndex);
    }

    /** The votes of the next group are counted and its rows are gone. */
    method ReportNextGroup() returns (winner: Name, voted: seq<Name>, missing: seq<Name>)
      requires Valid() && state.PostRoundState? && |ballots| > 0
      modifies this`votes, this`ballots, this`state, this`events
      ensures Tied() && state.PostRoundState?
      ensures ballots == AfterGroup(old(View().stage))
      ensures state == old(PostRoundState(state.seed, state.prevRound, state.prevConfig, state.nextInputIndex + |NextGroup(View().stage)|,
                                          state.nextOutputIndex, state.nextReportIndex))
      ensures var group := NextGroup(old(View().stage));
        && |group| > 0 && winner == GroupWinner(group) && voted == Voted(group) && missing == Missing(group)
        && events == old(events) + [ReportGroup(old(state.prevRound), winner, group)]
    {
      hide Inv, Rows, Fresh, InRounds, Voted, Missing, GroupWinner;
      GroupFacts(View());
      var size := state.prevConfig.GroupMinSize()
        + if state.nextInputIndex < state.prevConfig.NumLargeGroups() * state.prevConfig.GroupMaxSize() then 1 else 0;
      var group := TakeGroup(size);
      var best;
      best, voted, missing := CountVotes(group);
      winner := if best.Some? then best.value else Marker(group[0].member);
      WinnerIs(group, best);
      events := events + [ReportGroup(state.prevRound, winner, group)];
    }

    method SettleLosers(voted: seq<Name>, missing: seq<Name>, rank: nat, rep: Name)
      requires AllIn(voted + missing, members)
      modifies this`members, this`ranks
      ensures (members, ranks) == Settle(old(members), old(ranks), voted + missing, rank, rep)
    {
      AllInParts(voted, missing, members);
      SettleMore(members, ranks, voted, missing, rank, rep);
      hide Settle;
      SetRanks(voted, rank, rep);
      SetRanks(missing, rank, rep);
    }

    /** Counts the next group, moves its winner on and settles its losers. */
    method FinishGroup()
      requires Valid() && state.PostRoundState? && |ballots| > 0
      modifies this
      ensures Valid() && state.PostRoundState? && View() == CountGroup(old(View()))
    {
      hide Inv, Rows, Fresh, InRounds, Insert, Settle, Draw, Voted, Missing, GroupWinner, CountGroup, GroupSize, NextGroup, AfterGroup;
      ghost var w := View();
      GroupFacts(w);
      CountGroupIs(w);
      CountGroupKeeps(w);
      var winner, voted, missing := ReportNextGroup();
      if IsAccount(winner) {
        WinnerIsGone(w, votes, state.nextInputIndex);
        AddNextVoter(winner, Draw(state.seed, state.nextOutputIndex));
      }
      SettleLosers(voted, missing, state.prevRound, winner);
    }

    /** The position of the next row of the round that is being counted. */
    method NextInput() returns (more: bool)
      requires Valid() && state.PostRoundState?
      ensures more <==> |ballots| > 0
    {
      hide Inv, Rows, Fresh, InRounds, Key, IsLowerBound;
      PostFacts(View());
      var row := LowerBound(votes, state.prevRound * INDEX_SPAN + state.nextInputIndex + 0);
      InputRow(votes, state.prevRound, state.nextInputIndex, ballots, order, row);
      more := row.Some? && votes[row.value].round == state.prevRound;
    }

    /** The loop over the groups of the finished round. */
    method CountGroups(maxSteps: nat) returns (left: nat)
      requires Valid() && state.PostRoundState?
      modifies this
      ensures Valid() && state.PostRoundState? && left <= maxSteps
      ensures View() == Steps(old(View()), maxSteps - left)
      ensures Busy(old(View()), maxSteps - left)
      ensures left > 0 ==> |ballots| == 0
    {
      hide Inv, Tie, Step, CountGroup, Busy;
      left := maxSteps;
      NotBusy(View());
      var more := NextInput();
      while left > 0 && more
        invariant Valid() && state.PostRoundState? && left <= maxSteps && (more <==> |ballots| > 0)
        invariant View() == Steps(old(View()), maxSteps - left) && Busy(old(View()), maxSteps - left)
      {
        BusyMore(old(View()), maxSteps - left);
        StepCounts(View());
        StepsOneMore(old(View()), maxSteps - left);
        FinishGroup();
        left := left - 1;
        more := NextInput();
      }
    }

    // -------------------------------------------------------------------------------------------
    // Reporting the groups of the next round
    // -------------------------------------------------------------------------------------------

    /** Between two iterations of the loop: the groups before `row` are reported. */
    ghost predicate ReportingNext(w: World, row: Option<Name>)
      reads this
    {
      && Tied() && state.PostRoundState? && |ballots| == 0
      && Inv(w) && w.stage.PostRound? && w.stage.order == order && w.stage.round == state.prevRound
      && 0 < |order| < WIDTH16 && w.stage.reported <= |order|
      && (row.Some? <==> w.stage.reported < |order|)
      && View() == Opened(w, NextOpening(w.stage.round, |order|))
    }

    method ReportedRow() returns (row: Option<Name>)
      requires Tied() && state.PostRoundState? && |ballots| == 0 && |order| < WIDTH16 && state.nextReportIndex <= |order|
      ensures row.Some? <==> state.nextReportIndex < |order|
    {
      hide Fresh, InRounds, Rows, Key, IsLowerBound;
      row := LowerBound(votes, (state.prevRound + 1) * INDEX_SPAN + state.nextReportIndex);
      OnlyNextRound(votes, state.prevRound, state.nextInputIndex);
      RowAhead(votes, state.prevRound + 1, order, state.nextReportIndex, row);
    }

    method OpenNextRound() returns (row: Option<Name>, config: RoundConfig)
      requires Valid() && state.PostRoundState? && |order| > 0 && |ballots| == 0
      modifies this`events
      ensures ReportingNext(old(View()), row) && config == FirstConfig(|order|)
    {
      hide Inv, PlanFor, Fresh, InRounds, Rows;
      PostFacts(View());
      var configs := Plan(state.nextOutputIndex);
      PlanLength(|order|);
      config := configs[0];
      if state.nextReportIndex == 0 {
        events := events + [EndRound(state.prevRound),
                            CreateRound(state.prevRound + 1, |configs| > 1, configs[0].participants, configs[0].groups)];
      }
      row := ReportedRow();
    }

    /** One iteration of the loop that reports groups. */
    method ReportNextRoundGroup(config: RoundConfig, ghost w: World)
      requires Tied() && state.PostRoundState? && |ballots| == 0 && 0 < |order| < WIDTH16 && config == FirstConfig(|order|)
      requires w.stage.PostRound? && w.stage.order == order && w.stage.round == state.prevRound && w.stage.reported < |order|
      requires View() == Opened(w, NextOpening(w.stage.round, |order|))
      requires Storable(config)
      requires 0 < WalkSize(config, w.stage.reported) == GroupSize(config, w.stage.reported, |order| - w.stage.reported)
      modifies this`events, this`state
      ensures Tied() && state.PostRoundState? && state.prevRound == old(state.prevRound)
      ensures View() == ReportNext(w)
    {
      hide FirstConfig, PlanFor, Indexed, Rows;
      var s := state;
      var next := s.nextReportIndex;
      var size := config.GroupMinSize() + if next < config.NumLargeGroups() * config.GroupMaxSize() then 1 else 0;
      OnlyNextRound(votes, s.prevRound, s.nextInputIndex);
      RowsNarrow(votes, s.prevRound + 1, 0, order, s.prevRound + 1, 0, order);
      var voters := GroupVoters(votes, s.prevRound + 1, next, size, order);
      hide Fresh, InRounds, WalkSize, GroupSize;
      events := events + [CreateGroup(s.prevRound + 1, voters)];
      state := PostRoundState(s.seed, s.prevRound, s.prevConfig, s.nextInputIndex, s.nextOutputIndex, next + size);
    }

    method NextRoundGroup(config: RoundConfig, row: Option<Name>, ghost w: World) returns (next: Option<Name>)
      requires ReportingNext(w, row) && row.Some? && config == FirstConfig(|order|)
      modifies this`events, this`state
      ensures ReportingNext(Step(w), next) && Started(Step(w))
    {
      hide Inv, FirstConfig, PlanFor, Step, ReportNext, WalkSize, GroupSize, Fresh, InRounds, Rows;
      NextRoundGroupSize(w);
      StepReportsNext(w);
      ReportNextRoundGroup(config, w);
      next := ReportedRow();
    }

    /** The loop that reports the groups of the next round. */
    method ReportNextGroups(maxSteps: nat) returns (left: nat)
      requires Valid() && state.PostRoundState? && |order| > 0 && |ballots| == 0
      modifies this`events, this`state
      ensures Valid() && state.PostRoundState? && left <= maxSteps
      ensures View() == Steps(old(View()), maxSteps - left)
      ensures Busy(old(View()), maxSteps - left)
      ensures left > 0 ==> View().stage.reported == |order|
    {
      hide ReportingNext, Step, FirstConfig, Inv, Tie, Busy;
      left := maxSteps;
      NotBusy(View());
      if left == 0 {
        return;
      }
      ghost var w := View();
      var row, config := OpenNextRound();
      while left > 0 && row.Some?
        invariant left <= maxSteps && ReportingNext(w, row)
        invariant w == Steps(old(View()), maxSteps - left) && (left < maxSteps ==> Started(w))
        invariant Busy(old(View()), maxSteps - left)
      {
        HasVoters(w, row);
        BusyMore(old(View()), maxSteps - left);
        StepsOneMore(old(View()), maxSteps - left);
        row := NextRoundGroup(config, row, w);
        w := Step(w);
        left := left - 1;
      }
      NextReportingDone(w, row);
    }

    lemma NextReportingDone(w: World, row: Option<Name>)
      requires ReportingNext(w, row) && (Started(w) || row.None?)
      ensures Valid() && state.PostRoundState? && View() == w
      ensures row.None? ==> w.stage.reported == |order|
    {
    }

    method OpenNextVoting(config: RoundConfig)
      requires Tied() && state.PostRoundState? && |ballots| == 0
      modifies this`state, this`ballots, this`order
      ensures Tied() && state.ActiveState?
      ensures View() == old(View()).(stage := Voting(old(state.prevRound) + 1, config, NoVotes(old(order))))
    {
      OnlyNextRound(votes, state.prevRound, state.nextInputIndex);
      FreshRows(votes, state.prevRound + 1, order);
      hide Rows, Fresh, InRounds;
      state := ActiveState(state.prevRound + 1, config);
      ballots, order := NoVotes(order), [];
    }

    method OpenFinal()
      requires Tied() && state.PostRoundState? && |ballots| == 0 && |ranks| == state.prevRound + 1
      modifies this`state, this`events
      ensures Tied() && state.FinalState?
      ensures View() == old(View()).(stage := Final(old(state.prevRound) + 1, order), events := old(events) + [SeedUpdate])
    {
      OnlyNextRound(votes, state.prevRound, state.nextInputIndex);
      hide Rows, Fresh, InRounds;
      state := FinalState;
      events := events + [SeedUpdate];
    }

    /** The next round opens, or the final seeding begins. */
    method BeginNextRound()
      requires Valid() && state.PostRoundState? && |ballots| == 0 && state.nextReportIndex == |order| > 0
      modifies this
      ensures Valid() && View() == Step(old(View())) && !state.PostRoundState? && !state.InitVotersState?
    {
      hide Inv, PlanFor, Step, Fresh, InRounds, Rows;
      StepBeginsNext(View());
      PostFacts(View());
      PlanLength(|order|);
      var configs := Plan(state.nextOutputIndex);
      events := events + [BeginRoundVoting(state.prevRound + 1)];
      if |configs| == 1 {
        OpenFinal();
      } else {
        OpenNextVoting(configs[0]);
      }
    }

    // -------------------------------------------------------------------------------------------
    // finish_round
    // -------------------------------------------------------------------------------------------

    /** A member of the board is drawn. */
    method ChooseLead(draw: nat)
      requires Valid() && state.FinalState?
      modifies this
      ensures Valid() && 0 < |old(order)| < 12 && AllIn(old(order), old(members))
      ensures View() == FinishElection(old(View()), old(order), old(order)[draw % |old(order)|])
      ensures Elected(View())
    {
      hide Inv, Fresh, InRounds, FinishElection, Elected;
      ghost var w := View();
      FinalFacts(w);
      FinalKeeps(w, order[draw % |order|]);
      var elected, ok := ExtractBoard(|ranks|);
      assert ok;
      CloseElection(elected, elected[draw % |elected|], w);
    }

    method CloseRound(newSeed: Seed)
      requires Valid() && state.ActiveState?
      modifies this
      ensures Valid() && state.PostRoundState? && View() == EndVote(old(View()), newSeed)
    {
      hide Inv, Rows;
      EndVoteKeeps(View(), newSeed);
      NoNextRound(votes, state.round);
      hide InRounds, Fresh;
      events := events + [EndRoundVoting(state.round)];
      state := PostRoundState(newSeed, state.round, state.config, 0, 0, 0);
    }

    /** The loops of finish_round. Without any winner there is no next round to prepare. */
    method CountAndReport(maxSteps: nat) returns (left: nat)
      requires Valid() && state.PostRoundState?
      modifies this
      ensures Valid() && left <= maxSteps && !state.InitVotersState?
      ensures View() == Steps(old(View()), maxSteps - left) && UsesBudget(old(View()), maxSteps, left)
    {
      hide Inv, Step, PlanFor, Steps, Fresh, InRounds, Rows, Busy, CanStep;
      left := CountGroups(maxSteps);
      if left > 0 && state.nextOutputIndex > 0 {
        ghost var used, budget := maxSteps - left, left;
        left := ReportNextGroups(left);
        StepsSplit(old(View()), used, budget - left);
        BusyBoth(old(View()), used, budget - left);
        if left > 0 {
          StepsOneMore(old(View()), used + (budget - left));
          VotersLeft();
          BusyMore(old(View()), used + (budget - left));
          BeginNextRound();
          left := left - 1;
          Opens(View());
        }
      } else if left > 0 {
        NobodyWon();
      }
    }

    lemma NobodyWon()
      requires Tied() && state.PostRoundState? && |ballots| == 0 && state.nextOutputIndex == 0
      ensures !CanStep(View())
    {
    }

    predicate Idle(s: ElectionState, votingClosed: bool, finalClosed: bool) {
      match s
      case ActiveState(_, _) => !votingClosed
      case PostRoundState(_, _, _, _, _, _) => false
      case FinalState => !finalClosed
      case _ => true
    }

    /** finish_round; whether the voting period and the final seeding are over depends on the
        clock, the new seed and the draw on hashes. */
    method FinishRound(maxSteps: nat, votingClosed: bool, finalClosed: bool, newSeed: Seed, draw: nat) returns (left: nat)
      requires Valid()
      modifies this
      ensures Valid() && left <= maxSteps
      ensures old(state).ActiveState? && votingClosed ==>
        var w := EndVote(old(View()), newSeed);
        View() == Steps(w, maxSteps - left) && UsesBudget(w, maxSteps, left)
      ensures old(state).PostRoundState? ==>
        View() == Steps(old(View()), maxSteps - left) && UsesBudget(old(View()), maxSteps, left)
      ensures old(state).FinalState? && finalClosed && maxSteps > 0 ==>
        && left == maxSteps - 1 && |old(order)| > 0 && Elected(View())
        && AllIn(old(order), old(members))
        && View() == FinishElection(old(View()), old(order), old(order)[draw % |old(order)|])
      ensures Idle(old(state), votingClosed, finalClosed) || (old(state).FinalState? && maxSteps == 0) ==>
        left == maxSteps && View() == old(View())
    {
      hide Inv, Step, Steps, Tie, FinishElection, Elected, UsesBudget;
      left := maxSteps;
      if state.ActiveState? {
        if !votingClosed {
          return;
        }
        CloseRound(newSeed);
      } else if state.FinalState? {
        if left > 0 && finalClosed {
          ChooseLead(draw);
          left := left - 1;
        }
        return;
      }
      if state.PostRoundState? {
        left := CountAndReport(left);
      }
    }

    // -------------------------------------------------------------------------------------------
    // Members and the schedule
    // -------------------------------------------------------------------------------------------

    /** A new member, or a pending member who becomes active. */
    method Put(m: Name, v: Member)
      requires Valid() && Enabled(View(), Move.Put(m, v))
      modifies this`members
      ensures Valid() && View() == PutMember(old(View()), m, v)
    {
      hide Inv, Tie;
      PutMemberKeeps(View(), m, v);
      members := members[m := v];
    }

    method Drop(m: Name)
      requires Valid() && m in members && !members[m].active
      modifies this`members
      ensures Valid() && View() == DropMember(old(View()), m)
    {
      hide Inv, Tie;
      DropPendingKeeps(View(), m);
      members := members - {m};
    }

    /** erase of an active member while no election is running. */
    method Leave(m: Name)
      requires Valid() && state.RegistrationState? && m in members && members[m].active
      modifies this`members, this`ranks
      ensures old(members[m].Represented()) ==> old(members)[m].rank < |old(ranks)| && old(ranks)[old(members)[m].rank] > 0
      ensures Valid() && View() == ResignMember(old(View()), m)
    {
      hide Inv;
      ResignKeeps(View(), m);
      ranks := UncountRank(ranks, members[m]);
      members := members - {m};
    }

    method Opt(m: Name, participation: nat)
      requires Valid() && state.RegistrationState? && m in members && members[m].active
      modifies this`members
      ensures Valid() && View() == Participate(old(View()), m, participation)
    {
      hide Inv, Tie;
      ParticipateKeeps(View(), m, participation);
      members := members[m := members[m].(participation := participation)];
    }

    method Rename(a: Name, b: Name)
      requires Valid() && Enabled(View(), Move.Rename(a, b))
      modifies this`members, this`lead, this`board
      ensures Valid() && View() == RenameAccount(old(View()), a, b)
    {
      hide Inv, Tie;
      RenameAccountKeeps(View(), a, b);
      members, board := Refunds.Renamed(members, a, b), RenamedBoard(board, a, b);
      if lead == a {
        lead := b;
      }
    }

    method OpenSeeds(version: nat)
      requires Valid() && state.RegistrationState? && version > 0
      modifies this`state, this`events
      ensures Valid() && View() == OpenSeeding(old(View()), version)
    {
      hide Inv;
      OpenSeedingKeeps(View(), version);
      events := events + [Begin, SeedUpdate];
      state := SeedingState(version);
    }

    method AddSeed()
      requires Valid() && (state.SeedingState? || state.FinalState?)
      modifies this`events
      ensures Valid() && View() == UpdateSeed(old(View()))
    {
      hide Inv, Tie;
      UpdateSeedKeeps(View());
      events := events + [SeedUpdate];
    }

    method PutOff()
      requires Valid() && state.RegistrationState?
      modifies this`events
      ensures Valid() && View() == Reschedule(old(View()))
    {
      hide Inv, Tie;
      RescheduleKeeps(View());
      events := events + [Schedule];
    }

    // -------------------------------------------------------------------------------------------
    // Voting
    // -------------------------------------------------------------------------------------------

    /** vote: refused unless the round is open and both are in the same group of it. */
    method CastBallot(round: nat, voter: Name, candidate: Name, periodOpen: bool) returns (ok: bool)
      requires Valid()
      modifies this`votes, this`ballots
      ensures Valid()
      ensures ok <==> periodOpen && MayVote(old(View()), round, voter, candidate)
      ensures !ok ==> View() == old(View())
      ensures ok ==> VoterOf(old(View()), voter) && View() == CastVote(old(View()), IndexOf(old(View()), voter), candidate)
    {
      hide Inv, Rows, CastVote, MemberIndexToGroup, Storable, MayVote, SameGroup;
      ok := false;
      ghost var w := View();
      if periodOpen && state.ActiveState? && state.round == round {
        var inRound := voter in votes && votes[voter].round == round && candidate in votes && votes[candidate].round == round;
        VoteFacts(w, votes, round, voter, candidate);
        if inRound && MemberIndexToGroup(state.config, votes[voter].index) == MemberIndexToGroup(state.config, votes[candidate].index) {
          ghost var i := IndexOf(w, voter);
          VoteInRow(votes, round, ballots, i, candidate);
          CastVoteKeeps(w, i, candidate);
          SameRounds(votes, round, voter, candidate);
          hide InRounds;
          CastVoteIs(w, i, candidate);
          votes := votes[voter := votes[voter].(candidate := candidate)];
          ballots := ballots[i := Ballot(voter, candidate)];
          ok := true;
        }
      } else if periodOpen {
        NotVoting(w, round, voter, candidate);
      }
    }
  }

  // ---------------------------------------------------------------------------------------------
  // Who may vote for whom
  // ---------------------------------------------------------------------------------------------

  predicate VoterOf(w: World, m: Name) {
    w.stage.Voting? && m in MembersOf(w.stage.ballots)
  }

  function IndexOf(w: World, m: Name): (i: nat)
    requires VoterOf(w, m)
    ensures i < |w.stage.ballots| && w.stage.ballots[i].member == m
  {
    Position(MembersOf(w.stage.ballots), m)
  }

  predicate SameGroup(c: RoundConfig, i: nat, j: nat) {
    Storable(c) && i < c.participants && j < c.participants && MemberIndexToGroup(c, i) == MemberIndexToGroup(c, j)
  }

  predicate MayVote(w: World, round: nat, voter: Name, candidate: Name) {
    && VoterOf(w, voter) && VoterOf(w, candidate) && w.stage.round == round
    && SameGroup(w.stage.config, IndexOf(w, voter), IndexOf(w, candidate))
  }

  lemma NotVoting(w: World, round: nat, voter: Name, candidate: Name)
    requires !(w.stage.Voting? && w.stage.round == round)
    ensures !MayVote(w, round, voter, candidate)
  {
  }

  lemma RowOfVoter(w: World, votes: VoteTable, m: Name)
    requires w.stage.Voting? && Rows(votes, w.stage.round, 0, w.stage.ballots)
    ensures VoterOf(w, m) <==> m in votes && votes[m].round == w.stage.round
    ensures VoterOf(w, m) ==> votes[m].index == IndexOf(w, m)
  {
    var order := MembersOf(w.stage.ballots);
    VoterIndex(votes, w.stage.round, 0, order, m);
    IndexedDistinct(votes, w.stage.round, 0, order);
    if VoterOf(w, m) {
      assert order[votes[m].index] == m && order[IndexOf(w, m)] == m;
    }
  }

  /** What the checks of a vote on the table decide. */
  lemma VoteFacts(w: World, votes: VoteTable, round: nat, voter: Name, candidate: Name)
    requires Inv(w) && w.stage.Voting? && w.stage.round == round && Rows(votes, round, 0, w.stage.ballots)
    ensures var inRound := voter in votes && votes[voter].round == round && candidate in votes && votes[candidate].round == round;
      && (inRound <==> VoterOf(w, voter) && VoterOf(w, candidate))
      && (inRound ==> var c := w.stage.config;
           && Storable(c) && votes[voter].index < c.participants && votes[candidate].index < c.participants
           && votes[voter].index == IndexOf(w, voter)
           && (MayVote(w, round, voter, candidate)
               <==> MemberIndexToGroup(c, votes[voter].index) == MemberIndexToGroup(c, votes[candidate].index)))
      && (!inRound ==> !MayVote(w, round, voter, candidate))
  {
    VotingConfig(w);
    hide Inv, Rows, MemberIndexToGroup, Storable;
    RowOfVoter(w, votes, voter);
    RowOfVoter(w, votes, candidate);
  }

  lemma VotingConfig(w: World)
    requires Inv(w) && w.stage.Voting?
    ensures Storable(w.stage.config) && w.stage.config.participants == |w.stage.ballots|
  {
    ParticipantsFit(w);
    FirstConfigFacts(|w.stage.ballots|);
  }

  lemma SameRounds(votes: VoteTable, round: nat, voter: Name, candidate: Name)
    requires InRounds(votes, round, round) && voter in votes
    ensures InRounds(votes[voter := votes[voter].(candidate := candidate)], round, round)
  {
  }

  lemma CastVoteIs(w: World, i: nat, candidate: Name)
    requires w.stage.Voting? && i < |w.stage.ballots|
    ensures CastVote(w, i, candidate)
         == w.(stage := Voting(w.stage.round, w.stage.config, w.stage.ballots[i := Ballot(w.stage.ballots[i].member, candidate)]))
  {
  }

  lemma NoNextRound(votes: VoteTable, round: nat)
    requires InRounds(votes, round, round)
    ensures InRounds(votes, round, round + 1) && Fresh(votes, round + 1, [])
  {
  }

  lemma FinalFacts(w: World)
    requires Inv(w) && w.stage.Final?
    ensures 0 < |w.stage.order| < 12 && AllIn(w.stage.order, w.members) && w.stage.round == |w.ranks|
  {
    OrderInTable(w);
  }

  lemma StepBeginsNext(w: World)
    requires Inv(w) && w.stage.PostRound? && |w.stage.ballots| == 0 && w.stage.reported == |w.stage.order| > 0
    ensures Step(w) == BeginNext(w) && Inv(Step(w)) && |w.ranks| == w.stage.round + 1
  {
    VotersInTable(w);
    BeginNextKeeps(w);
    RanksAfterGroups(w);
    hide Inv, PlanFor;
  }

  lemma RanksAfterGroups(w: World)
    requires Inv(w) && w.stage.PostRound? && |w.stage.ballots| == 0
    ensures |w.ranks| == w.stage.round + 1
  {
  }

  lemma PostFacts(w: World)
    requires Inv(w) && w.stage.PostRound?
    ensures var s := w.stage;
      |s.order| < INDEX_SPAN && s.taken + |s.ballots| < INDEX_SPAN && s.reported <= |s.order|
  {
    ParticipantsFit(w);
  }

  lemma InputRow(votes: VoteTable, round: nat, from: nat, ballots: seq<Ballot>, order: seq<Name>, row: Option<Name>)
    requires Rows(votes, round, from, ballots) && Fresh(votes, round + 1, order) && InRounds(votes, round, round + 1)
    requires from + |ballots| < INDEX_SPAN && |order| < INDEX_SPAN
    requires row.Some? ==> IsLowerBound(votes, round * INDEX_SPAN + from + 0, row.value)
    requires row.None? ==> forall m | m in votes :: Key(votes[m]) < round * INDEX_SPAN + from + 0
    ensures row.Some? ==> row.value in votes
    ensures row.Some? && votes[row.value].round == round <==> |ballots| > 0
  {
    if |ballots| > 0 {
      FirstRow(votes, round, from, ballots, order, row);
    } else {
      RowsNarrow(votes, round, from, MembersOf(ballots), round + 1, 0, order);
      assert MembersOf(ballots) == [];
      hide Key;
      LowerBoundPast(votes, round, from, row);
    }
  }

  lemma OnlyNextRound(votes: VoteTable, round: nat, from: nat)
    requires Rows(votes, round, from, []) && InRounds(votes, round, round + 1)
    ensures InRounds(votes, round + 1, round + 1)
  {
    NobodyLeft(votes, round, from);
  }

  lemma StepCounts(w: World)
    requires Inv(w) && w.stage.PostRound? && |w.stage.ballots| > 0
    ensures AllIn(MembersOf(w.stage.ballots), w.members) && Step(w) == CountGroup(w)
  {
    VotersInTable(w);
    hide Inv, CountGroup;
  }

  lemma StepReportsNext(w: World)
    requires Inv(w) && w.stage.PostRound? && |w.stage.ballots| == 0 && w.stage.reported < |w.stage.order|
    ensures Step(w) == ReportNext(w)
    ensures Inv(ReportNext(w)) && ReportNext(w).stage.PostRound? && ReportNext(w).stage.round == w.stage.round
    ensures ReportNext(w).stage.order == w.stage.order && w.stage.reported < ReportNext(w).stage.reported <= |w.stage.order|
  {
    VotersInTable(w);
    ReportNextKeeps(w);
    ReportedAll(ReportNext(w));
    hide Inv, PlanFor, FirstConfig, GroupSize, GroupEvents;
  }

  lemma AllInParts(a: seq<Name>, b: seq<Name>, members: MemberTable)
    requires AllIn(a + b, members)
    ensures AllIn(a, members) && AllIn(b, members)
  {
    forall i | 0 <= i < |a| ensures a[i] in members {
      assert (a + b)[i] == a[i];
    }
    forall i | 0 <= i < |b| ensures b[i] in members {
      assert (a + b)[|a| + i] == b[i];
    }
  }

  lemma WinnerIs(group: seq<Ballot>, best: Option<Name>)
    requires |group| > 0 && forall c: Name :: best == Some(c) <==> Wins(group, c)
    ensures GroupWinner(group) == if best.Some? then best.value else Marker(group[0].member)
  {
    hide Wins;
    if Winner(group).Some? {
      assert Wins(group, Winner(group).value);
    }
  }

  lemma AddedNext(votes: VoteTable, r: VoteTable, round: nat, from: nat, ballots: seq<Ballot>, voter: Name)
    requires Rows(votes, round, from, ballots) && InRounds(votes, round, round + 1)
    requires voter !in votes && r.Keys == votes.Keys + {voter} && r[voter].round == round + 1
    requires forall m | m in votes && votes[m].round != round + 1 :: r[m] == votes[m]
    requires forall m | m in votes && votes[m].round == round + 1 :: r[m].round == round + 1
    ensures Rows(r, round, from, ballots) && InRounds(r, round, round + 1)
  {
    hide Rows;
    forall m | m in votes && votes[m].round != round ensures r[m].round != round {
    }
    RowsKept(votes, r, round, from, ballots, voter);
  }

  lemma GroupFacts(w: World)
    requires Inv(w) && w.stage.PostRound? && |w.stage.ballots| > 0
    ensures var s := w.stage;
      && |s.order| < INDEX_SPAN && s.taken + |s.ballots| < INDEX_SPAN
      && AllIn(MembersOf(s.ballots), w.members)
      && Storable(s.config) && 4 <= |NextGroup(s)| == WalkSize(s.config, s.taken) <= 11
      && DistinctMembers(NextGroup(s))
  {
    ParticipantsFit(w);
    VotersInTable(w);
    GroupBounds(w);
    WinnerFacts(w);
  }

  /** The rows of the winner's group are erased, and nobody is in two groups. */
  lemma WinnerIsGone(w: World, votes: VoteTable, from: nat)
    requires Inv(w) && w.stage.PostRound? && |w.stage.ballots| > 0 && |NextGroup(w.stage)| > 0
    requires Rows(votes, w.stage.round, from, AfterGroup(w.stage)) && Fresh(votes, w.stage.round + 1, w.stage.order)
    requires InRounds(votes, w.stage.round, w.stage.round + 1)
    requires IsAccount(GroupWinner(NextGroup(w.stage)))
    ensures GroupWinner(NextGroup(w.stage)) !in votes
  {
    hide Rows, Fresh, InRounds, Inv, GroupWinner, NextGroup, AfterGroup, IsAccount;
    WinnerNowhere(w);
    NotInTable(votes, w.stage.round, from, AfterGroup(w.stage), w.stage.order, GroupWinner(NextGroup(w.stage)));
  }

  lemma WinnerNowhere(w: World)
    requires Inv(w) && w.stage.PostRound? && |w.stage.ballots| > 0 && |NextGroup(w.stage)| > 0
    requires IsAccount(GroupWinner(NextGroup(w.stage)))
    ensures var winner := GroupWinner(NextGroup(w.stage));
      winner !in MembersOf(AfterGroup(w.stage)) && winner !in w.stage.order
  {
    WinnerFacts(w);
    MembersSplit(w.stage.ballots, |NextGroup(w.stage)|);
    hide GroupWinner, RoundsOk, RepsOk, Counts, ParseOk;
  }

  lemma NotInTable(votes: VoteTable, round: nat, from: nat, ballots: seq<Ballot>, order: seq<Name>, m: Name)
    requires Rows(votes, round, from, ballots) && Fresh(votes, round + 1, order) && InRounds(votes, round, round + 1)
    requires m !in MembersOf(ballots) && m !in order
    ensures m !in votes
  {
    VoterIndex(votes, round, from, MembersOf(ballots), m);
    VoterIndex(votes, round + 1, 0, order, m);
  }

  lemma {:induction false} SettleMore(members: MemberTable, ranks: seq<nat>, a: seq<Name>, b: seq<Name>, rank: nat, rep: Name)
    requires AllIn(a, members) && AllIn(b, members) && AllIn(a + b, members)
    ensures var s := Settle(members, ranks, a, rank, rep);
      AllIn(b, s.0) && Settle(s.0, s.1, b, rank, rep) == Settle(members, ranks, a + b, rank, rep)
    decreases |b|
  {
    hide WithRank, CountRank;
    var n := |b| - 1;
    if |b| == 0 {
      assert a + b == a;
    } else {
      assert (a + b)[..|a + b| - 1] == a + b[..n] && (a + b)[|a + b| - 1] == b[n];
      assert AllIn(a + b[..n], members);
      SettleMore(members, ranks, a, b[..n], rank, rep);
    }
  }

  lemma FirstBallot(votes: VoteTable, round: nat, from: nat, ballots: seq<Ballot>, order: seq<Name>, row: Option<Name>)
    requires Rows(votes, round, from, ballots) && Fresh(votes, round + 1, order) && InRounds(votes, round, round + 1)
    requires 0 < |ballots| && from + |ballots| < INDEX_SPAN && |order| < INDEX_SPAN
    requires row.Some? ==> IsLowerBound(votes, round * INDEX_SPAN + from + 0, row.value)
    requires row.None? ==> forall m | m in votes :: Key(votes[m]) < round * INDEX_SPAN + from + 0
    ensures row.Some? && row.value in votes && ballots[0] == Ballot(row.value, votes[row.value].candidate)
    ensures var rest := votes - {row.value};
      && Rows(rest, round, from + 1, ballots[1..]) && Fresh(rest, round + 1, order) && InRounds(rest, round, round + 1)
  {
    hide Fresh, Indexed, IsLowerBound, Narrow, Key, InRounds;
    FirstRow(votes, round, from, ballots, order, row);
    assert Holds(votes, ballots[0]);
    hide Rows;
    EraseFirst(votes, round, from, ballots);
    EraseElsewhere(votes, round + 1, order, row.value);
    LessInRounds(votes, round, row.value);
  }

  lemma FirstRow(votes: VoteTable, round: nat, from: nat, ballots: seq<Ballot>, order: seq<Name>, row: Option<Name>)
    requires Rows(votes, round, from, ballots) && Fresh(votes, round + 1, order) && InRounds(votes, round, round + 1)
    requires 0 < |ballots| && from + |ballots| < INDEX_SPAN && |order| < INDEX_SPAN
    requires row.Some? ==> IsLowerBound(votes, round * INDEX_SPAN + from + 0, row.value)
    requires row.None? ==> forall m | m in votes :: Key(votes[m]) < round * INDEX_SPAN + from + 0
    ensures row == Some(ballots[0].member) && row.value in votes && votes[row.value].round == round
  {
    hide Indexed, IsLowerBound, Narrow, Key, InRounds;
    RowsNarrow(votes, round, from, MembersOf(ballots), round + 1, 0, order);
    LowerBoundIs(votes, round, from, MembersOf(ballots), 0, row);
    assert MembersOf(ballots)[0] == ballots[0].member;
  }

  lemma LessInRounds(votes: VoteTable, round: nat, m: Name)
    requires InRounds(votes, round, round + 1)
    ensures InRounds(votes - {m}, round, round + 1)
  {
  }

  /** The rows of one round from an index upwards. */
  ghost predicate Remaining(votes: VoteTable, round: nat, order: seq<Name>, from: nat)
    requires from <= |order|
  {
    Indexed(votes, round, from, order[from..]) && InRounds(votes, round, round)
  }

  lemma RemainingAll(votes: VoteTable, round: nat, order: seq<Name>)
    requires Fresh(votes, round, order) && InRounds(votes, round, round)
    ensures Remaining(votes, round, order, 0)
  {
    assert order[0..] == order;
  }

  lemma RemainingErase(votes: VoteTable, round: nat, order: seq<Name>, from: nat)
    requires from < |order| && Remaining(votes, round, order, from)
    ensures order[from] in votes
    ensures Remaining(votes - {order[from]}, round, order, from + 1)
  {
    assert order[from..][0] == order[from] && order[from..][1..] == order[from + 1..];
    EraseIndexed(votes, round, from, order[from..]);
  }

  lemma RemainingRow(votes: VoteTable, round: nat, order: seq<Name>, from: nat, row: Option<Name>)
    requires from <= |order| < INDEX_SPAN && Remaining(votes, round, order, from)
    requires row.Some? ==> IsLowerBound(votes, 0, row.value)
    requires row.None? ==> forall m | m in votes :: Key(votes[m]) < 0
    ensures row == if from < |order| then Some(order[from]) else None
  {
    if from < |order| {
      var k := order[from];
      assert order[from..][0] == k;
      assert k in votes && votes[k].index == from && votes[k].round == round;
      if row.Some? {
        SmallerKey(votes[row.value], votes[k]);
        assert order[from..][votes[row.value].index - from] == row.value;
      }
    }
  }

  lemma SmallerKey(v: Vote, k: Vote)
    requires v.round == k.round && Key(v) <= Key(k)
    ensures v.index <= k.index
  {
  }

  lemma NothingRemains(votes: VoteTable, round: nat, order: seq<Name>)
    requires Remaining(votes, round, order, |order|)
    ensures votes == map[]
  {
    assert votes.Keys == {};
  }

  lemma FinishIs(w: World, elected: seq<Name>, winner: Name)
    requires AllIn(elected, w.members) && winner in w.members
    ensures var s := Settle(w.members, w.ranks, elected, |w.ranks|, winner);
      FinishElection(w, elected, winner)
        == World(WithRank(s.0, winner, |w.ranks| + 1, winner), CountRank(s.1, |w.ranks| + 1, winner), Waiting, winner, elected,
                 w.events + (if |w.ranks| > 0 then [EndSeeding] else []) + FinalEvents(|w.ranks|, winner, elected))
  {
    hide Settle, WithRank, CountRank;
  }

  lemma SettledKeys(members: MemberTable, ranks: seq<nat>, ms: seq<Name>, rank: nat, rep: Name)
    requires AllIn(ms, members)
    ensures Settle(members, ranks, ms, rank, rep).0.Keys == members.Keys
  {
  }

  lemma StepBegins(w: World)
    requires Inv(w) && w.stage.InitVoters? && w.stage.reported == |w.stage.order| > 0 && !MoreMembers(w)
    ensures AllIn(w.stage.order, w.members) && |w.stage.order| < INDEX_SPAN
    ensures Step(w) == BeginFirst(w) && Inv(Step(w))
    ensures |PlanFor(|w.stage.order|)| == 1 ==> |w.stage.order| < 12
  {
    OrderInTable(w);
    InitFacts(w);
    BeginFirstKeeps(w);
    PlanLength(|w.stage.order|);
    FirstConfigFacts(|w.stage.order|);
    hide Inv, PlanFor, MoreMembers, FinishElection;
  }

  lemma InitFacts(w: World)
    requires Inv(w) && w.stage.InitVoters?
    ensures |w.stage.order| < WIDTH16 && w.stage.reported <= |w.stage.order|
  {
    ParticipantsFit(w);
  }

  lemma RowAhead(votes: VoteTable, round: nat, order: seq<Name>, i: nat, row: Option<Name>)
    requires Fresh(votes, round, order) && InRounds(votes, round, round) && i <= |order| < INDEX_SPAN
    requires row.Some? ==> IsLowerBound(votes, round * INDEX_SPAN + i, row.value)
    requires row.None? ==> forall m | m in votes :: Key(votes[m]) < round * INDEX_SPAN + i
    ensures row.Some? <==> i < |order|
  {
    RowsNarrow(votes, round, 0, order, round, 0, order);
    hide Indexed, IsLowerBound, Narrow, InRounds, Key;
    if i < |order| {
      LowerBoundIs(votes, round, 0, order, i, row);
    } else {
      LowerBoundEnd(votes, round, order, row);
    }
  }

  lemma StepReportsFirst(w: World)
    requires Inv(w) && w.stage.InitVoters? && w.stage.reported < |w.stage.order| && !MoreMembers(w)
    ensures Step(w) == ReportFirst(w)
    ensures Inv(ReportFirst(w)) && ReportFirst(w).stage.InitVoters? && !MoreMembers(ReportFirst(w))
    ensures ReportFirst(w).stage.order == w.stage.order && w.stage.reported < ReportFirst(w).stage.reported <= |w.stage.order|
  {
    OrderInTable(w);
    ReportFirstKeeps(w);
    ReportedAll(ReportFirst(w));
    hide Inv, PlanFor, FirstConfig, GroupSize, GroupEvents;
  }

  lemma FirstRoundNarrow(votes: VoteTable, order: seq<Name>)
    requires InRounds(votes, 0, 0) && Indexed(votes, 0, 0, order) && |order| < INDEX_SPAN
    ensures Narrow(votes)
  {
    RowsNarrow(votes, 0, 0, order, 0, 0, order);
  }

  function Minus(a: nat, b: nat): nat {
    if b <= a then a - b else 0
  }

  lemma NotBusy(w: World)
    ensures Busy(w, 0)
  {
  }

  lemma Opens(w: World)
    requires !w.stage.InitVoters? && !w.stage.PostRound?
    ensures !CanStep(w)
  {
  }

  lemma NoSteps(w: World)
    ensures Steps(w, 0) == w
  {
  }

  lemma StepsOneMore(w: World, n: nat)
    ensures Steps(w, n + 1) == Step(Steps(w, n))
  {
    hide Step;
    StepsSplit(w, n, 1);
    assert Steps(Step(Steps(w, n)), 0) == Step(Steps(w, n));
  }
}
