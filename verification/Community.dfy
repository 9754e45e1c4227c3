/** The whole contract in one run: members, elections and money
    (contracts/eden/src/actions/induct.cpp, contracts/eden/src/actions/elect.cpp,
    contracts/eden/src/actions/accounts.cpp, contracts/eden/src/elections.cpp). */
module Community {
  import opened Members
  import opened GroupVote
  import opened ElectionConfig
  import opened ElectionModel
  import opened ElectionTrace
  import opened ElectionInvariant
  import opened ElectionRun
  import opened ElectionEngine
  import L = Ledger
  import R = Refunds
  import T = Treasury

  // ---------------------------------------------------------------------------------------------
  // What the two parts share
  // ---------------------------------------------------------------------------------------------

  predicate SameRoster(a: MemberTable, b: MemberTable) {
    a.Keys == b.Keys && forall m | m in a :: a[m].active == b[m].active
  }

  /** The same but for the participation in the next election, which does not concern the money. */
  predicate SameStandings(a: MemberTable, b: MemberTable) {
    SameRoster(a, b) && forall m | m in a :: a[m].rank == b[m].rank && a[m].rep == b[m].rep
  }

  predicate Running(s: Stage) {
    s.InitVoters? || s.Voting? || s.PostRound? || s.Final?
  }

  /** How far the election is, as the money sees it: while distributions are still paid nobody is ranked yet. */
  predicate Stages(phase: L.Phase, s: Stage) {
    match phase
    case Scheduled(_, version, seeding) => version > 0 && (if seeding then s.Seeding? else s.Waiting?)
    case Distributing => s.InitVoters?
    case Ranking => Running(s)
  }

  // ---------------------------------------------------------------------------------------------
  // Elections keep the roster
  // ---------------------------------------------------------------------------------------------

  lemma {:induction false} SettleRoster(members: MemberTable, ranks: seq<nat>, ms: seq<Name>, rank: nat, rep: Name)
    requires AllIn(ms, members)
    ensures SameRoster(members, Settle(members, ranks, ms, rank, rep).0)
    decreases |ms|
  {
    hide CountRank;
    if |ms| > 0 {
      SettleRoster(members, ranks, ms[..|ms| - 1], rank, rep);
    }
  }

  lemma FinishRoster(w: World, board: seq<Name>, winner: Name)
    requires AllIn(board, w.members) && winner in w.members
    ensures SameRoster(w.members, FinishElection(w, board, winner).members)
  {
    hide Settle, CountRank;
    SettleRoster(w.members, w.ranks, board, |w.ranks|, winner);
  }

  /** What a step of a running election keeps. */
  predicate Follows(w: World, v: World) {
    && SameRoster(w.members, v.members)
    && (Running(v.stage) || v.stage.Waiting?)
    && (Running(v.stage) ==> v.lead == w.lead)
  }

  lemma PrepareFollows(w: World)
    requires w.stage.InitVoters? && AllIn(w.stage.order, w.members)
    ensures Follows(w, PrepareStep(w))
  {
    hide PlanFor, FirstConfig, FinishElection, CountRank;
    if MoreMembers(w) {
    } else if |w.stage.order| == 0 {
    } else if w.stage.reported < |w.stage.order| {
    } else {
      var begun := w.(events := w.events + [BeginRoundVoting(0)]);
      FinishRoster(begun, w.stage.order, w.stage.order[0]);
      FinishWaits(begun, w.stage.order, w.stage.order[0]);
    }
  }

  lemma FinishWaits(w: World, board: seq<Name>, winner: Name)
    requires AllIn(board, w.members) && winner in w.members
    ensures FinishElection(w, board, winner).stage.Waiting?
  {
    hide Settle, CountRank;
  }

  lemma CountFollows(w: World)
    requires Inv(w) && w.stage.PostRound? && |w.stage.ballots| > 0
    ensures AllIn(MembersOf(w.stage.ballots), w.members) && Follows(w, CountGroup(w))
  {
    CountGroupKeeps(w);
    GroupNotEmpty(w);
    CountGroupIs(w);
    hide Inv, GroupWinner, Voted, Missing, Settle, CountGroup;
    var group := NextGroup(w.stage);
    SettleRoster(w.members, w.ranks, Voted(group) + Missing(group), w.stage.round, GroupWinner(group));
  }

  lemma GroupNotEmpty(w: World)
    requires Inv(w) && w.stage.PostRound? && |w.stage.ballots| > 0
    ensures |NextGroup(w.stage)| > 0 && DistinctMembers(NextGroup(w.stage))
  {
    GroupBounds(w);
  }

  lemma FinishStepFollows(w: World)
    requires Inv(w) && w.stage.PostRound?
    ensures AllIn(MembersOf(w.stage.ballots), w.members) && Follows(w, FinishStep(w))
  {
    hide Inv, PlanFor, FirstConfig, CountGroup;
    VotersTable(w);
    if |w.stage.ballots| > 0 {
      CountFollows(w);
    }
  }

  lemma VotersTable(w: World)
    requires Inv(w) && w.stage.PostRound?
    ensures AllIn(MembersOf(w.stage.ballots), w.members)
  {
    VotersInTable(w);
  }

  lemma StepFollows(w: World)
    requires Inv(w) && Running(w.stage)
    ensures Follows(w, Step(w))
  {
    hide PrepareStep, FinishStep;
    if w.stage.InitVoters? {
      OrderInTable(w);
      PrepareFollows(w);
    } else if w.stage.PostRound? {
      FinishStepFollows(w);
    }
  }

  lemma {:induction false} StepsFollow(w: World, n: nat)
    requires Inv(w) && Running(w.stage)
    ensures Follows(w, Steps(w, n))
    decreases n
  {
    hide Inv, Step, CanStep;
    if n > 0 {
      StepKeeps(w);
      StepFollows(w);
      if Running(Step(w).stage) {
        StepsFollow(Step(w), n - 1);
      } else {
        NothingLeft(Step(w));
        StepsStay(Step(w), n - 1);
      }
    }
  }

  lemma FollowsRoster(w: World, v: World)
    requires Follows(w, v)
    ensures SameRoster(w.members, v.members) && (Running(v.stage) || v.stage.Waiting?)
    ensures Running(v.stage) ==> v.lead == w.lead
  {
  }

  lemma NothingLeft(w: World)
    requires w.stage.Waiting?
    ensures !CanStep(w)
  {
  }

  // ---------------------------------------------------------------------------------------------
  // The end of an election
  // ---------------------------------------------------------------------------------------------

  lemma SameActives(a: MemberTable, b: MemberTable)
    requires SameRoster(a, b)
    ensures Actives(a) == Actives(b)
  {
  }

  /** Whatever an election leaves behind is what the money needs to go on. */
  lemma OutcomeFits(self: Name, members: MemberTable, activeMembers: nat, w: World)
    requires T.MembersOk(self, members, activeMembers) && Inv(w) && Elected(w) && SameRoster(members, w.members)
    ensures T.MembersOk(self, w.members, activeMembers)
    ensures RankStats(w.members, w.ranks) && |w.ranks| >= 2 && w.ranks[|w.ranks| - 1] == 1
  {
    SameActives(members, w.members);
    OutcomeFitsDistribution(self, w);
  }

  lemma UncountSame(ranks: seq<nat>, a: Member, b: Member)
    requires a.active == b.active && a.rank == b.rank && a.rep == b.rep
    requires a.Represented() ==> a.rank < |ranks| && ranks[a.rank] > 0
    ensures UncountRank(ranks, a) == UncountRank(ranks, b)
  {
  }

  lemma RenamedSame(x: MemberTable, y: MemberTable, a: Name, b: Name)
    requires SameStandings(x, y) && a in x && b !in x
    ensures SameStandings(R.Renamed(x, a, b), R.Renamed(y, a, b))
  {
  }

  lemma PutSame(x: MemberTable, y: MemberTable, m: Name, v: Member)
    ensures SameRoster(x, y) ==> SameRoster(x[m := v], y[m := v])
    ensures SameStandings(x, y) ==> SameStandings(x[m := v], y[m := v])
  {
  }

  lemma DropSame(x: MemberTable, y: MemberTable, m: Name)
    ensures SameRoster(x, y) ==> SameRoster(x - {m}, y - {m})
    ensures SameStandings(x, y) ==> SameStandings(x - {m}, y - {m})
  {
  }

  lemma StandingsRoster(x: MemberTable, y: MemberTable)
    requires SameStandings(x, y)
    ensures SameRoster(x, y)
  {
  }

  lemma RosterTransitive(a: MemberTable, b: MemberTable, c: MemberTable)
    requires SameRoster(a, b) && SameRoster(b, c)
    ensures SameRoster(a, c)
  {
  }

  lemma IsWaiting(w: World)
    requires Elected(w)
    ensures w.stage.Waiting?
  {
  }

  lemma RunEnds(w: World, n: nat)
    requires Inv(w) && Running(w.stage) && Steps(w, n).stage.Waiting?
    ensures Elected(Steps(w, n))
  {
    StepsEnd(w, n);
  }

  // ---------------------------------------------------------------------------------------------
  // The contract
  // ---------------------------------------------------------------------------------------------

  class Community {
    const money: T.Contract
    const election: Engine

    ghost predicate Joined()
      reads this, money, election
    {
      && Stages(money.phase, election.View().stage)
      && SameRoster(money.members, election.members)
      && (!money.phase.Ranking? ==> SameStandings(money.members, election.members) && money.ranks == election.ranks)
      && money.lead == election.lead
    }

    ghost predicate Valid()
      reads this, money, election
    {
      money.Valid() && election.Valid() && Joined()
    }

    constructor (self: Name, atomicAssets: Name, atomicMarket: Name, now: L.Time, electionTime: L.Time)
      ensures Valid() && fresh(money) && fresh(election)
      ensures money.members == map[] && election.View() == NOTHING
    {
      money := new T.Contract(self, atomicAssets, atomicMarket, now, electionTime);
      election := new Engine();
    }

    lemma Twins(m: Name)
      requires Valid()
      ensures m in money.members <==> m in election.members
      ensures m in money.members ==> money.members[m].active == election.members[m].active
      ensures money.phase.Scheduled? ==> SameStandings(money.members, election.members) && money.ranks == election.ranks
      ensures money.phase.Scheduled? && m in money.members ==>
        money.members[m].rank == election.members[m].rank && money.members[m].rep == election.members[m].rep
    {
    }

    lemma Facts()
      requires Valid()
      ensures forall m | m in election.members :: 0 < m < NOBODY && IsAccount(m)
      ensures |Actives(election.members)| == money.activeMembers
      ensures money.self !in election.members
    {
      SameActives(money.members, election.members);
    }

    // -------------------------------------------------------------------------------------------
    // Members
    // -------------------------------------------------------------------------------------------

    method Join(m: Name) returns (ok: bool)
      requires Valid() && m != money.self && 0 < m < NOBODY && IsAccount(m)
      modifies money, election
      ensures Valid() && (ok <==> m !in old(election.members))
      ensures ok ==> election.View() == PutMember(old(election.View()), m, NEW_MEMBER)
      ensures !ok ==> election.View() == old(election.View())
    {
      hide T.Books, Inv, Tie, SameRoster, SameStandings;
      Twins(m);
      ok := money.CreateMember(m);
      if ok {
        PutSame(old(money.members), old(election.members), m, NEW_MEMBER);
        election.Put(m, NEW_MEMBER);
      }
    }

    method Activate(m: Name) returns (ok: bool)
      requires Valid()
      modifies money, election
      ensures Valid()
      ensures ok <==> m in old(election.members) && !old(election.members)[m].active && |Actives(old(election.members))| < 10000
      ensures ok ==> election.View() == PutMember(old(election.View()), m, NEW_MEMBER.(active := true))
      ensures !ok ==> election.View() == old(election.View())
    {
      hide T.Books, Inv, Tie, Actives, SameRoster, SameStandings;
      Facts();
      Twins(m);
      ok := money.SetActive(m);
      if ok {
        PutSame(old(money.members), old(election.members), m, NEW_MEMBER.(active := true));
        election.Put(m, NEW_MEMBER.(active := true));
      }
    }

    method RemovePending(m: Name)
      requires Valid()
      modifies money, election
      ensures Valid()
      ensures election.View() ==
        if m in old(election.members) && !old(election.members)[m].active then DropMember(old(election.View()), m) else old(election.View())
    {
      hide T.Books, Inv, Tie, SameRoster, SameStandings;
      Twins(m);
      DropSame(money.members, election.members, m);
      var ok := money.RemoveIfPending(m);
      if ok && !election.members[m].active {
        election.Drop(m);
      }
    }

    method Resign(m: Name, newStart: L.Time) returns (ok: bool)
      requires Valid() && newStart >= money.now + L.THIRTY_DAYS
      modifies money, election
      ensures Valid()
      ensures ok ==> old(election.state).RegistrationState? && m in old(election.members) && election.members == old(election.members) - {m}
      ensures !ok ==> election.View() == old(election.View())
    {
      hide T.Books, Inv, Tie, SameRoster, SameStandings, UncountRank, R.Resigned, T.CaughtUp, T.SetupReady;
      Twins(m);
      DropSame(money.members, election.members, m);
      var before := money.phase;
      ok := money.Resign(m, newStart);
      if ok {
        UncountSame(old(money.ranks), old(money.members)[m], election.members[m]);
        election.Leave(m);
        if money.phase != before {
          election.PutOff();
        }
      }
    }

    method Rename(a: Name, b: Name) returns (ok: bool)
      requires Valid() && b != money.self && 0 < b < NOBODY && IsAccount(b)
      modifies money, election
      ensures Valid()
      ensures ok ==> a in old(election.members) && b !in old(election.members)
                     && election.View() == RenameAccount(old(election.View()), a, b)
      ensures !ok ==> election.View() == old(election.View())
    {
      hide T.Books, Inv, Tie, R.Renamed, SameStandings, SameRoster, R.RowsRenamed, T.CaughtUp, T.SetupReady;
      Twins(a);
      Twins(b);
      ok := money.Rename(a, b);
      if ok {
        RenamedSame(old(money.members), old(election.members), a, b);
        StandingsRoster(R.Renamed(old(money.members), a, b), R.Renamed(old(election.members), a, b));
        election.Rename(a, b);
      }
    }

    /** Participation changes until the seeding window opens. */
    method Opt(m: Name, participating: bool) returns (ok: bool)
      requires Valid()
      modifies election
      ensures Valid()
      ensures ok <==>
        && m in old(election.members) && old(election.members)[m].active
        && money.phase.Scheduled? && money.now + 172800 < money.phase.electionTime && !money.phase.seeding
        && (participating <==> old(election.members)[m].participation != money.phase.version)
      ensures ok ==> election.View() == Participate(old(election.View()), m, if participating then money.phase.version else 0)
      ensures !ok ==> election.View() == old(election.View())
    {
      hide T.Books, Inv, Tie;
      ok := m in election.members && election.members[m].active
            && money.phase.Scheduled? && money.now + 172800 < money.phase.electionTime && !money.phase.seeding
            && (participating <==> election.members[m].participation != money.phase.version);
      if ok {
        election.Opt(m, if participating then money.phase.version else 0);
      }
    }

    // -------------------------------------------------------------------------------------------
    // The schedule
    // -------------------------------------------------------------------------------------------

    method Reschedule(electionTime: L.Time) returns (ok: bool)
      requires Valid()
      modifies money, election
      ensures Valid()
      ensures ok ==> old(election.state).RegistrationState? && money.phase.Scheduled? && money.phase.electionTime == electionTime
      ensures election.View() == if ok then ElectionRun.Reschedule(old(election.View())) else old(election.View())
    {
      hide T.Books, Inv, Tie;
      ok := money.SetNextElectionTime(electionTime);
      if ok {
        election.PutOff();
      }
    }

    method Trigger(newStart: L.Time) returns (ok: bool)
      requires Valid() && newStart >= money.now + L.THIRTY_DAYS
      modifies money, election
      ensures Valid()
      ensures money.phase == if ok then old(money.Triggered(newStart)) else old(money.phase)
      ensures election.View() == if money.phase != old(money.phase) then ElectionRun.Reschedule(old(election.View())) else old(election.View())
    {
      hide T.Books, Inv, Tie;
      var before := money.phase;
      ok := money.TriggerElection(newStart);
      if money.phase != before {
        election.PutOff();
      }
    }

    /** Seeds before the election and before its final round. */
    method Seed() returns (ok: bool)
      requires Valid()
      modifies money, election
      ensures Valid()
      ensures ok <==>
        || (old(money.phase).Scheduled? && (old(money.phase).seeding || money.now + 172800 >= old(money.phase).electionTime))
        || old(election.state).FinalState?
      ensures election.View() ==
        if !ok then old(election.View())
        else if old(election.state).RegistrationState? then OpenSeeding(old(election.View()), old(money.phase).version)
        else UpdateSeed(old(election.View()))
    {
      hide T.Books, Inv, Tie;
      ok := false;
      if money.phase.Scheduled? {
        var isOpen := money.phase.seeding;
        ok := money.Seed();
        if ok && isOpen {
          election.AddSeed();
        } else if ok {
          election.OpenSeeds(money.phase.version);
        }
      } else if election.state.FinalState? {
        election.AddSeed();
        ok := true;
      }
    }

    // -------------------------------------------------------------------------------------------
    // Elections
    // -------------------------------------------------------------------------------------------

    /** The money takes over the outcome of an election, and the waiting distributions start. */
    method Conclude(nextElection: L.Time)
      requires money.Valid() && election.Valid() && money.phase.Ranking?
      requires Elected(election.View()) && SameRoster(money.members, election.members)
      modifies money
      ensures Valid() && money.phase == L.Scheduled(nextElection, 1, false)
      ensures money.members == election.members && money.ranks == election.ranks && money.lead == election.lead
    {
      MembersOkNow();
      OutcomeFits(money.self, money.members, money.activeMembers, election.View());
      IsWaiting(election.View());
      hide T.Books, Inv, Tie, T.MembersOk, Elected, RankStats;
      money.FinishElection(election.members, election.ranks, election.lead, nextElection);
    }

    /** The money follows a running election that has done `n` more steps. */
    method Accompany(ghost w: World, ghost n: nat, nextElection: L.Time)
      requires money.Valid() && election.Valid() && election.View() == Steps(w, n)
      requires Inv(w) && Running(w.stage) && SameRoster(money.members, w.members) && money.lead == w.lead
      requires money.phase.Ranking? || (n == 0 && Unranked(w))
      modifies money
      ensures Valid()
      ensures election.state.RegistrationState? ==>
        Elected(election.View()) && money.members == election.members && money.ranks == election.ranks
    {
      hide T.Books, Inv, Tie, Steps, CanStep, Elected, SameRoster, SameStandings;
      StepsFollow(w, n);
      FollowsRoster(w, election.View());
      RosterTransitive(money.members, w.members, election.members);
      if n == 0 {
        NoSteps(w);
      }
      if election.state.RegistrationState? {
        RunEnds(w, n);
        Conclude(nextElection);
      }
    }

    /** Distributions are still paid under the ranks of the last election. */
    ghost predicate Unranked(w: World)
      reads money
    {
      money.phase.Distributing? && w.stage.InitVoters? && SameStandings(money.members, w.members) && money.ranks == w.ranks
    }

    lemma MembersOkNow()
      requires money.Valid()
      ensures T.MembersOk(money.self, money.members, money.activeMembers)
    {
    }

    /** prepare_election: distributions are paid before anybody is ranked. A refused call leaves everything as it
        was. */
    method PrepareElection(maxSteps: nat, newSeed: Seed, nextElection: L.Time) returns (left: nat, ok: bool)
      requires Valid()
      modifies money, election
      ensures Valid()
      ensures !ok ==>
        && election.View() == old(election.View()) && money.phase == old(money.phase)
        && money.ranks == old(money.ranks) && money.Tables() == old(money.Tables())
      ensures ok && old(election.Preparing(election.state)) && election.state.RegistrationState? ==>
        Elected(election.View()) && money.members == election.members && money.ranks == election.ranks
      ensures ok && old(election.Preparing(election.state)) && maxSteps > 0 && left > 0 ==> !CanStep(election.View())
    {
      hide T.Books, Inv, Tie, Elected, CanStep, SameRoster, SameStandings, T.CaughtUp, T.SetupReady;
      ok, left := true, maxSteps;
      if !election.Preparing(election.state) {
        return;
      }
      var started := election.state.SeedingState?;
      if started && maxSteps == 0 {
        return;
      }
      if started && money.now < money.phase.electionTime {
        return maxSteps, false;
      }
      var phase, ranks, r := money.phase, money.ranks, money.Tables();
      ghost var w := if started then Start(election.View(), newSeed) else election.View();
      BeginsRunning(newSeed);
      left := PayFirst(maxSteps, w);
      left, ok := GoOn(maxSteps, if started then maxSteps - 1 else maxSteps, left, newSeed, nextElection, w);
      if !ok {
        money.Restore(phase, ranks, r);
      }
    }

    /** The election uses what the payments have left of the budget. */
    method GoOn(maxSteps: nat, budget: nat, paidLeft: nat, newSeed: Seed, nextElection: L.Time, ghost w: World)
      returns (left: nat, ok: bool)
      requires money.Valid() && election.Valid() && election.Preparing(election.state)
      requires if election.state.SeedingState?
        then maxSteps > 0 && budget == maxSteps - 1 && w == Start(election.View(), newSeed)
        else budget == maxSteps && w == election.View()
      requires Inv(w) && Running(w.stage) && SameRoster(money.members, w.members) && money.lead == w.lead
      requires money.phase.Ranking? || (paidLeft == 0 && Unranked(w))
      modifies money, election
      ensures ok ==> Valid()
      ensures !ok ==>
        && election.Valid() && election.View() == old(election.View())
        && unchanged(money)
      ensures ok && election.state.RegistrationState? ==>
        Elected(election.View()) && money.members == election.members && money.ranks == election.ranks
      ensures ok && left > 0 ==> !CanStep(election.View())
    {
      hide T.Books, Inv, Tie, Steps, CanStep, Busy, Elected, NoVoters, SameRoster, SameStandings;
      left, ok := election.PrepareElection(maxSteps, Minus(budget, paidLeft), newSeed);
      if ok {
        Accompany(w, Minus(budget, Minus(budget, paidLeft)) - left, nextElection);
      }
    }

    /** What is due is paid before the election goes on. */
    method PayFirst(maxSteps: nat, ghost w: World) returns (left: nat)
      requires Valid() && w.members == election.members && w.lead == election.lead && w.stage.InitVoters?
      requires if money.phase.Scheduled?
        then money.phase.seeding && money.phase.electionTime <= money.now && maxSteps > 0 && w.ranks == []
        else w.ranks == election.ranks && election.state.InitVotersState?
      modifies money`phase, money`ranks, money`dists, money`funds, money`pools, money`owned
      ensures money.Valid() && SameRoster(money.members, w.members)
      ensures money.phase.Ranking? || (left == 0 && Unranked(w))
    {
      hide T.Books, Inv, Tie, T.CaughtUp, T.SetupReady, SameRoster;
      left := money.PrepareElection(maxSteps);
    }

    lemma BeginsRunning(newSeed: Seed)
      requires Valid() && election.Preparing(election.state)
      ensures election.state.SeedingState? ==> Inv(Start(election.View(), newSeed)) && money.phase.Scheduled? && money.phase.seeding
      ensures election.state.InitVotersState? ==> Inv(election.View()) && !money.phase.Scheduled?
    {
      if election.state.SeedingState? {
        StartKeeps(election.View(), newSeed);
      }
    }

    method CastBallot(round: nat, voter: Name, candidate: Name, periodOpen: bool) returns (ok: bool)
      requires Valid()
      modifies election
      ensures Valid()
      ensures ok <==> periodOpen && MayVote(old(election.View()), round, voter, candidate)
    {
      hide T.Books, Inv, Tie, MayVote, SameRoster, SameStandings;
      ok := election.CastBallot(round, voter, candidate, periodOpen);
    }

    /** finish_round, up to the end of the election. */
    method FinishRound(maxSteps: nat, votingClosed: bool, finalClosed: bool, newSeed: Seed, draw: nat, nextElection: L.Time)
      returns (left: nat)
      requires Valid()
      modifies money, election
      ensures Valid() && left <= maxSteps
      ensures old(Running(election.View().stage)) && election.state.RegistrationState? ==>
        Elected(election.View()) && money.members == election.members && money.ranks == election.ranks
      ensures (old(election.state).ActiveState? && votingClosed) || old(election.state).PostRoundState? ==>
        var w := if old(election.state).ActiveState? then EndVote(old(election.View()), newSeed) else old(election.View());
        election.View() == Steps(w, maxSteps - left) && UsesBudget(w, maxSteps, left)
    {
      hide T.Books, Inv, Tie, Steps, CanStep, Elected, UsesBudget, SameRoster, SameStandings, FinishElection;
      var finished, chosen := election.state.PostRoundState? || votingClosed, election.state.FinalState? && finalClosed && maxSteps > 0;
      if election.state.ActiveState? || election.state.PostRoundState? {
        ghost var w := if election.state.ActiveState? then EndVote(election.View(), newSeed) else election.View();
        if election.state.ActiveState? {
          EndVoteKeeps(election.View(), newSeed);
        }
        left := election.FinishRound(maxSteps, votingClosed, finalClosed, newSeed, draw);
        if finished {
          Accompany(w, maxSteps - left, nextElection);
        }
      } else {
        ghost var w := election.View();
        left := election.FinishRound(maxSteps, votingClosed, finalClosed, newSeed, draw);
        if chosen {
          FinishRoster(w, w.stage.order, w.stage.order[draw % |w.stage.order|]);
          RosterTransitive(money.members, w.members, election.members);
          Conclude(nextElection);
        }
      }
    }
  }
  // ---------------------------------------------------------------------------------------------
  // Whole runs
  // ---------------------------------------------------------------------------------------------

  datatype Deed =
    | Wait(elapsed: nat)
    | Deposit(from: Name, quantity: int, donation: bool)
    | Withdrawal(owner: Name, quantity: int)
    | Donation(owner: Name, quantity: int)
    | Transfer(from: Name, to: Name, quantity: int)
    | Spend(from: Name, time: L.Time, rank: nat, to: Name, quantity: int)
    | PayOut(maxSteps: nat)
    | Joining(m: Name)
    | Activation(m: Name)
    | Removal(m: Name)
    | Resignation(m: Name, newStart: L.Time)
    | Renaming(a: Name, b: Name)
    | Opting(m: Name, participating: bool)
    | Rescheduling(electionTime: L.Time)
    | Triggering(newStart: L.Time)
    | SeedUpdating
    | Preparation(maxSteps: nat, newSeed: Seed, nextElection: L.Time)
    | Ballot(round: nat, voter: Name, candidate: Name, periodOpen: bool)
    | Finishing(maxSteps: nat, votingClosed: bool, finalClosed: bool, newSeed: Seed, draw: nat, nextElection: L.Time)

  /** What is promised between transactions: the money is in order, the events are, the statistics count exactly the
      members whose rank is final, and outside of a ranking both parts know the same members and ranks. */
  ghost predicate Promised(c: Community)
    reads c, c.money, c.election
  {
    && T.InOrder(c.money)
    && ParseAll(c.election.events) != Bad
    && Counts(c.election.members, Settled(c.election.View()), c.election.ranks)
    && (!c.money.phase.Ranking? ==> SameStandings(c.money.members, c.election.members) && c.money.ranks == c.election.ranks)
  }

  lemma Promises(c: Community)
    requires c.Valid()
    ensures Promised(c)
  {
    T.ValidInOrder(c.money);
    NotBad(c.election.View());
    hide T.Books, T.InOrder, Inv, Tie, Counts, Settled, ParseAll, SameStandings;
  }

  /** Payments concern the money alone. */
  method Pay(c: Community, deed: Deed)
    requires c.Valid()
    modifies c.money
    ensures c.Valid()
  {
    hide T.Books, Inv, Tie, SameRoster, SameStandings, T.CaughtUp, T.SetupReady;
    match deed {
      case Wait(elapsed) => c.money.Tick(elapsed);
      case Deposit(from, quantity, donation) =>
        if from != c.money.self {
          var _ := c.money.NotifyDeposit(from, quantity, donation);
        }
      case Withdrawal(owner, quantity) => var _ := c.money.Withdraw(owner, quantity);
      case Donation(owner, quantity) => var _ := c.money.Donate(owner, quantity);
      case Transfer(from, to, quantity) => var _ := c.money.UserTransfer(from, to, quantity);
      case Spend(from, time, rank, to, quantity) => var _ := c.money.FundTransfer(from, time, rank, to, quantity);
      case PayOut(maxSteps) => var _ := c.money.Distribute(maxSteps);
      case _ =>
    }
  }

  method Perform(c: Community, deed: Deed)
    requires c.Valid()
    modifies c.money, c.election
    ensures c.Valid() && Promised(c)
  {
    hide T.Books, Inv, Tie, SameRoster, SameStandings, Promised, Elected;
    match deed {
      case Joining(m) =>
        if m != c.money.self && 0 < m < NOBODY && IsAccount(m) {
          var _ := c.Join(m);
        }
      case Activation(m) => var _ := c.Activate(m);
      case Removal(m) => c.RemovePending(m);
      case Resignation(m, newStart) =>
        if newStart >= c.money.now + L.THIRTY_DAYS {
          var _ := c.Resign(m, newStart);
        }
      case Renaming(a, b) =>
        if b != c.money.self && 0 < b < NOBODY && IsAccount(b) {
          var _ := c.Rename(a, b);
        }
      case Opting(m, participating) => var _ := c.Opt(m, participating);
      case Rescheduling(electionTime) => var _ := c.Reschedule(electionTime);
      case Triggering(newStart) =>
        if newStart >= c.money.now + L.THIRTY_DAYS {
          var _ := c.Trigger(newStart);
        }
      case SeedUpdating => var _ := c.Seed();
      case Preparation(maxSteps, newSeed, nextElection) => var _, _ := c.PrepareElection(maxSteps, newSeed, nextElection);
      case Ballot(round, voter, candidate, periodOpen) => var _ := c.CastBallot(round, voter, candidate, periodOpen);
      case Finishing(maxSteps, votingClosed, finalClosed, newSeed, draw, nextElection) =>
        var _ := c.FinishRound(maxSteps, votingClosed, finalClosed, newSeed, draw, nextElection);
      case _ => Pay(c, deed);
    }
    Promises(c);
  }

  /** Whatever happens to members, elections and money, in whatever order, all promises are kept. */
  method Run(self: Name, atomicAssets: Name, atomicMarket: Name, now: L.Time, electionTime: L.Time, deeds: seq<Deed>)
    returns (c: Community)
    ensures c.Valid() && Promised(c)
  {
    c := new Community(self, atomicAssets, atomicMarket, now, electionTime);
    Promises(c);
    for i := 0 to |deeds|
      invariant c.Valid() && Promised(c) && fresh(c) && fresh(c.money) && fresh(c.election)
    {
      Perform(c, deeds[i]);
    }
  }
}
