/** When the event trace of whole runs follows the documented order (contracts/eden/include/events.hpp,
    contracts/eden/src/elections.cpp). */
module ElectionOrder {
  import opened Powers
  import opened Members
  import opened Shuffle
  import opened GroupVote
  import opened ElectionConfig
  import opened GroupIndex
  import opened ElectionModel
  import opened ElectionTrace
  import opened ElectionInvariant
  import opened ElectionRun

  // ---------------------------------------------------------------------------------------------
  // What is announced
  // ---------------------------------------------------------------------------------------------

  lemma SingleRoundIff(n: nat)
    requires n > 0
    ensures |PlanFor(n)| == 1 <==> n < 12
  {
    PlanLength(n);
    assert Pow(4, 1) == 4 * Pow(4, 0);
    if Rounds(n) > 1 {
      PowMonoExp(4, 1, Rounds(n) - 1);
    }
  }

  lemma FitMore(events: seq<Event>, more: seq<Event>)
    requires SummariesFit(events) && SummariesFit(more)
    ensures SummariesFit(events + more)
  {
  }

  lemma ReportFirstFits(w: World)
    requires SummariesFit(w.events) && w.stage.InitVoters? && w.stage.reported < |w.stage.order|
    ensures SummariesFit(ReportFirst(w).events)
  {
    var order, reported := w.stage.order, w.stage.reported;
    var n := |order|;
    PlanLength(n);
    hide PlanFor, FirstConfig, GroupSize;
    var size := GroupSize(FirstConfig(n), reported, n - reported);
    var opening := [ConfigSummary(|PlanFor(n)|, n), RoundEvent(0, n)];
    FitMore(w.events, GroupEvents(opening, 0, order, reported, size));
  }

  lemma FinishElectionFits(w: World, board: seq<Name>, winner: Name)
    requires SummariesFit(w.events) && AllIn(board, w.members) && winner in w.members
    ensures SummariesFit(FinishElection(w, board, winner).events)
  {
    hide Settle;
  }

  lemma PrepareFits(w: World)
    requires SummariesFit(w.events) && w.stage.InitVoters? && AllIn(w.stage.order, w.members)
    ensures SummariesFit(PrepareStep(w).events)
  {
    hide PlanFor, FinishElection, ReportFirst, RoundEvent, FirstConfig;
    if MoreMembers(w) {
    } else if |w.stage.order| == 0 {
    } else if w.stage.reported < |w.stage.order| {
      ReportFirstFits(w);
    } else {
      var begun := w.(events := w.events + [BeginRoundVoting(0)]);
      FinishElectionFits(begun, w.stage.order, w.stage.order[0]);
    }
  }

  lemma FinishStepFits(w: World)
    requires SummariesFit(w.events) && w.stage.PostRound? && AllIn(MembersOf(w.stage.ballots), w.members)
    ensures SummariesFit(FinishStep(w).events)
  {
    hide PlanFor, FirstConfig, Settle, GroupWinner;
  }

  lemma {:induction false} StepsFit(w: World, n: nat)
    requires SummariesFit(w.events)
    ensures SummariesFit(Steps(w, n).events)
    decreases n
  {
    hide SummariesFit, PrepareStep, FinishStep;
    if n > 0 {
      if w.stage.InitVoters? && AllIn(w.stage.order, w.members) {
        PrepareFits(w);
      } else if w.stage.PostRound? && AllIn(MembersOf(w.stage.ballots), w.members) {
        FinishStepFits(w);
      }
      StepsFit(Step(w), n - 1);
    }
  }

  lemma ApplyFits(w: World, move: Move)
    requires SummariesFit(w.events)
    ensures SummariesFit(Apply(w, move).events)
  {
    hide Steps, FinishElection;
    if Enabled(w, move) {
      match move
      case Work(n) => StepsFit(w, n);
      case Choose(draw) => FinishElectionFits(w, w.stage.order, ChosenMember(w, draw));
      case _ =>
    }
  }

  lemma {:induction false} PlayFits(w: World, moves: seq<Move>)
    requires SummariesFit(w.events)
    ensures SummariesFit(Play(w, moves).events)
    decreases |moves|
  {
    hide SummariesFit, Apply;
    if |moves| != 0 {
      ApplyFits(w, moves[0]);
      PlayFits(Apply(w, moves[0]), moves[1..]);
    }
  }

  // ---------------------------------------------------------------------------------------------
  // The documented order
  // ---------------------------------------------------------------------------------------------

  lemma NotClosing(w: World)
    requires Inv(w)
    ensures ParseAll(w.events) != Bad && !ClosesSingle(ParseAll(w.events))
  {
  }

  /** Whatever happens in whatever order: the event trace follows the documented order if and only if no election
      with fewer than 12 participants has ended. */
  lemma DocumentedOrder(moves: seq<Move>)
    ensures var events := Play(NOTHING, moves).events;
      ParseDocumented(events) != Bad <==> !SmallElectionEnded(events)
  {
    hide Inv, ParseAll, ParseDocumented, SmallElectionEnded, SummariesFit, Play;
    EveryRunKeeps(moves);
    NotClosing(Play(NOTHING, moves));
    NothingFitsYet();
    PlayFits(NOTHING, moves);
    DocumentedUnlessSmall(Play(NOTHING, moves).events);
  }

  /** Every election of every run announces the least number of rounds that leaves a final round below 12. */
  lemma EveryRunAnnounces(moves: seq<Move>)
    ensures forall e | e in Play(NOTHING, moves).events && e.ConfigSummary? ::
      && e.numRounds >= 1 && e.numParticipants < 3 * Pow(4, e.numRounds)
      && (e.numRounds > 1 ==> 3 * Pow(4, e.numRounds - 1) <= e.numParticipants)
  {
    hide Play;
    NothingFitsYet();
    PlayFits(NOTHING, moves);
    var events := Play(NOTHING, moves).events;
    forall e | e in events && e.ConfigSummary? ensures SummaryFits(e) {
      var i :| 0 <= i < |events| && events[i] == e;
    }
  }

  lemma NothingFitsYet()
    ensures SummariesFit(NOTHING.events)
  {
  }

  // ---------------------------------------------------------------------------------------------
  // A run that does not follow it
  // ---------------------------------------------------------------------------------------------

  lemma {:induction false} LastVotersMore(events: seq<Event>, more: seq<Event>)
    requires forall i | 0 <= i < |more| :: !more[i].ConfigSummary?
    ensures LastVoters(events + more) == LastVoters(events)
    decreases |more|
  {
    if |more| == 0 {
      assert events + more == events;
    } else {
      assert (events + more)[..|events + more| - 1] == events + more[..|more| - 1];
      LastVotersMore(events, more[..|more| - 1]);
    }
  }

  lemma EndIsSmall(w: World, board: seq<Name>, winner: Name)
    requires AllIn(board, w.members) && winner in w.members && LastVoters(w.events) < 12
    ensures SmallElectionEnded(FinishElection(w, board, winner).events)
  {
    hide Settle;
    var round := |w.ranks|;
    var seeding := if round > 0 then [EndSeeding] else [];
    var final := FinalEvents(round, winner, board);
    LastVotersMore(w.events, seeding + final[..3]);
    var events := w.events + seeding + final;
    assert events[..|events| - 1][..|events| - 2] == w.events + (seeding + final[..3]);
    assert events[|events| - 2] == EndElection;
  }

  const ALICE: Name := 16
  const FIRST: Seed := k => 0
  const JOINED := NEW_MEMBER.(active := true)
  const VOTER := JOINED.(participation := 1)

  /** One member joins, opts in, and the election starts and is worked off. */
  const ONE_MEMBER: seq<Move> := [Put(ALICE, JOINED), Opt(ALICE, 1), OpenSeeds(1), StartNow(FIRST), Work(3)]

  function WithAlice(v: Member, stage: Stage, events: seq<Event>): World {
    World(map[ALICE := v], [], stage, 0, [], events)
  }

  lemma PlayFive(w: World, a: Move, b: Move, c: Move, d: Move, e: Move)
    ensures Play(w, [a, b, c, d, e]) == Apply(Apply(Apply(Apply(Apply(w, a), b), c), d), e)
  {
    hide Apply;
    var v := Apply(w, a);
    assert [a, b, c, d, e][1..] == [b, c, d, e];
    assert [b, c, d, e][1..] == [c, d, e];
    assert [c, d, e][1..] == [d, e];
    assert [d, e][1..] == [e];
    assert Play(v, [b, c, d, e]) == Play(Apply(v, b), [c, d, e]);
    assert Play(Apply(v, b), [c, d, e]) == Play(Apply(Apply(v, b), c), [d, e]);
    assert Play(Apply(Apply(v, b), c), [d, e]) == Play(Apply(Apply(Apply(v, b), c), d), [e]);
  }

  lemma AliceJoins()
    ensures Apply(NOTHING, Put(ALICE, JOINED)) == WithAlice(JOINED, Waiting, [])
    ensures Apply(WithAlice(JOINED, Waiting, []), Opt(ALICE, 1)) == WithAlice(VOTER, Waiting, [])
  {
    assert Actives(map[]) == {};
    assert map[ALICE := JOINED][ALICE := VOTER] == map[ALICE := VOTER];
  }

  lemma ElectionStarts()
    ensures Apply(WithAlice(VOTER, Waiting, []), OpenSeeds(1)) == WithAlice(VOTER, Seeding(1), [Begin, SeedUpdate])
    ensures Apply(WithAlice(VOTER, Seeding(1), [Begin, SeedUpdate]), StartNow(FIRST))
         == WithAlice(VOTER, InitVoters(1, 0, FIRST, [], 0), [Begin, SeedUpdate, EndSeeding])
  {
    assert [] + [Begin, SeedUpdate] == [Begin, SeedUpdate];
    assert [Begin, SeedUpdate] + [EndSeeding] == [Begin, SeedUpdate, EndSeeding];
  }

  lemma AliceIsCollected(events: seq<Event>)
    ensures Step(WithAlice(VOTER, InitVoters(1, 0, FIRST, [], 0), events))
         == WithAlice(VOTER, InitVoters(1, ALICE, FIRST, [ALICE], 0), events)
  {
    var w := WithAlice(VOTER, InitVoters(1, 0, FIRST, [], 0), events);
    assert ALICE in w.members && ALICE > w.stage.last;
    assert NextToProcess(w) == ALICE;
    assert Insert([], ALICE, Draw(FIRST, 0)) == [ALICE];
  }

  lemma AliceIsReported(events: seq<Event>)
    ensures var w := Step(WithAlice(VOTER, InitVoters(1, ALICE, FIRST, [ALICE], 0), events));
      w == WithAlice(VOTER, InitVoters(1, ALICE, FIRST, [ALICE], 1), w.events) && LastVoters(w.events) == 1
  {
    var w := WithAlice(VOTER, InitVoters(1, ALICE, FIRST, [ALICE], 0), events);
    FirstConfigFacts(1);
    hide PlanFor, FirstConfig, BeginFirst, FinishElection;
    BoundaryAtStart(FirstConfig(1));
    FirstConfigShape(1);
    NextBoundary(FirstConfig(1), 0, 0);
    assert !MoreMembers(w);
    var opening := [ConfigSummary(|PlanFor(1)|, 1), RoundEvent(0, 1)];
    var more := GroupEvents(opening, 0, [ALICE], 0, 1);
    assert more == [ConfigSummary(|PlanFor(1)|, 1)] + more[1..];
    assert events + more == (events + [ConfigSummary(|PlanFor(1)|, 1)]) + more[1..];
    LastVotersMore(events + [ConfigSummary(|PlanFor(1)|, 1)], more[1..]);
  }

  lemma AliceWins(events: seq<Event>)
    requires LastVoters(events) == 1
    ensures SmallElectionEnded(Step(WithAlice(VOTER, InitVoters(1, ALICE, FIRST, [ALICE], 1), events)).events)
  {
    var w := WithAlice(VOTER, InitVoters(1, ALICE, FIRST, [ALICE], 1), events);
    SingleRoundIff(1);
    hide PlanFor, FinishElection, SmallElectionEnded;
    assert !MoreMembers(w);
    var begun := w.(events := events + [BeginRoundVoting(0)]);
    LastVotersMore(events, [BeginRoundVoting(0)]);
    EndIsSmall(begun, [ALICE], ALICE);
  }

  /** The election of a single member does not follow the documented order. */
  lemma OneMemberBreaksOrder()
    ensures ParseDocumented(Play(NOTHING, ONE_MEMBER).events) == Bad
  {
    hide Apply, Step, ParseDocumented, SmallElectionEnded, Play;
    PlayFive(NOTHING, ONE_MEMBER[0], ONE_MEMBER[1], ONE_MEMBER[2], ONE_MEMBER[3], ONE_MEMBER[4]);
    assert ONE_MEMBER == [ONE_MEMBER[0], ONE_MEMBER[1], ONE_MEMBER[2], ONE_MEMBER[3], ONE_MEMBER[4]];
    AliceJoins();
    ElectionStarts();
    var w := WithAlice(VOTER, InitVoters(1, 0, FIRST, [], 0), [Begin, SeedUpdate, EndSeeding]);
    ThreeSteps(w);
    AliceIsCollected(w.events);
    AliceIsReported(w.events);
    AliceWins(Step(Step(w)).events);
    DocumentedOrder(ONE_MEMBER);
  }

  lemma ThreeSteps(w: World)
    ensures Apply(w, Work(3)) == Step(Step(Step(w)))
  {
    hide Step;
    assert Steps(w, 3) == Steps(Step(w), 2);
    assert Steps(Step(w), 2) == Steps(Step(Step(w)), 1);
    assert Steps(Step(Step(w)), 1) == Steps(Step(Step(Step(w))), 0);
  }
}
