/** Whole runs of elections: budgets of steps, and everything that can happen in between. */
module ElectionRun {
  import opened Members
  import opened Shuffle
  import opened GroupVote
  import opened ElectionConfig
  import opened GroupIndex
  import opened ElectionModel
  import opened ElectionTrace
  import opened ElectionInvariant
  import Refunds
  import Treasury

  // ---------------------------------------------------------------------------------------------
  // Budgets of steps
  // ---------------------------------------------------------------------------------------------

  /** Members not looked at yet. */
  predicate MoreMembers(w: World) {
    w.stage.InitVoters? && exists m :: m in w.members && m > w.stage.last
  }

  ghost function NextToProcess(w: World): (m: Name)
    requires MoreMembers(w)
    ensures IsNext(w.members, w.stage.last, m)
  {
    NextExists(w.members, w.stage.last);
    var m :| IsNext(w.members, w.stage.last, m);
    m
  }

  /** One step of preparing the first round. Without voters nothing more happens. */
  ghost function PrepareStep(w: World): World
    requires w.stage.InitVoters? && AllIn(w.stage.order, w.members)
  {
    if MoreMembers(w) then ProcessMember(w, NextToProcess(w))
    else if |w.stage.order| == 0 then w
    else if w.stage.reported < |w.stage.order| then ReportFirst(w)
    else BeginFirst(w)
  }

  /** One step of whatever is running; no step when voting is open or nothing runs. */
  ghost function Step(w: World): World {
    if w.stage.InitVoters? && AllIn(w.stage.order, w.members) then PrepareStep(w)
    else if w.stage.PostRound? && AllIn(MembersOf(w.stage.ballots), w.members) then FinishStep(w)
    else w
  }

  ghost function Steps(w: World, n: nat): World
    decreases n
  {
    if n == 0 then w else Steps(Step(w), n - 1)
  }

  /** Splitting a budget over any number of calls makes no difference. */
  lemma {:induction false} StepsSplit(w: World, a: nat, b: nat)
    ensures Steps(w, a + b) == Steps(Steps(w, a), b)
    decreases a
  {
    hide Step;
    if a > 0 {
      StepsSplit(Step(w), a - 1, b);
    }
  }

  /** Something is left to do before the voting opens, or the election or its preparation ends. */
  ghost predicate CanStep(w: World) {
    match w.stage
    case InitVoters(_, _, _, order, _) => MoreMembers(w) || |order| > 0
    case PostRound(_, _, _, _, ballots, order, _) => |ballots| > 0 || |order| > 0
    case _ => false
  }

  ghost predicate Busy(w: World, n: nat) {
    forall j | 0 <= j < n :: CanStep(Steps(w, j))
  }

  /** A budget is used exactly as far as there is something to do. */
  ghost predicate UsesBudget(w: World, budget: nat, left: nat) {
    left <= budget && Busy(w, budget - left) && (left > 0 ==> !CanStep(Steps(w, budget - left)))
  }

  lemma BudgetIsUnique(w: World, budget: nat, a: nat, b: nat)
    requires UsesBudget(w, budget, a) && UsesBudget(w, budget, b)
    ensures a == b
  {
  }

  lemma BusyMore(w: World, n: nat)
    requires Busy(w, n) && CanStep(Steps(w, n))
    ensures Busy(w, n + 1)
  {
    hide CanStep;
  }

  lemma BusyBoth(w: World, a: nat, b: nat)
    requires Busy(w, a) && Busy(Steps(w, a), b)
    ensures Busy(w, a + b)
  {
    hide CanStep, Steps;
    forall j | 0 <= j < a + b ensures CanStep(Steps(w, j)) {
      if j >= a {
        StepsSplit(w, a, j - a);
        assert CanStep(Steps(Steps(w, a), j - a));
      }
    }
  }

  /** Nothing is left to do: no further step changes anything. */
  lemma {:induction false} StepsStay(w: World, n: nat)
    requires !CanStep(w)
    ensures Steps(w, n) == w
    decreases n
  {
    NoStepLeft(w);
    hide Step, CanStep;
    if n > 0 {
      StepsStay(w, n - 1);
    }
  }

  lemma NoStepLeft(w: World)
    requires !CanStep(w)
    ensures Step(w) == w
  {
  }

  lemma StaysFrom(w: World, k: nat)
    requires !CanStep(Steps(w, k))
    ensures forall n: nat | n >= k :: Steps(w, n) == Steps(w, k)
  {
    hide Step, Steps, CanStep;
    forall n: nat | n >= k ensures Steps(w, n) == Steps(w, k) {
      StepsSplit(w, k, n - k);
      StepsStay(Steps(w, k), n - k);
    }
  }

  /** All members have been looked at and none takes part. */
  ghost predicate NoVoters(w: World, budget: nat) {
    exists k | 0 <= k < budget :: Steps(w, k).stage.InitVoters? && !CanStep(Steps(w, k))
  }

  lemma VotersDecide(w: World, budget: nat, left: nat)
    requires UsesBudget(w, budget, left)
    ensures NoVoters(w, budget) <==> left > 0 && Steps(w, budget - left).stage.InitVoters?
  {
    hide CanStep, Steps;
    if left > 0 {
      StaysFrom(w, budget - left);
    }
  }

  lemma StepKeeps(w: World)
    requires Inv(w)
    ensures Inv(Step(w))
  {
    hide Inv;
    if w.stage.InitVoters? {
      PrepareStepKeeps(w);
    } else if w.stage.PostRound? {
      FinishStepKeeps(w);
    }
  }

  lemma {:induction false} StepsKeep(w: World, n: nat)
    requires Inv(w)
    ensures Inv(Steps(w, n))
    decreases n
  {
    hide Inv, Step;
    if n > 0 {
      StepKeeps(w);
      StepsKeep(Step(w), n - 1);
    }
  }

  // ---------------------------------------------------------------------------------------------
  // Steps keep the invariant
  // ---------------------------------------------------------------------------------------------

  lemma OrderInTable(w: World)
    requires VotersOk(w) && (w.stage.InitVoters? || w.stage.PostRound? || w.stage.Final?)
    ensures AllIn(w.stage.order, w.members)
  {
    forall i | 0 <= i < |w.stage.order| ensures w.stage.order[i] in w.members {
      assert IsVoter(w.stage, w.stage.order[i]);
    }
  }

  lemma FinishStepKeeps(w: World)
    requires Inv(w) && w.stage.PostRound?
    ensures AllIn(MembersOf(w.stage.ballots), w.members)
    ensures Inv(FinishStep(w))
  {
    VotersInTable(w);
    hide Inv;
    if |w.stage.ballots| > 0 {
      CountGroupKeeps(w);
    } else if |w.stage.order| == 0 {
    } else if w.stage.reported < |w.stage.order| {
      ReportNextKeeps(w);
    } else {
      ReportedAll(w);
      BeginNextKeeps(w);
    }
  }

  lemma ReportedAll(w: World)
    requires Inv(w) && (w.stage.InitVoters? || w.stage.PostRound?)
    ensures w.stage.reported <= |w.stage.order|
  {
  }

  lemma PrepareStepKeeps(w: World)
    requires Inv(w) && w.stage.InitVoters?
    ensures AllIn(w.stage.order, w.members)
    ensures Inv(PrepareStep(w))
  {
    OrderInTable(w);
    ReportedAll(w);
    hide Inv;
    if MoreMembers(w) {
      ProcessMemberKeeps(w, NextToProcess(w));
    } else if |w.stage.order| == 0 {
    } else if w.stage.reported < |w.stage.order| {
      ReportFirstKeeps(w);
    } else {
      BeginFirstKeeps(w);
    }
  }

  lemma NobodyRanked(w: World)
    requires Counts(w.members, Settled(w), w.ranks) && |w.ranks| == 0
    ensures forall m | m in Settled(w) :: !w.members[m].Represented()
  {
  }

  /** Opening the first round, or ending an election that has a single group. */
  lemma BeginFirstKeeps(w: World)
    requires Inv(w) && w.stage.InitVoters? && w.stage.reported == |w.stage.order| > 0 && !MoreMembers(w)
    requires AllIn(w.stage.order, w.members)
    ensures Inv(BeginFirst(w))
  {
    var order := w.stage.order;
    var n := |order|;
    ParticipantsFit(w);
    PlanLength(n);
    FirstConfigFacts(n);
    NobodyRanked(w);
    BeginParse(w.events, 0, n);
    var begun := w.(events := w.events + [BeginRoundVoting(0)]);
    if |PlanFor(n)| == 1 {
      SingleRoundReady(w, begun);
      FinishKeeps(begun, order, order[0]);
    } else {
      FirstRoundOpens(w);
    }
  }

  lemma SingleRoundReady(w: World, begun: World)
    requires MembersFine(w.members) && VotersOk(w) && Counts(w.members, Settled(w), w.ranks) && |w.ranks| == 0
    requires w.stage.InitVoters? && |w.stage.order| > 0 && !MoreMembers(w)
    requires begun == w.(events := begun.events)
    ensures ReadyToFinish(begun, w.stage.order, w.stage.order[0])
  {
    var order := w.stage.order;
    OrderInTable(w);
    NobodyRanked(w);
    hide Counts;
    assert Settled(w) == Others(begun, order);
    forall m | m in order ensures w.members[m].active {
      assert IsVoter(w.stage, m);
    }
  }

  lemma FirstRoundOpens(w: World)
    requires Inv(w) && w.stage.InitVoters? && w.stage.reported == |w.stage.order| > 0 && !MoreMembers(w)
    requires |PlanFor(|w.stage.order|)| > 1 && AllIn(w.stage.order, w.members)
    ensures Inv(BeginFirst(w))
  {
    var n, w' := |w.stage.order|, BeginFirst(w);
    ParticipantsFit(w);
    PlanLength(n);
    NobodyRanked(w);
    NoVotesMembers(w.stage.order);
    BeginParse(w.events, 0, n);
    hide Counts, PlanFor, FirstConfig, Rounds, ParseAll, MembersFine;
    SettledSame(w, w');
  }

  lemma NextIsUnique(members: MemberTable, last: Name, m: Name, k: Name)
    requires IsNext(members, last, m) && IsNext(members, last, k)
    ensures m == k
  {
  }

  lemma StepProcesses(w: World, m: Name)
    requires Inv(w) && w.stage.InitVoters? && IsNext(w.members, w.stage.last, m)
    ensures Step(w) == ProcessMember(w, m)
  {
    OrderInTable(w);
    hide Inv, ProcessMember;
    NextIsUnique(w.members, w.stage.last, m, NextToProcess(w));
  }

  // ---------------------------------------------------------------------------------------------
  // What happens in between
  // ---------------------------------------------------------------------------------------------

  function CastVote(w: World, i: nat, candidate: Name): World
    requires w.stage.Voting? && i < |w.stage.ballots|
  {
    var s := w.stage;
    w.(stage := Voting(s.round, s.config, s.ballots[i := Ballot(s.ballots[i].member, candidate)]))
  }

  lemma CastVoteKeeps(w: World, i: nat, candidate: Name)
    requires Inv(w) && w.stage.Voting? && i < |w.stage.ballots|
    ensures Inv(CastVote(w, i, candidate))
  {
    hide Counts, Rounds, FirstConfig, MembersFine, ParseAll;
    var w' := CastVote(w, i, candidate);
    assert MembersOf(w'.stage.ballots) == MembersOf(w.stage.ballots);
    SettledSame(w, w');
    LevelsSame(w, w');
  }

  function PutMember(w: World, m: Name, v: Member): World {
    w.(members := w.members[m := v])
  }

  /** A new member, or a pending member who becomes active, takes no part in a running election. */
  lemma PutMemberKeeps(w: World, m: Name, v: Member)
    requires Inv(w) && 0 < m < NOBODY && IsAccount(m)
    requires v == NEW_MEMBER || v == NEW_MEMBER.(active := true)
    requires m in w.members ==> !w.members[m].active
    requires v.active ==> |Actives(w.members)| < MAX_ACTIVE_MEMBERS
    ensures Inv(PutMember(w, m, v))
  {
    hide Rounds, FirstConfig, ParseOk, PlanFor;
    var w' := PutMember(w, m, v);
    assert !IsVoter(w.stage, m);
    ActivesPut(w.members, m, v);
    PutCounts(w, m, v);
    forall k | k in Settled(w') && w'.members[k].Represented() && (w.stage.Voting? || w.stage.PostRound? || w.stage.Final?)
      ensures RepAbove(w', k)
    {
      assert k != m && k in Settled(w) && RepAbove(w, k);
    }
  }

  lemma PutCounts(w: World, m: Name, v: Member)
    requires Counts(w.members, Settled(w), w.ranks) && !IsVoter(w.stage, m)
    requires !v.Represented() && v.rank == 0 && (m in w.members ==> !w.members[m].Represented() && w.members[m].rank == 0)
    ensures Counts(PutMember(w, m, v).members, Settled(PutMember(w, m, v)), w.ranks)
  {
    var w' := PutMember(w, m, v);
    var who := Settled(w) - {m};
    CountsLess(w.members, Settled(w), w.ranks, m);
    CountsFrame(w.members, w'.members, who, w.ranks);
    CountsUnranked(w'.members, who, w.ranks, m);
    assert Settled(w') == who || Settled(w') == who + {m};
  }

  lemma CountsLess(members: MemberTable, who: set<Name>, ranks: seq<nat>, m: Name)
    requires Counts(members, who, ranks) && (m in members ==> !members[m].Represented())
    ensures Counts(members, who - {m}, ranks)
  {
    forall k | 0 <= k < |ranks| ensures ranks[k] == |AtRank(members, who - {m}, k)| {
      assert AtRank(members, who - {m}, k) == AtRank(members, who, k);
    }
  }

  function DropMember(w: World, m: Name): World {
    w.(members := w.members - {m})
  }

  /** A pending member who is removed was nobody's representative. */
  lemma DropPendingKeeps(w: World, m: Name)
    requires Inv(w) && m in w.members && !w.members[m].active
    ensures Inv(DropMember(w, m))
  {
    hide Rounds, FirstConfig, ParseOk, PlanFor;
    var w' := DropMember(w, m);
    assert !IsVoter(w.stage, m);
    assert Actives(w'.members) == Actives(w.members);
    CountsLess(w.members, Settled(w), w.ranks, m);
    CountsFrame(w.members, w'.members, Settled(w) - {m}, w.ranks);
    assert Settled(w') == Settled(w) - {m};
    forall k | k in Settled(w') && w'.members[k].Represented() && (w.stage.Voting? || w.stage.PostRound? || w.stage.Final?)
      ensures RepAbove(w', k)
    {
      assert k in Settled(w) && RepAbove(w, k);
    }
  }

  /** A member leaves while no election is running. */
  function ResignMember(w: World, m: Name): World
    requires m in w.members
    requires w.members[m].Represented() ==> w.members[m].rank < |w.ranks| && w.ranks[w.members[m].rank] > 0
  {
    w.(members := w.members - {m}, ranks := UncountRank(w.ranks, w.members[m]))
  }

  lemma ResignKeeps(w: World, m: Name)
    requires Inv(w) && w.stage.Waiting? && m in w.members && w.members[m].active
    ensures w.members[m].Represented() ==> w.members[m].rank < |w.ranks| && w.ranks[w.members[m].rank] > 0
    ensures Inv(ResignMember(w, m))
  {
    hide ParseAll;
    SettledAll(w);
    hide Counts, UncountRank;
    RankStatsRemove(w.members, w.ranks, m);
    var w' := ResignMember(w, m);
    SettledAll(w');
    hide Settled, Actives;
    ActivesDrop(w.members, m);
  }

  /** Between elections every rank is final. */
  lemma SettledAll(w: World)
    requires w.stage.Waiting?
    ensures Settled(w) == w.members.Keys
  {
  }

  /** A member opts in or out while no election is running. */
  function Participate(w: World, m: Name, participation: nat): World
    requires m in w.members
  {
    w.(members := w.members[m := w.members[m].(participation := participation)])
  }

  lemma ParticipateKeeps(w: World, m: Name, participation: nat)
    requires Inv(w) && w.stage.Waiting? && m in w.members && w.members[m].active
    ensures Inv(Participate(w, m, participation))
  {
    var w' := Participate(w, m, participation);
    ActivesSame(w.members, w'.members);
    CountsFrame(w.members, w'.members, Settled(w), w.ranks);
    assert Settled(w') == Settled(w);
  }

  /** A member gets another account while no election is running; representatives follow, past events do not. */
  function RenameAccount(w: World, a: Name, b: Name): World
    requires a in w.members && b !in w.members
  {
    w.(members := Refunds.Renamed(w.members, a, b), lead := if w.lead == a then b else w.lead, board := RenamedBoard(w.board, a, b))
  }

  function RenamedBoard(board: seq<Name>, a: Name, b: Name): seq<Name> {
    seq(|board|, i requires 0 <= i < |board| => if board[i] == a then b else board[i])
  }

  lemma RenameAccountKeeps(w: World, a: Name, b: Name)
    requires Inv(w) && w.stage.Waiting? && a in w.members && b !in w.members
    requires 0 < b < NOBODY && IsAccount(b)
    ensures Inv(RenameAccount(w, a, b))
  {
    var w' := RenameAccount(w, a, b);
    SettledAll(w);
    SettledAll(w');
    RenamedFine(w.members, a, b);
    hide MembersFine, ParseAll, Settled;
    Refunds.RenamedRankStats(w.members, w.ranks, a, b);
  }

  lemma RenamedFine(members: MemberTable, a: Name, b: Name)
    requires MembersFine(members) && a in members && b !in members && 0 < b < NOBODY && IsAccount(b)
    ensures MembersFine(Refunds.Renamed(members, a, b)) && a != NOBODY && b != NOBODY
  {
    Treasury.RenamedMembers(NOBODY, members, |Actives(members)|, a, b);
  }

  function OpenSeeding(w: World, version: nat): World {
    w.(stage := Seeding(version), events := w.events + [Begin, SeedUpdate])
  }

  lemma OpenSeedingKeeps(w: World, version: nat)
    requires Inv(w) && w.stage.Waiting? && version > 0
    ensures Inv(OpenSeeding(w, version))
  {
    hide Counts, MembersFine, ParseAll;
    ParseMore(w.events, [Begin, SeedUpdate]);
    TwoEvents(Idle, [Begin, SeedUpdate]);
    SettledSame(w, OpenSeeding(w, version));
  }

  function UpdateSeed(w: World): World {
    w.(events := w.events + [SeedUpdate])
  }

  lemma UpdateSeedKeeps(w: World)
    requires Inv(w) && (w.stage.Seeding? || w.stage.Final?)
    ensures Inv(UpdateSeed(w))
  {
    hide Counts, MembersFine, ParseAll;
    ParseOne(w.events, SeedUpdate);
    SettledSame(w, UpdateSeed(w));
    if w.stage.Final? {
      LevelsSame(w, UpdateSeed(w));
    }
  }

  /** The statistics are cleared and voters are collected from the beginning. */
  function Start(w: World, seed: Seed): World
    requires w.stage.Seeding?
  {
    w.(stage := InitVoters(w.stage.version, 0, seed, [], 0), ranks := [], events := w.events + [EndSeeding])
  }

  lemma StartKeeps(w: World, seed: Seed)
    requires Inv(w) && w.stage.Seeding?
    ensures Inv(Start(w, seed))
  {
    ParseOne(w.events, EndSeeding);
    assert Settled(Start(w, seed)) == {};
  }

  function Reschedule(w: World): World {
    w.(events := w.events + [Schedule])
  }

  lemma RescheduleKeeps(w: World)
    requires Inv(w) && w.stage.Waiting?
    ensures Inv(Reschedule(w))
  {
    hide Counts, MembersFine, ParseAll;
    ParseOne(w.events, Schedule);
    SettledSame(w, Reschedule(w));
  }

  // ---------------------------------------------------------------------------------------------
  // Runs
  // ---------------------------------------------------------------------------------------------

  datatype Move =
    | Work(steps: nat)
    | CloseVoting(seed: Seed)
    | Cast(i: nat, candidate: Name)
    | Choose(draw: nat)
    | Put(m: Name, v: Member)
    | Drop(m: Name)
    | Leave(m: Name)
    | Opt(m: Name, participation: nat)
    | Rename(a: Name, b: Name)
    | OpenSeeds(version: nat)
    | AddSeed
    | StartNow(seed: Seed)
    | PutOff

  /** When a move is possible; the checks of the actions are modelled with the tables. */
  ghost predicate Enabled(w: World, move: Move) {
    match move
    case Work(_) => true
    case CloseVoting(_) => w.stage.Voting?
    case Cast(i, _) => w.stage.Voting? && i < |w.stage.ballots|
    case Choose(_) => w.stage.Final? && |w.stage.order| > 0 && AllIn(w.stage.order, w.members)
    case Put(m, v) =>
      && 0 < m < NOBODY && IsAccount(m)
      && (v == NEW_MEMBER || v == NEW_MEMBER.(active := true))
      && (m in w.members ==> !w.members[m].active)
      && (v.active ==> |Actives(w.members)| < MAX_ACTIVE_MEMBERS)
    case Drop(m) => m in w.members && !w.members[m].active
    case Leave(m) =>
      && w.stage.Waiting? && m in w.members && w.members[m].active
      && (w.members[m].Represented() ==> w.members[m].rank < |w.ranks| && w.ranks[w.members[m].rank] > 0)
    case Opt(m, _) => w.stage.Waiting? && m in w.members && w.members[m].active
    case Rename(a, b) =>
      w.stage.Waiting? && a in w.members && w.members[a].active && b !in w.members && 0 < b < NOBODY && IsAccount(b)
    case OpenSeeds(version) => w.stage.Waiting? && version > 0
    case AddSeed => w.stage.Seeding? || w.stage.Final?
    case StartNow(_) => w.stage.Seeding?
    case PutOff => w.stage.Waiting?
  }

  ghost function Apply(w: World, move: Move): World {
    if !Enabled(w, move) then w else
    match move
    case Work(n) => Steps(w, n)
    case CloseVoting(seed) => EndVote(w, seed)
    case Cast(i, candidate) => CastVote(w, i, candidate)
    case Choose(draw) => FinishElection(w, w.stage.order, ChosenMember(w, draw))
    case Put(m, v) => PutMember(w, m, v)
    case Drop(m) => DropMember(w, m)
    case Leave(m) => ResignMember(w, m)
    case Opt(m, participation) => Participate(w, m, participation)
    case Rename(a, b) => RenameAccount(w, a, b)
    case OpenSeeds(version) => OpenSeeding(w, version)
    case AddSeed => UpdateSeed(w)
    case StartNow(seed) => Start(w, seed)
    case PutOff => Reschedule(w)
  }

  function ChosenMember(w: World, draw: nat): Name
    requires w.stage.Final? && |w.stage.order| > 0 && AllIn(w.stage.order, w.members)
    ensures ChosenMember(w, draw) in w.stage.order && ChosenMember(w, draw) in w.members
  {
    w.stage.order[draw % |w.stage.order|]
  }

  lemma ApplyKeeps(w: World, move: Move)
    requires Inv(w)
    ensures Inv(Apply(w, move))
  {
    hide Inv, Steps, ProcessMember, FinishElection;
    if Enabled(w, move) {
      match move
      case Work(n) => StepsKeep(w, n);
      case CloseVoting(seed) => EndVoteKeeps(w, seed);
      case Cast(i, candidate) => CastVoteKeeps(w, i, candidate);
      case Choose(draw) => FinalKeeps(w, ChosenMember(w, draw));
      case Put(m, v) => PutMemberKeeps(w, m, v);
      case Drop(m) => DropPendingKeeps(w, m);
      case Leave(m) => ResignKeeps(w, m);
      case Opt(m, participation) => ParticipateKeeps(w, m, participation);
      case Rename(a, b) => RenameAccountKeeps(w, a, b);
      case OpenSeeds(version) => OpenSeedingKeeps(w, version);
      case AddSeed => UpdateSeedKeeps(w);
      case StartNow(seed) => StartKeeps(w, seed);
      case PutOff => RescheduleKeeps(w);
    }
  }

  ghost function Play(w: World, moves: seq<Move>): World
    decreases |moves|
  {
    if |moves| == 0 then w else Play(Apply(w, moves[0]), moves[1..])
  }

  lemma {:induction false} PlayKeeps(w: World, moves: seq<Move>)
    requires Inv(w)
    ensures Inv(Play(w, moves))
    decreases |moves|
  {
    hide Inv, Apply;
    if |moves| != 0 {
      ApplyKeeps(w, moves[0]);
      PlayKeeps(Apply(w, moves[0]), moves[1..]);
    }
  }

  /** A contract without members, before its first election. */
  const NOTHING := World(map[], [], Waiting, 0, [], [])

  /** Whatever happens in whatever order, the event trace follows the grammar and the statistics
      count exactly the settled members. */
  lemma EveryRun(moves: seq<Move>)
    ensures var w := Play(NOTHING, moves);
      && ParseAll(w.events) != Bad
      && Counts(w.members, Settled(w), w.ranks)
  {
    hide Play, Inv;
    NothingKeeps();
    PlayKeeps(NOTHING, moves);
    NotBad(Play(NOTHING, moves));
  }

  lemma NothingKeeps()
    ensures Inv(NOTHING)
  {
    assert Settled(NOTHING) == {};
    assert Actives(map[]) == {};
  }

  lemma NotBad(w: World)
    requires Inv(w)
    ensures ParseAll(w.events) != Bad
    ensures Counts(w.members, Settled(w), w.ranks)
  {
  }

  /** The number of voting rounds never exceeds the announced number, the final round has at most 11
      members, and the number read from the statistics is the number of the round. */
  lemma RoundsWithinAnnouncement(w: World)
    requires Inv(w) && (w.stage.Voting? || w.stage.Final?)
    ensures ParseAll(w.events).Open? && ParseAll(w.events).round == w.stage.round < ParseAll(w.events).rounds
    ensures |w.ranks| == w.stage.round
    ensures w.stage.Final? ==> |w.stage.order| < 12
  {
    if w.stage.Voting? {
      assert Rounds(|w.stage.ballots|) > 1;
    }
  }

  // ---------------------------------------------------------------------------------------------
  // Every election ends well
  // ---------------------------------------------------------------------------------------------

  lemma StepEnds(w: World)
    requires Inv(w) && !w.stage.Waiting? && Step(w).stage.Waiting?
    ensures Elected(Step(w))
  {
    if w.stage.InitVoters? {
      OrderInTable(w);
      ReportedAll(w);
      StepIsBegin(w);
      BeginFirstEnds(w);
    } else if w.stage.PostRound? {
      VotersInTable(w);
      FinishStepStays(w);
    }
  }

  lemma StepIsBegin(w: World)
    requires w.stage.InitVoters? && AllIn(w.stage.order, w.members) && w.stage.reported <= |w.stage.order|
    requires Step(w).stage.Waiting?
    ensures !MoreMembers(w) && |w.stage.order| > 0 && w.stage.reported == |w.stage.order|
    ensures Step(w) == BeginFirst(w)
  {
    hide Settle, PlanFor, FinishElection;
  }

  lemma FinishStepStays(w: World)
    requires w.stage.PostRound? && AllIn(MembersOf(w.stage.ballots), w.members)
    ensures !Step(w).stage.Waiting?
  {
    hide Settle, PlanFor, FirstConfig;
  }

  lemma BeginFirstEnds(w: World)
    requires Inv(w) && w.stage.InitVoters? && w.stage.reported == |w.stage.order| > 0 && !MoreMembers(w)
    requires AllIn(w.stage.order, w.members) && BeginFirst(w).stage.Waiting?
    ensures Elected(BeginFirst(w))
  {
    var order := w.stage.order;
    var n := |order|;
    ParticipantsFit(w);
    PlanLength(n);
    FirstConfigFacts(n);
    BeginParse(w.events, 0, n);
    var begun := w.(events := w.events + [BeginRoundVoting(0)]);
    hide Elected, FirstConfig, Rounds, ParseAll, PlanFor, Counts;
    SingleRoundReady(w, begun);
    FinishKeeps(begun, order, order[0]);
  }

  lemma {:induction false} StepsEnd(w: World, n: nat)
    requires Inv(w) && !w.stage.Waiting? && Steps(w, n).stage.Waiting?
    ensures Elected(Steps(w, n))
    decreases n
  {
    hide Inv, Elected, Step;
    if n > 0 {
      StepKeeps(w);
      if Step(w).stage.Waiting? {
        StepEnds(w);
        StepsStay(Step(w), n - 1);
      } else {
        StepsEnd(Step(w), n - 1);
      }
    }
  }

  /** Whenever a move ends an election: the rank counts equal the represented members at each rank,
      there is one lead representative at the top, and following representatives strictly increases
      the rank up to the lead or a failed-group marker. */
  lemma EveryElectionEndsElected(w: World, move: Move)
    requires Inv(w) && !w.stage.Waiting? && Apply(w, move).stage.Waiting?
    ensures Elected(Apply(w, move))
  {
    hide Inv, Elected, Steps, FinishElection;
    match move
    case Work(n) => StepsEnd(w, n);
    case Choose(draw) =>
      FinalKeeps(w, ChosenMember(w, draw));
    case _ =>
  }

  lemma EveryRunKeeps(moves: seq<Move>)
    ensures Inv(Play(NOTHING, moves))
  {
    hide Inv, Play;
    NothingKeeps();
    PlayKeeps(NOTHING, moves);
  }

  /** The same for every run from the beginning. */
  lemma EveryRunWithinAnnouncement(moves: seq<Move>)
    ensures var w := Play(NOTHING, moves);
      w.stage.Voting? || w.stage.Final? ==>
        && ParseAll(w.events).Open? && ParseAll(w.events).round == w.stage.round < ParseAll(w.events).rounds
        && |w.ranks| == w.stage.round
        && (w.stage.Final? ==> |w.stage.order| < 12)
  {
    hide Inv, Play, ParseAll;
    EveryRunKeeps(moves);
    var w := Play(NOTHING, moves);
    if w.stage.Voting? || w.stage.Final? {
      RoundsWithinAnnouncement(w);
    }
  }

  lemma EveryRunEndsElected(moves: seq<Move>, move: Move)
    ensures var w := Play(NOTHING, moves);
      !w.stage.Waiting? && Apply(w, move).stage.Waiting? ==> Elected(Apply(w, move))
  {
    hide Inv, Play, Apply, Elected;
    EveryRunKeeps(moves);
    var w := Play(NOTHING, moves);
    if !w.stage.Waiting? && Apply(w, move).stage.Waiting? {
      EveryElectionEndsElected(w, move);
    }
  }

  /** The outcome is what the distribution of the budget relies on. */
  lemma OutcomeFitsDistribution(self: Name, w: World)
    requires Inv(w) && Elected(w) && self !in w.members
    ensures Treasury.MembersOk(self, w.members, |Actives(w.members)|)
    ensures RankStats(w.members, w.ranks) && |w.ranks| >= 2 && w.ranks[|w.ranks| - 1] == 1
  {
  }
}
