/** An election as a sequence of single steps over sorted lists of voters
    (contracts/eden/src/elections.cpp, contracts/eden/include/elections.hpp,
    contracts/eden/include/events.hpp). The class in ElectionEngine.dfy works on the tables and
    refines these steps. */
module ElectionModel {
  import opened Basics
  import opened Members
  import opened Shuffle
  import opened GroupVote
  import opened ElectionConfig
  import opened GroupIndex

  /** A seeded generator: its k-th draw decides a position from 0 to k. */
  type Seed = nat -> nat

  function Draw(seed: Seed, k: nat): (pos: nat)
    ensures pos <= k
  {
    seed(k) % (k + 1)
  }

  // ---------------------------------------------------------------------------------------------
  // State
  // ---------------------------------------------------------------------------------------------

  datatype Event =
    | Schedule
    | Begin
    | SeedUpdate
    | EndSeeding
    | ConfigSummary(numRounds: nat, numParticipants: nat)
    | CreateRound(round: nat, requiresVoting: bool, participants: nat, groups: nat)
    | CreateGroup(round: nat, voters: seq<Name>)
    | BeginRoundVoting(round: nat)
    | EndRoundVoting(round: nat)
    | ReportGroup(round: nat, winner: Name, votes: seq<Ballot>)
    | EndRound(round: nat)
    | EndElection

  /** `ballots` are the rows of the running round that have not been counted, `order` the voters of
      the next round, both in the order of the secondary index. */
  datatype Stage =
    | Waiting
    | Seeding(version: nat)
    | InitVoters(version: nat, last: Name, seed: Seed, order: seq<Name>, reported: nat)
    | Voting(round: nat, config: RoundConfig, ballots: seq<Ballot>)
    | PostRound(round: nat, config: RoundConfig, seed: Seed, taken: nat, ballots: seq<Ballot>, order: seq<Name>, reported: nat)
    | Final(round: nat, order: seq<Name>)

  datatype World = World(members: MemberTable, ranks: seq<nat>, stage: Stage, lead: Name, board: seq<Name>, events: seq<Event>)

  function MembersOf(ballots: seq<Ballot>): (r: seq<Name>)
    ensures |r| == |ballots|
  {
    seq(|ballots|, i requires 0 <= i < |ballots| => ballots[i].member)
  }

  function NoVotes(order: seq<Name>): (r: seq<Ballot>)
    ensures |r| == |order|
  {
    seq(|order|, i requires 0 <= i < |order| => Ballot(order[i], 0))
  }

  /** The failed-group marker: the complement of a 64-bit name. */
  function Marker(m: Name): Name {
    if m <= NOBODY then NOBODY - m else 0
  }

  predicate IsAccount(m: Name) {
    m % 16 == 0
  }

  /** The size of the group at `next`, never more than what is left. */
  function GroupSize(c: RoundConfig, next: nat, left: nat): (size: nat)
    ensures size <= left
  {
    if Storable(c) && WalkSize(c, next) <= left then WalkSize(c, next) else left
  }

  // ---------------------------------------------------------------------------------------------
  // Setting ranks
  // ---------------------------------------------------------------------------------------------

  /** set_rank for every listed member except the representative itself. */
  function Settle(members: MemberTable, ranks: seq<nat>, ms: seq<Name>, rank: nat, rep: Name): (r: (MemberTable, seq<nat>))
    requires forall i | 0 <= i < |ms| :: ms[i] in members
    ensures r.0.Keys == members.Keys
  {
    if |ms| == 0 then (members, ranks) else
      var n := |ms| - 1;
      var (t, c) := Settle(members, ranks, ms[..n], rank, rep);
      if ms[n] == rep then (t, c) else (WithRank(t, ms[n], rank, rep), CountRank(c, rank, rep))
  }

  predicate AllIn(ms: seq<Name>, members: MemberTable) {
    forall i | 0 <= i < |ms| :: ms[i] in members
  }

  // ---------------------------------------------------------------------------------------------
  // Preparing the first round
  // ---------------------------------------------------------------------------------------------

  /** One member is looked at: participants become voters, other active members lose their rank. */
  function ProcessMember(w: World, m: Name): World
    requires w.stage.InitVoters? && m in w.members
  {
    var v := w.members[m];
    var stage := w.stage.(last := m);
    if !v.active then
      w.(stage := stage)
    else if v.participation == w.stage.version then
      var s := w.stage;
      w.(stage := InitVoters(s.version, m, s.seed, Insert(s.order, m, Draw(s.seed, |s.order|)), s.reported))
    else
      w.(stage := stage,
         members := WithRank(w.members, m, 0, NOBODY),
         ranks := CountRank(w.ranks, 0, NOBODY))
  }

  /** The events that open a round, followed by its next group. */
  function GroupEvents(opening: seq<Event>, round: nat, order: seq<Name>, reported: nat, size: nat): seq<Event>
    requires reported + size <= |order|
  {
    (if reported == 0 then opening else []) + [CreateGroup(round, order[reported..reported + size])]
  }

  function RoundEvent(round: nat, n: nat): Event
    requires n > 0
  {
    var configs := PlanFor(n);
    CreateRound(round, |configs| > 1, configs[0].participants, configs[0].groups)
  }

  function FirstConfig(n: nat): RoundConfig
    requires n > 0
  {
    PlanFor(n)[0]
  }

  /** The next group of the first round is reported. */
  function ReportFirst(w: World): World
    requires w.stage.InitVoters? && w.stage.reported < |w.stage.order|
  {
    var order, reported := w.stage.order, w.stage.reported;
    var n := |order|;
    var size := GroupSize(FirstConfig(n), reported, n - reported);
    var opening := [ConfigSummary(|PlanFor(n)|, n), RoundEvent(0, n)];
    w.(stage := InitVoters(w.stage.version, w.stage.last, w.stage.seed, order, reported + size),
       events := w.events + GroupEvents(opening, 0, order, reported, size))
  }

  /** All groups are reported: voting begins, or a single group ends the election at once with its
      first member as the winner. */
  function BeginFirst(w: World): World
    requires w.stage.InitVoters? && |w.stage.order| > 0 && AllIn(w.stage.order, w.members)
  {
    var order := w.stage.order;
    var begun := w.(events := w.events + [BeginRoundVoting(0)]);
    if |PlanFor(|order|)| == 1 then
      FinishElection(begun, order, order[0])
    else
      begun.(stage := Voting(0, FirstConfig(|order|), NoVotes(order)))
  }

  // ---------------------------------------------------------------------------------------------
  // Finishing a round
  // ---------------------------------------------------------------------------------------------

  function EndVote(w: World, seed: Seed): World
    requires w.stage.Voting?
  {
    w.(stage := PostRound(w.stage.round, w.stage.config, seed, 0, w.stage.ballots, [], 0),
       events := w.events + [EndRoundVoting(w.stage.round)])
  }

  ghost function GroupWinner(group: seq<Ballot>): Name
    requires |group| > 0
  {
    match Winner(group)
    case Some(winner) => winner
    case None => Marker(group[0].member)
  }

  /** One group is counted: its winner moves on, everybody else settles at this round's rank. */
  ghost function CountGroup(w: World): World
    requires w.stage.PostRound? && |w.stage.ballots| > 0 && AllIn(MembersOf(w.stage.ballots), w.members)
  {
    var s := w.stage;
    var size := GroupSize(s.config, s.taken, |s.ballots|);
    if size == 0 then w else
    var group := s.ballots[..size];
    var winner := GroupWinner(group);
    VotedAreMembers(group);
    GroupMembersIn(s.ballots, size, w.members);
    var (members, ranks) := Settle(w.members, w.ranks, Voted(group) + Missing(group), s.round, winner);
    World(members, ranks,
          s.(taken := s.taken + size,
             ballots := s.ballots[size..],
             order := if IsAccount(winner) then Insert(s.order, winner, Draw(s.seed, |s.order|)) else s.order),
          w.lead, w.board, w.events + [ReportGroup(s.round, winner, group)])
  }

  /** The next group of the next round is reported. */
  function ReportNext(w: World): World
    requires w.stage.PostRound? && w.stage.reported < |w.stage.order|
  {
    var s := w.stage;
    var n := |s.order|;
    var size := GroupSize(FirstConfig(n), s.reported, n - s.reported);
    var opening := [EndRound(s.round), RoundEvent(s.round + 1, n)];
    w.(stage := PostRound(s.round, s.config, s.seed, s.taken, s.ballots, s.order, s.reported + size),
       events := w.events + GroupEvents(opening, s.round + 1, s.order, s.reported, size))
  }

  /** All groups of the next round are reported. */
  function BeginNext(w: World): World
    requires w.stage.PostRound? && |w.stage.order| > 0
  {
    var s := w.stage;
    var events := w.events + [BeginRoundVoting(s.round + 1)];
    if |PlanFor(|s.order|)| == 1 then
      w.(stage := Final(s.round + 1, s.order), events := events + [SeedUpdate])
    else
      w.(stage := Voting(s.round + 1, FirstConfig(|s.order|), NoVotes(s.order)), events := events)
  }

  /** One step of finishing a round. Without any winner there is no next round and nothing more
      happens. */
  ghost function FinishStep(w: World): World
    requires w.stage.PostRound? && AllIn(MembersOf(w.stage.ballots), w.members)
  {
    if |w.stage.ballots| > 0 then CountGroup(w)
    else if |w.stage.order| == 0 then w
    else if w.stage.reported < |w.stage.order| then ReportNext(w)
    else BeginNext(w)
  }

  // ---------------------------------------------------------------------------------------------
  // Finishing an election
  // ---------------------------------------------------------------------------------------------

  /** The number of the final round is read from the length of the rank statistics. */
  function FinishElection(w: World, board: seq<Name>, winner: Name): World
    requires AllIn(board, w.members) && winner in w.members
  {
    var round := |w.ranks|;
    var (members, ranks) := Settle(w.members, w.ranks, board, round, winner);
    World(WithRank(members, winner, round + 1, winner),
          CountRank(ranks, round + 1, winner),
          Waiting, winner, board,
          w.events + (if round > 0 then [EndSeeding] else []) + FinalEvents(round, winner, board))
  }

  function FinalEvents(round: nat, winner: Name, board: seq<Name>): seq<Event> {
    [EndRoundVoting(round), ReportGroup(round, winner, NoVotes(board)), EndRound(round), EndElection, Schedule]
  }

  // ---------------------------------------------------------------------------------------------
  // Facts about lists of ballots
  // ---------------------------------------------------------------------------------------------

  lemma {:induction false} VotedAreMembers(group: seq<Ballot>)
    ensures forall i | 0 <= i < |Voted(group)| :: Voted(group)[i] in MembersOf(group)
    ensures forall i | 0 <= i < |Missing(group)| :: Missing(group)[i] in MembersOf(group)
    decreases |group|
  {
    if |group| != 0 {
      var rest := group[..|group| - 1];
      VotedAreMembers(rest);
      assert MembersOf(group) == MembersOf(rest) + [group[|group| - 1].member];
    }
  }

  lemma GroupMembersIn(ballots: seq<Ballot>, size: nat, members: MemberTable)
    requires AllIn(MembersOf(ballots), members) && size <= |ballots|
    ensures forall m | m in MembersOf(ballots[..size]) :: m in members
  {
    forall m | m in MembersOf(ballots[..size]) ensures m in members {
      var i :| 0 <= i < size && MembersOf(ballots[..size])[i] == m;
      assert MembersOf(ballots)[i] == m;
    }
  }
}
