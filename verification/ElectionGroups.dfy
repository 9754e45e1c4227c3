/** Which voters the events of an election name (contracts/eden/src/elections.cpp, report_create_group and
    finish_group; contracts/eden/include/events.hpp). */
module ElectionGroups {
  import opened Members
  import opened Shuffle
  import opened GroupVote
  import opened ElectionConfig
  import opened GroupIndex
  import opened ElectionModel
  import opened ElectionTrace
  import opened ElectionInvariant
  import opened ElectionRun
  import opened ElectionOrder
  import opened ElectionProgress

  // ---------------------------------------------------------------------------------------------
  // What a trace says of the running round
  // ---------------------------------------------------------------------------------------------

  /** The voters of the groups created since the round was created. */
  function Created(events: seq<Event>): seq<seq<Name>> {
    if |events| == 0 then [] else
      var init, last := events[..|events| - 1], events[|events| - 1];
      if last.CreateRound? then [] else if last.CreateGroup? then Created(init) + [last.voters] else Created(init)
  }

  /** The ballots of the groups reported since the round was created. */
  function Counted(events: seq<Event>): seq<seq<Ballot>> {
    if |events| == 0 then [] else
      var init, last := events[..|events| - 1], events[|events| - 1];
      if last.CreateRound? then [] else if last.ReportGroup? then Counted(init) + [last.votes] else Counted(init)
  }

  /** Whether the last round that was created is decided by votes. */
  predicate RequiresVoting(events: seq<Event>) {
    |events| > 0 &&
      var init, last := events[..|events| - 1], events[|events| - 1];
      if last.CreateRound? then last.requiresVoting else RequiresVoting(init)
  }

  /** The voters of a group, and those of them who voted for somebody, as places in the group. */
  function Voters(votes: seq<Ballot>): set<int> {
    set i | 0 <= i < |votes| && votes[i].candidate != 0
  }

  function VotersFor(votes: seq<Ballot>, c: Name): set<int> {
    set i | 0 <= i < |votes| && votes[i].candidate == c
  }

  /** A candidate has more than two thirds of the votes that were cast, among them its own. */
  predicate TwoThirds(votes: seq<Ballot>, c: Name) {
    c != 0 && Ballot(c, c) in votes && |VotersFor(votes, c)| * 3 > |Voters(votes)| * 2
  }

  /** What a group decides: the candidate with more than two thirds, or else nobody, which is written as the
      complement of the first member's name. */
  ghost predicate Outcome(votes: seq<Ballot>, winner: Name) {
    || TwoThirds(votes, winner)
    || ((forall c: Name :: !TwoThirds(votes, c)) && |votes| > 0 && winner == 0xFFFF_FFFF_FFFF_FFFF - votes[0].member)
  }

  /** Each group that was ever reported is the group created at the same place of its round. In a round with votes
      its winner follows from the ballots, otherwise it is a member of the group. */
  ghost predicate ReportsMatch(events: seq<Event>) {
    |events| > 0 ==>
      var init, last := events[..|events| - 1], events[|events| - 1];
      ReportsMatch(init) && (last.ReportGroup? ==> ReportFits(init, last))
  }

  ghost predicate ReportFits(events: seq<Event>, report: Event)
    requires report.ReportGroup?
  {
    && |Counted(events)| < |Created(events)|
    && MembersOf(report.votes) == Created(events)[|Counted(events)|]
    && if RequiresVoting(events) then Outcome(report.votes, report.winner) else report.winner in MembersOf(report.votes)
  }

  predicate Plain(e: Event) {
    !e.CreateRound? && !e.CreateGroup? && !e.ReportGroup?
  }

  lemma AddPlain(events: seq<Event>, e: Event)
    requires Plain(e)
    ensures Created(events + [e]) == Created(events) && Counted(events + [e]) == Counted(events)
    ensures ReportsMatch(events + [e]) <==> ReportsMatch(events)
  {
    assert (events + [e])[..|events|] == events;
  }

  lemma AddRound(events: seq<Event>, e: Event)
    requires e.CreateRound?
    ensures Created(events + [e]) == [] && Counted(events + [e]) == []
    ensures ReportsMatch(events + [e]) <==> ReportsMatch(events)
  {
    assert (events + [e])[..|events|] == events;
  }

  lemma AddGroup(events: seq<Event>, e: Event)
    requires e.CreateGroup?
    ensures Created(events + [e]) == Created(events) + [e.voters] && Counted(events + [e]) == Counted(events)
    ensures ReportsMatch(events + [e]) <==> ReportsMatch(events)
  {
    assert (events + [e])[..|events|] == events;
  }

  lemma AddReport(events: seq<Event>, e: Event)
    requires e.ReportGroup?
    ensures Created(events + [e]) == Created(events) && Counted(events + [e]) == Counted(events) + [e.votes]
    ensures ReportsMatch(events + [e]) <==> ReportsMatch(events) && ReportFits(events, e)
  {
    assert (events + [e])[..|events|] == events;
  }

  lemma {:induction false} AddPlains(events: seq<Event>, more: seq<Event>)
    requires forall i | 0 <= i < |more| :: Plain(more[i])
    ensures Created(events + more) == Created(events) && Counted(events + more) == Counted(events)
    ensures ReportsMatch(events + more) <==> ReportsMatch(events)
    decreases |more|
  {
    hide Plain, Created, Counted, ReportsMatch;
    if |more| == 0 {
      assert events + more == events;
    } else {
      var n := |more| - 1;
      AddPlains(events, more[..n]);
      AddPlain(events + more[..n], more[n]);
      assert events + more[..n] + [more[n]] == events + more;
    }
  }

  // ---------------------------------------------------------------------------------------------
  // Lists of groups
  // ---------------------------------------------------------------------------------------------

  /** The groups are those of the first `n` voters, each from its first index to the first index of the next. */
  predicate Listed(groups: seq<seq<Name>>, c: RoundConfig, order: seq<Name>, n: nat) {
    && Storable(c) && c.participants == |order| && |groups| <= c.groups
    && n == GroupToFirstMemberIndex(c, |groups|)
    && forall g | 0 <= g < |groups| :: IsGroup(groups[g], c, order, g)
  }

  predicate IsGroup(group: seq<Name>, c: RoundConfig, order: seq<Name>, g: nat)
    requires Storable(c)
  {
    && 0 <= GroupToFirstMemberIndex(c, g) <= GroupToFirstMemberIndex(c, g + 1) <= |order|
    && group == order[GroupToFirstMemberIndex(c, g)..GroupToFirstMemberIndex(c, g + 1)]
  }

  function Concat(groups: seq<seq<Name>>): seq<Name> {
    if |groups| == 0 then [] else Concat(groups[..|groups| - 1]) + groups[|groups| - 1]
  }

  lemma ListedNothing(c: RoundConfig, order: seq<Name>)
    requires Storable(c) && c.participants == |order|
    ensures Listed([], c, order, 0)
  {
    BoundaryAtStart(c);
  }

  lemma ListedMore(groups: seq<seq<Name>>, c: RoundConfig, order: seq<Name>, n: nat)
    requires Listed(groups, c, order, n) && n < |order| && c.Floor() >= 1 && c.Ceil() <= 11
    ensures var size := GroupSize(c, n, |order| - n);
      && size > 0 && |groups| < c.groups
      && Listed(groups + [order[n..n + size]], c, order, n + size)
      && IsGroup(order[n..n + size], c, order, |groups|)
  {
    NextBoundary(c, n, |groups|);
    hide GroupToFirstMemberIndex, IsGroup;
    var size := GroupSize(c, n, |order| - n);
    IsNextGroup(c, order, |groups|, n, size);
    var all := groups + [order[n..n + size]];
    forall g | 0 <= g < |all| ensures IsGroup(all[g], c, order, g) {
      assert g < |groups| ==> all[g] == groups[g];
    }
  }

  lemma IsNextGroup(c: RoundConfig, order: seq<Name>, g: nat, n: nat, size: nat)
    requires Storable(c) && n + size <= |order|
    requires GroupToFirstMemberIndex(c, g) == n && GroupToFirstMemberIndex(c, g + 1) == n + size
    ensures IsGroup(order[n..n + size], c, order, g)
  {
  }

  /** Put together, the groups are the voters in the order of their index. */
  lemma {:induction false} ListedConcat(groups: seq<seq<Name>>, c: RoundConfig, order: seq<Name>, n: nat)
    requires Listed(groups, c, order, n)
    ensures n <= |order| && Concat(groups) == order[..n]
    decreases |groups|
  {
    hide GroupToFirstMemberIndex;
    if |groups| == 0 {
      StartsAtNothing(c);
    } else {
      var g := |groups| - 1;
      assert IsGroup(groups[g], c, order, g);
      ListedConcat(groups[..g], c, order, GroupToFirstMemberIndex(c, g));
    }
  }

  lemma StartsAtNothing(c: RoundConfig)
    requires Storable(c)
    ensures GroupToFirstMemberIndex(c, 0) == 0
  {
    Ranges(c, 0);
  }

  // ---------------------------------------------------------------------------------------------
  // What holds in every run
  // ---------------------------------------------------------------------------------------------

  /** Some groups of a round with these voters are created: those of the first `n` voters. */
  predicate SomeCreated(groups: seq<seq<Name>>, order: seq<Name>, n: nat) {
    |order| > 0 && Listed(groups, FirstConfig(|order|), order, n)
  }

  predicate AllCreated(groups: seq<seq<Name>>, order: seq<Name>) {
    SomeCreated(groups, order, |order|)
  }

  /** The first `k` groups have been counted; the ballots are those of the others. */
  predicate CountedUpTo(created: seq<seq<Name>>, k: nat, c: RoundConfig, taken: nat, ballots: seq<Ballot>) {
    var all := Concat(created);
    && AllCreated(created, all) && c == FirstConfig(|all|)
    && k <= c.groups && taken == GroupToFirstMemberIndex(c, k) <= |all| && MembersOf(ballots) == all[taken..]
  }

  /** The groups created so far are those of the first voters of the round, in the order of their index; the groups
      reported so far are the first of those created. */
  ghost predicate GroupsNamed(w: World) {
    && ReportsMatch(w.events)
    && NamesFit(w.stage, Created(w.events), |Counted(w.events)|)
  }

  predicate NamesFit(s: Stage, created: seq<seq<Name>>, counted: nat) {
    match s
    case InitVoters(_, _, _, order, n) => n > 0 ==> counted == 0 && SomeCreated(created, order, n)
    case Voting(_, _, ballots) => counted == 0 && AllCreated(created, MembersOf(ballots))
    case PostRound(_, config, _, taken, ballots, order, n) =>
      if n > 0 then counted == 0 && SomeCreated(created, order, n) else CountedUpTo(created, counted, config, taken, ballots)
    case Final(_, order) => counted == 0 && AllCreated(created, order)
    case _ => true
  }

  /** The state of the trace knows whether the running round is decided by votes. */
  lemma {:induction false} VotingParsed(events: seq<Event>)
    ensures var p := ParseAll(events);
      && (p.Creating? || p.Open? || p.Reporting? || p.RoundOver? ==> p.voting == RequiresVoting(events))
      && (p.FinalSeeded? ==> !RequiresVoting(events))
    decreases |events|
  {
    if |events| > 0 {
      VotingParsed(events[..|events| - 1]);
    }
  }

  // ---------------------------------------------------------------------------------------------
  // Creating groups
  // ---------------------------------------------------------------------------------------------

  lemma ProcessMemberNames(w: World, m: Name)
    requires Inv(w) && GroupsNamed(w) && w.stage.InitVoters? && IsNext(w.members, w.stage.last, m)
    ensures GroupsNamed(ProcessMember(w, m))
  {
    hide ReportsMatch, Created, Counted, SomeCreated, ParseAll, Counts;
    if w.stage.reported > 0 {
      assert w.members[m].participation != w.stage.version;
    }
  }

  /** The events of the next group: it is created after those before it, in a new round if it is the first. */
  lemma GroupEventsName(events: seq<Event>, opening: seq<Event>, round: nat, order: seq<Name>, reported: nat, size: nat)
    requires |opening| == 2 && Plain(opening[0]) && opening[1].CreateRound? && reported + size <= |order|
    ensures var all := events + GroupEvents(opening, round, order, reported, size);
      && (ReportsMatch(all) <==> ReportsMatch(events))
      && Created(all) == (if reported == 0 then [] else Created(events)) + [order[reported..reported + size]]
      && Counted(all) == (if reported == 0 then [] else Counted(events))
  {
    hide ReportsMatch, Created, Counted, Plain;
    var group := CreateGroup(round, order[reported..reported + size]);
    if reported == 0 {
      var one, two := events + [opening[0]], events + [opening[0]] + [opening[1]];
      AddPlain(events, opening[0]);
      AddRound(one, opening[1]);
      AddGroup(two, group);
      assert events + GroupEvents(opening, round, order, reported, size) == two + [group];
    } else {
      AddGroup(events, group);
      assert events + GroupEvents(opening, round, order, reported, size) == events + [group];
    }
  }

  lemma NextCreated(created: seq<seq<Name>>, order: seq<Name>, reported: nat)
    requires 0 < |order| < WIDTH16 && reported < |order|
    requires reported > 0 ==> SomeCreated(created, order, reported)
    ensures var size := GroupSize(FirstConfig(|order|), reported, |order| - reported);
      && size > 0
      && SomeCreated((if reported == 0 then [] else created) + [order[reported..reported + size]], order, reported + size)
  {
    hide FirstConfig, Listed, PlanFor, Rounds, GroupSize, GroupToFirstMemberIndex;
    FirstConfigFacts(|order|);
    FirstConfigShape(|order|);
    if reported == 0 {
      ListedNothing(FirstConfig(|order|), order);
      ListedMore([], FirstConfig(|order|), order, 0);
    } else {
      ListedMore(created, FirstConfig(|order|), order, reported);
    }
  }

  lemma OpeningIs(e: Event, round: nat, n: nat)
    requires n > 0 && (e.ConfigSummary? || e.EndRound?)
    ensures var opening := [e, RoundEvent(round, n)];
      |opening| == 2 && Plain(opening[0]) && opening[1].CreateRound?
  {
    hide PlanFor;
  }

  /** A stage of reporting these voters, of which the first `reported` are reported. */
  predicate Reports(s: Stage, order: seq<Name>, reported: nat) {
    (s.InitVoters? || s.PostRound?) && s.order == order && s.reported == reported
  }

  lemma ReportNames(w: World, w': World, opening: seq<Event>, round: nat)
    requires GroupsNamed(w) && (w.stage.InitVoters? || w.stage.PostRound?) && w.stage.reported < |w.stage.order| < WIDTH16
    requires |opening| == 2 && Plain(opening[0]) && opening[1].CreateRound?
    requires var order, n := w.stage.order, w.stage.reported;
      var size := GroupSize(FirstConfig(|order|), n, |order| - n);
      && Reports(w'.stage, order, n + size)
      && w'.events == w.events + GroupEvents(opening, round, order, n, size)
    ensures GroupsNamed(w')
  {
    hide ReportsMatch, Created, Counted, SomeCreated, FirstConfig, Plain, GroupEvents, Reports, NamesFit, GroupSize;
    var order, n := w.stage.order, w.stage.reported;
    var size := GroupSize(FirstConfig(|order|), n, |order| - n);
    if n > 0 {
      NamesOf(w.stage, Created(w.events), |Counted(w.events)|);
    }
    NextCreated(Created(w.events), order, n);
    GroupEventsName(w.events, opening, round, order, n, size);
    ReportsFit(w'.stage, order, n + size, Created(w'.events));
  }

  lemma NamesOf(s: Stage, created: seq<seq<Name>>, counted: nat)
    requires NamesFit(s, created, counted) && (s.InitVoters? || s.PostRound?) && s.reported > 0
    ensures counted == 0 && SomeCreated(created, s.order, s.reported)
  {
  }

  lemma ReportsFit(s: Stage, order: seq<Name>, n: nat, created: seq<seq<Name>>)
    requires Reports(s, order, n) && n > 0 && SomeCreated(created, order, n)
    ensures NamesFit(s, created, 0)
  {
    hide SomeCreated;
  }

  lemma OrderFits(w: World)
    requires Inv(w) && (w.stage.InitVoters? || w.stage.PostRound?)
    ensures |w.stage.order| < WIDTH16
  {
    ParticipantsFit(w);
  }

  lemma ReportFirstNames(w: World)
    requires Inv(w) && GroupsNamed(w) && w.stage.InitVoters? && w.stage.reported < |w.stage.order|
    ensures GroupsNamed(ReportFirst(w))
  {
    hide Inv, GroupsNamed, PlanFor, FirstConfig, RoundEvent, Plain, GroupEvents;
    OrderFits(w);
    var n := |w.stage.order|;
    var opening := [ConfigSummary(|PlanFor(n)|, n), RoundEvent(0, n)];
    OpeningIs(opening[0], 0, n);
    ReportNames(w, ReportFirst(w), opening, 0);
  }

  lemma ReportNextNames(w: World)
    requires Inv(w) && GroupsNamed(w) && w.stage.PostRound? && w.stage.reported < |w.stage.order|
    ensures GroupsNamed(ReportNext(w))
  {
    hide Inv, GroupsNamed, PlanFor, FirstConfig, RoundEvent, Plain, GroupEvents;
    OrderFits(w);
    var opening := [EndRound(w.stage.round), RoundEvent(w.stage.round + 1, |w.stage.order|)];
    OpeningIs(opening[0], w.stage.round + 1, |w.stage.order|);
    ReportNames(w, ReportNext(w), opening, w.stage.round + 1);
  }

  // ---------------------------------------------------------------------------------------------
  // Opening rounds
  // ---------------------------------------------------------------------------------------------

  /** In a round with a single group that group is the whole round. */
  lemma OnlyGroup(created: seq<seq<Name>>, order: seq<Name>)
    requires AllCreated(created, order) && |order| < 12
    ensures created == [order]
  {
    FirstConfigFacts(|order|);
    SingleRoundIff(|order|);
    PlanLength(|order|);
    hide FirstConfig, PlanFor;
    StartsAtNothing(FirstConfig(|order|));
    ListedConcat(created, FirstConfig(|order|), order, |order|);
    assert |created| == 1;
    assert created[..0] == [];
    assert Concat(created) == [] + created[0];
    assert order[..|order|] == order;
  }

  lemma FinishNames(events: seq<Event>, round: nat, winner: Name, board: seq<Name>)
    requires ReportsMatch(events) && Created(events) == [board] && |Counted(events)| == 0
    requires !RequiresVoting(events) && winner in board
    ensures ReportsMatch(events + (if round > 0 then [EndSeeding] else []) + FinalEvents(round, winner, board))
  {
    var before := (if round > 0 then [EndSeeding] else []) + [EndRoundVoting(round)];
    var report := ReportGroup(round, winner, NoVotes(board));
    var after := [EndRound(round), EndElection, Schedule];
    AddPlains(events, before);
    StillNoVotes(events, before);
    NoVotesMembers(board);
    hide ReportsMatch, Created, Counted, Plain, RequiresVoting;
    AddReport(events + before, report);
    PlainEnd(round);
    AddPlains(events + before + [report], after);
    assert events + before + [report] + after
        == events + (if round > 0 then [EndSeeding] else []) + FinalEvents(round, winner, board);
  }

  lemma PlainEnd(round: nat)
    ensures var after := [EndRound(round), EndElection, Schedule];
      forall i | 0 <= i < |after| :: Plain(after[i])
  {
  }

  lemma {:induction false} StillNoVotes(events: seq<Event>, more: seq<Event>)
    requires forall i | 0 <= i < |more| :: Plain(more[i])
    ensures RequiresVoting(events + more) == RequiresVoting(events)
    decreases |more|
  {
    if |more| == 0 {
      assert events + more == events;
    } else {
      var n := |more| - 1;
      assert (events + more)[..|events + more| - 1] == events + more[..n];
      StillNoVotes(events, more[..n]);
    }
  }

  lemma ReportedWhole(w: World)
    requires GroupsNamed(w) && (w.stage.InitVoters? || w.stage.PostRound?) && w.stage.reported == |w.stage.order| > 0
    ensures |Counted(w.events)| == 0 && AllCreated(Created(w.events), w.stage.order)
  {
    hide Created, Counted, ReportsMatch, Listed, FirstConfig;
  }

  lemma BeginNames(w: World, w': World, more: seq<Event>)
    requires GroupsNamed(w) && (w.stage.InitVoters? || w.stage.PostRound?) && w.stage.reported == |w.stage.order| > 0
    requires w'.stage.Voting? || w'.stage.Final?
    requires (if w'.stage.Voting? then MembersOf(w'.stage.ballots) else w'.stage.order) == w.stage.order
    requires w'.events == w.events + more && forall i | 0 <= i < |more| :: Plain(more[i])
    ensures GroupsNamed(w')
  {
    ReportedWhole(w);
    hide Created, Counted, ReportsMatch, AllCreated, Plain;
    AddPlains(w.events, more);
  }

  lemma BeginFirstNames(w: World)
    requires Inv(w) && GroupsNamed(w) && w.stage.InitVoters? && w.stage.reported == |w.stage.order| > 0
    requires AllIn(w.stage.order, w.members)
    ensures GroupsNamed(BeginFirst(w))
  {
    var order := w.stage.order;
    var n := |order|;
    ReportedWhole(w);
    VotingParsed(w.events);
    NoVotesMembers(order);
    SingleRoundIff(n);
    PlanLength(n);
    hide ReportsMatch, Created, Counted, AllCreated, PlanFor, FirstConfig, ParseAll, RequiresVoting, NamesFit, Settle, Rounds;
    var begin := [BeginRoundVoting(0)];
    if |PlanFor(n)| == 1 {
      OnlyGroup(Created(w.events), order);
      AddPlains(w.events, begin);
      StillNoVotes(w.events, begin);
      FinishNames(w.events + begin, |w.ranks|, order[0], order);
      AfterFinish(w.(events := w.events + begin), order, order[0]);
    } else {
      BeginNames(w, BeginFirst(w), begin);
    }
  }

  lemma AfterFinish(w: World, board: seq<Name>, winner: Name)
    requires AllIn(board, w.members) && winner in w.members
    requires ReportsMatch(w.events + (if |w.ranks| > 0 then [EndSeeding] else []) + FinalEvents(|w.ranks|, winner, board))
    ensures GroupsNamed(FinishElection(w, board, winner))
  {
    hide ReportsMatch, Created, Counted, FinishElection;
    FinishShape(w, board, winner);
  }

  lemma BeginNextNames(w: World)
    requires Inv(w) && GroupsNamed(w) && w.stage.PostRound? && w.stage.reported == |w.stage.order| > 0
    ensures GroupsNamed(BeginNext(w))
  {
    hide Inv, GroupsNamed, PlanFor, FirstConfig, Rounds;
    NoVotesMembers(w.stage.order);
    var begin := [BeginRoundVoting(w.stage.round + 1)];
    var more := begin + if |PlanFor(|w.stage.order|)| == 1 then [SeedUpdate] else [];
    assert w.events + more == w.events + begin + more[1..];
    BeginNames(w, BeginNext(w), more);
  }

  lemma ChooseNames(w: World, winner: Name)
    requires Inv(w) && GroupsNamed(w) && w.stage.Final? && AllIn(w.stage.order, w.members) && winner in w.stage.order
    ensures winner in w.members && GroupsNamed(FinishElection(w, w.stage.order, winner))
  {
    VotingParsed(w.events);
    hide ReportsMatch, Created, Counted, AllCreated, ParseAll, RequiresVoting, FinishElection, Rounds;
    OnlyGroup(Created(w.events), w.stage.order);
    FinishNames(w.events, |w.ranks|, winner, w.stage.order);
    AfterFinish(w, w.stage.order, winner);
  }

  // ---------------------------------------------------------------------------------------------
  // Counting groups
  // ---------------------------------------------------------------------------------------------

  lemma NothingCounted(created: seq<seq<Name>>, ballots: seq<Ballot>)
    requires AllCreated(created, MembersOf(ballots))
    ensures CountedUpTo(created, 0, FirstConfig(|ballots|), 0, ballots)
  {
    hide FirstConfig, Listed, GroupToFirstMemberIndex;
    var all := MembersOf(ballots);
    ListedStorable(created, FirstConfig(|all|), all, |all|);
    ListedConcat(created, FirstConfig(|all|), all, |all|);
    StartsAtNothing(FirstConfig(|all|));
    assert all[..|all|] == all == all[0..];
  }

  lemma ListedStorable(groups: seq<seq<Name>>, c: RoundConfig, order: seq<Name>, n: nat)
    requires Listed(groups, c, order, n)
    ensures Storable(c)
  {
  }

  lemma EndVoteNames(w: World, seed: Seed)
    requires Inv(w) && GroupsNamed(w) && w.stage.Voting?
    ensures GroupsNamed(EndVote(w, seed))
  {
    hide ReportsMatch, Created, Counted, FirstConfig, Rounds, Counts, ParseAll, AllCreated, CountedUpTo, RepsOk, VotersOk, MembersFine;
    NothingCounted(Created(w.events), w.stage.ballots);
    AddPlain(w.events, EndRoundVoting(w.stage.round));
  }

  lemma {:induction false} VotesAreVoters(votes: seq<Ballot>, c: Name)
    ensures VotesFor(votes, c) == |VotersFor(votes, c)|
    decreases |votes|
  {
    if |votes| > 0 {
      var n := |votes| - 1;
      VotesAreVoters(votes[..n], c);
      assert VotersFor(votes, c) == VotersFor(votes[..n], c) + if votes[n].candidate == c then {n} else {};
    }
  }

  lemma {:induction false} CastAreVoters(votes: seq<Ballot>)
    ensures GroupVote.Cast(votes) == |Voters(votes)|
    decreases |votes|
  {
    if |votes| > 0 {
      var n := |votes| - 1;
      CastAreVoters(votes[..n]);
      assert Voters(votes) == Voters(votes[..n]) + if votes[n].candidate != 0 then {n} else {};
    }
  }

  lemma WinsIsTwoThirds(votes: seq<Ballot>, c: Name)
    ensures Wins(votes, c) <==> TwoThirds(votes, c)
  {
    VotesAreVoters(votes, c);
    CastAreVoters(votes);
  }

  /** The winner of a counted group is what its ballots decide. */
  lemma WinnerIsOutcome(votes: seq<Ballot>)
    requires |votes| > 0 && votes[0].member <= NOBODY
    ensures Outcome(votes, GroupWinner(votes))
  {
    hide TwoThirds, Wins;
    match Winner(votes)
    case Some(winner) => WinsIsTwoThirds(votes, winner);
    case None =>
      forall c: Name ensures !TwoThirds(votes, c) {
        WinsIsTwoThirds(votes, c);
      }
  }

  /** The next ballots are those of the next group. */
  lemma NextGroupIs(created: seq<seq<Name>>, k: nat, c: RoundConfig, taken: nat, ballots: seq<Ballot>, size: nat)
    requires CountedUpTo(created, k, c, taken, ballots) && 0 < size <= |ballots|
    requires k < c.groups && GroupToFirstMemberIndex(c, k + 1) == taken + size && c.Floor() >= 1
    ensures k < |created| && MembersOf(ballots[..size]) == created[k]
    ensures CountedUpTo(created, k + 1, c, taken + size, ballots[size..])
  {
    hide GroupToFirstMemberIndex, FirstConfig, Listed;
    var all := Concat(created);
    GroupCreated(created, k, c, all, taken, size);
    MembersParts(ballots, size, all, taken);
  }

  lemma GroupCreated(created: seq<seq<Name>>, k: nat, c: RoundConfig, order: seq<Name>, first: nat, size: nat)
    requires Listed(created, c, order, |order|) && c.Floor() >= 1 && k < c.groups
    requires GroupToFirstMemberIndex(c, k) == first && GroupToFirstMemberIndex(c, k + 1) == first + size
    ensures k < |created| && first + size <= |order| && created[k] == order[first..first + size]
  {
    hide GroupToFirstMemberIndex;
    BoundaryAtEnd(c, |created|);
    assert IsGroup(created[k], c, order, k);
  }

  lemma MembersParts(ballots: seq<Ballot>, size: nat, all: seq<Name>, taken: nat)
    requires size <= |ballots| && taken <= |all| && MembersOf(ballots) == all[taken..]
    ensures taken + size <= |all|
    ensures MembersOf(ballots[..size]) == all[taken..taken + size]
    ensures MembersOf(ballots[size..]) == all[taken + size..]
  {
    assert MembersOf(ballots[..size]) == all[taken..][..size];
    assert MembersOf(ballots[size..]) == all[taken..][size..];
  }

  /** A report of the next group. */
  lemma ReportedNames(w: World, w': World, report: Event, size: nat)
    requires GroupsNamed(w) && w.stage.PostRound? && w.stage.reported == 0 && 0 < size <= |w.stage.ballots|
    requires var s, k := w.stage, |Counted(w.events)|;
      k < s.config.groups && s.config.Floor() >= 1 && Storable(s.config)
      && GroupToFirstMemberIndex(s.config, k + 1) == s.taken + size
    requires report.ReportGroup? && report.votes == w.stage.ballots[..size]
    requires RequiresVoting(w.events) && Outcome(report.votes, report.winner)
    requires w'.events == w.events + [report] && w'.stage.PostRound? && w'.stage.config == w.stage.config
    requires w'.stage.taken == w.stage.taken + size && w'.stage.ballots == w.stage.ballots[size..] && w'.stage.reported == 0
    ensures GroupsNamed(w')
  {
    var s, k := w.stage, |Counted(w.events)|;
    hide ReportsMatch, Created, Counted, CountedUpTo, RequiresVoting, Outcome, GroupToFirstMemberIndex;
    NextGroupIs(Created(w.events), k, s.config, s.taken, s.ballots, size);
    AddReport(w.events, report);
  }

  lemma CountGroupNames(w: World)
    requires Inv(w) && GroupsNamed(w) && w.stage.PostRound? && |w.stage.ballots| > 0
    requires AllIn(MembersOf(w.stage.ballots), w.members)
    ensures GroupsNamed(CountGroup(w))
  {
    var s, group := w.stage, NextGroup(w.stage);
    CountedBoundary(w);
    hide GroupsNamed, Created, Counted, FirstConfig, Rounds, ParseAll, RequiresVoting, CountGroup, GroupWinner, Settle, GroupSize, Outcome, Counts, GroupToFirstMemberIndex, Insert, Voted, Missing;
    GroupBounds(w);
    WinnerFacts(w);
    CountGroupIs(w);
    VotingParsed(w.events);
    FirstMemberBelow(w);
    WinnerIsOutcome(group);
    ReportedNames(w, CountGroup(w), ReportGroup(s.round, GroupWinner(group), group), |group|);
  }

  lemma FirstMemberBelow(w: World)
    requires Inv(w) && w.stage.PostRound? && |NextGroup(w.stage)| > 0
    ensures NextGroup(w.stage)[0].member <= NOBODY
  {
    WinnerFacts(w);
    VoterIsMember(NextGroup(w.stage), 0);
  }

  lemma CountedBoundary(w: World)
    requires Inv(w) && GroupsNamed(w) && w.stage.PostRound? && |w.stage.ballots| > 0
    ensures var s, k := w.stage, |Counted(w.events)|;
      && s.reported == 0 && k < s.config.groups && s.config.Floor() >= 1
      && GroupToFirstMemberIndex(s.config, k + 1) == s.taken + |NextGroup(s)|
  {
    var s, k := w.stage, |Counted(w.events)|;
    FirstConfigShape(s.config.participants);
    hide ReportsMatch, Created, Counted, FirstConfig, Rounds, ParseAll, Counts;
    NextGroupBoundary(w, k);
  }

  // ---------------------------------------------------------------------------------------------
  // Every run
  // ---------------------------------------------------------------------------------------------

  lemma CastVoteNames(w: World, i: nat, candidate: Name)
    requires GroupsNamed(w) && w.stage.Voting? && i < |w.stage.ballots|
    ensures GroupsNamed(CastVote(w, i, candidate))
  {
    hide ReportsMatch, Created, Counted, AllCreated;
    assert MembersOf(CastVote(w, i, candidate).stage.ballots) == MembersOf(w.stage.ballots);
  }

  lemma StepNames(w: World)
    requires Inv(w) && GroupsNamed(w)
    ensures GroupsNamed(Step(w))
  {
    if w.stage.InitVoters? {
      OrderInTable(w);
      PrepareStepNames(w);
    } else if w.stage.PostRound? {
      VotersInTable(w);
      FinishStepNames(w);
    }
  }

  lemma PrepareStepNames(w: World)
    requires Inv(w) && GroupsNamed(w) && w.stage.InitVoters? && AllIn(w.stage.order, w.members)
    ensures GroupsNamed(PrepareStep(w))
  {
    ReportedAll(w);
    hide Inv, GroupsNamed, ProcessMember, ReportFirst, BeginFirst;
    if MoreMembers(w) {
      ProcessMemberNames(w, NextToProcess(w));
    } else if |w.stage.order| == 0 {
    } else if w.stage.reported < |w.stage.order| {
      ReportFirstNames(w);
    } else {
      BeginFirstNames(w);
    }
  }

  lemma FinishStepNames(w: World)
    requires Inv(w) && GroupsNamed(w) && w.stage.PostRound? && AllIn(MembersOf(w.stage.ballots), w.members)
    ensures GroupsNamed(FinishStep(w))
  {
    ReportedAll(w);
    hide Inv, GroupsNamed, CountGroup, ReportNext, BeginNext;
    if |w.stage.ballots| > 0 {
      CountGroupNames(w);
    } else if |w.stage.order| == 0 {
    } else if w.stage.reported < |w.stage.order| {
      ReportNextNames(w);
    } else {
      BeginNextNames(w);
    }
  }

  lemma {:induction false} StepsName(w: World, n: nat)
    requires Inv(w) && GroupsNamed(w)
    ensures GroupsNamed(Steps(w, n))
    decreases n
  {
    hide Inv, GroupsNamed, Step;
    if n > 0 {
      StepNames(w);
      StepKeeps(w);
      StepsName(Step(w), n - 1);
    }
  }

  lemma PlainMove(w: World, w': World, more: seq<Event>)
    requires GroupsNamed(w) && w'.events == w.events + more && forall i | 0 <= i < |more| :: Plain(more[i])
    requires w'.stage == w.stage || w'.stage.Waiting? || w'.stage.Seeding? || (w'.stage.InitVoters? && w'.stage.reported == 0)
    ensures GroupsNamed(w')
  {
    hide ReportsMatch, Created, Counted, AllCreated, SomeCreated, CountedUpTo, Plain;
    AddPlains(w.events, more);
  }

  lemma ApplyNames(w: World, move: Move)
    requires Inv(w) && GroupsNamed(w)
    ensures GroupsNamed(Apply(w, move))
  {
    hide Inv, Steps, FinishElection, GroupsNamed, ReportsMatch, Created, Counted;
    if Enabled(w, move) {
      match move
      case Work(n) => StepsName(w, n);
      case CloseVoting(seed) => EndVoteNames(w, seed);
      case Cast(i, candidate) => CastVoteNames(w, i, candidate);
      case Choose(draw) => ChooseNames(w, ChosenMember(w, draw));
      case OpenSeeds(version) => PlainMove(w, OpenSeeding(w, version), [Begin, SeedUpdate]);
      case AddSeed => PlainMove(w, UpdateSeed(w), [SeedUpdate]);
      case StartNow(seed) => PlainMove(w, Start(w, seed), [EndSeeding]);
      case PutOff => PlainMove(w, Reschedule(w), [Schedule]);
      case _ => TableMove(w, move);
    }
  }

  lemma TableMove(w: World, move: Move)
    requires GroupsNamed(w) && Enabled(w, move) && (move.Put? || move.Drop? || move.Leave? || move.Opt? || move.Rename?)
    ensures GroupsNamed(Apply(w, move))
  {
    hide GroupsNamed;
    assert w.events == w.events + [];
    PlainMove(w, Apply(w, move), []);
  }

  lemma {:induction false} PlayNames(w: World, moves: seq<Move>)
    requires Inv(w) && GroupsNamed(w)
    ensures GroupsNamed(Play(w, moves))
    decreases |moves|
  {
    hide Inv, GroupsNamed, Apply;
    if |moves| != 0 {
      ApplyNames(w, moves[0]);
      ApplyKeeps(w, moves[0]);
      PlayNames(Apply(w, moves[0]), moves[1..]);
    }
  }

  /** Whatever happens in whatever order: the groups created in a round are those of its voters in the order of
      their index, each from the first index of the group to the first index of the next; and every group ever
      reported is the one created at its place, with the winner that its ballots decide. */
  lemma EveryRunNamesGroups(moves: seq<Move>)
    ensures GroupsNamed(Play(NOTHING, moves))
  {
    hide Inv, Play, GroupsNamed;
    NothingKeeps();
    NothingNamed();
    PlayNames(NOTHING, moves);
  }

  lemma NothingNamed()
    ensures GroupsNamed(NOTHING)
  {
  }
}
