/** The order of election events (contracts/eden/include/events.hpp) as automata: `Feed` is the order of the
    code, in which an election with a single round has no final seeding, `FeedDocumented` the documented one. */
module ElectionTrace {
  import opened ElectionModel
  import opened Powers

  /** What has been seen of the running election. `rounds` is the announced number of rounds. */
  datatype Parse =
    | Idle
    | SeedingOpen
    | SeedingDone
    | Summarized(rounds: nat, participants: nat)
    | Creating(rounds: nat, round: nat, voting: bool, participants: nat, groups: nat, created: nat, seen: nat)
    | Open(rounds: nat, round: nat, voting: bool, groups: nat)
    | FinalSeeded(rounds: nat, round: nat)
    | Reporting(rounds: nat, round: nat, voting: bool, groups: nat, reported: nat)
    | RoundOver(rounds: nat, round: nat, voting: bool)
    | Bad

  function Feed(p: Parse, e: Event): Parse {
    match e
    case Schedule => if p.Idle? then Idle else Bad
    case Begin => if p.Idle? then SeedingOpen else Bad
    case SeedUpdate =>
      if p.SeedingOpen? || (p.Open? && !p.voting && p.round > 0) then p else Bad
    case EndSeeding =>
      if p.SeedingOpen? then SeedingDone
      else if p.Open? && !p.voting && p.round > 0 then FinalSeeded(p.rounds, p.round)
      else Bad
    case ConfigSummary(rounds, participants) =>
      if p.SeedingDone? && rounds > 0 then Summarized(rounds, participants) else Bad
    case CreateRound(round, voting, participants, groups) =>
      if !voting && groups != 1 then Bad
      else if p.Summarized? && round == 0 && participants == p.participants && voting == (p.rounds > 1) then
        Creating(p.rounds, 0, voting, participants, groups, 0, 0)
      else if p.RoundOver? && p.voting && round == p.round + 1 && round < p.rounds then
        Creating(p.rounds, round, voting, participants, groups, 0, 0)
      else Bad
    case CreateGroup(round, voters) =>
      if p.Creating? && round == p.round && p.created < p.groups && |voters| > 0
      then p.(created := p.created + 1, seen := p.seen + |voters|) else Bad
    case BeginRoundVoting(round) =>
      if p.Creating? && round == p.round && p.created == p.groups && p.seen == p.participants
      then Open(p.rounds, round, p.voting, p.groups) else Bad
    case EndRoundVoting(round) =>
      if p.Open? && round == p.round && (p.voting || round == 0) then Reporting(p.rounds, round, p.voting, p.groups, 0)
      else if p.FinalSeeded? && round == p.round then Reporting(p.rounds, round, false, 1, 0)
      else Bad
    case ReportGroup(round, _, _) =>
      if p.Reporting? && round == p.round && p.reported < p.groups
      then Reporting(p.rounds, round, p.voting, p.groups, p.reported + 1) else Bad
    case EndRound(round) =>
      if p.Reporting? && round == p.round && p.reported == p.groups then RoundOver(p.rounds, round, p.voting) else Bad
    case EndElection => if p.RoundOver? && !p.voting then Idle else Bad
  }

  function ParseAll(events: seq<Event>): Parse {
    if |events| == 0 then Idle else Feed(ParseAll(events[..|events| - 1]), events[|events| - 1])
  }

  lemma ParseOne(events: seq<Event>, e: Event)
    ensures ParseAll(events + [e]) == Feed(ParseAll(events), e)
  {
    assert (events + [e])[..|events|] == events;
  }

  function FeedAll(p: Parse, events: seq<Event>): Parse
    decreases |events|
  {
    if |events| == 0 then p else FeedAll(Feed(p, events[0]), events[1..])
  }

  lemma {:induction false} ParseMore(events: seq<Event>, more: seq<Event>)
    ensures ParseAll(events + more) == FeedAll(ParseAll(events), more)
    decreases |more|
  {
    hide Feed;
    if |more| == 0 {
      assert events + more == events;
    } else {
      ParseOne(events, more[0]);
      ParseMore(events + [more[0]], more[1..]);
      assert events + [more[0]] + more[1..] == events + more;
    }
  }

  /** A bad trace stays bad: an accepted trace has only accepted prefixes. */
  lemma {:induction false} BadStaysBad(events: seq<Event>, k: nat)
    requires k <= |events| && ParseAll(events) != Bad
    ensures ParseAll(events[..k]) != Bad
    decreases |events|
  {
    if k < |events| {
      assert events[..|events| - 1][..k] == events[..k];
      BadStaysBad(events[..|events| - 1], k);
    } else {
      assert events[..k] == events;
    }
  }

  // ---------------------------------------------------------------------------------------------
  // The documented order
  // ---------------------------------------------------------------------------------------------

  /** Every final round, also the only one of an election, has its seeding before its voting ends. */
  function FeedDocumented(p: Parse, e: Event): Parse {
    if p.Open? && !p.voting then
      match e
      case SeedUpdate => p
      case EndSeeding => FinalSeeded(p.rounds, p.round)
      case _ => Bad
    else Feed(p, e)
  }

  function ParseDocumented(events: seq<Event>): Parse {
    if |events| == 0 then Idle else FeedDocumented(ParseDocumented(events[..|events| - 1]), events[|events| - 1])
  }

  /** The participants of the last announcement. */
  function LastVoters(events: seq<Event>): nat {
    if |events| == 0 then 0
    else if events[|events| - 1].ConfigSummary? then events[|events| - 1].numParticipants
    else LastVoters(events[..|events| - 1])
  }

  /** An election that announced fewer than 12 participants has ended. */
  predicate SmallElectionEnded(events: seq<Event>) {
    |events| > 0
    && (SmallElectionEnded(events[..|events| - 1])
        || (events[|events| - 1].EndElection? && LastVoters(events[..|events| - 1]) < 12))
  }

  /** The announced rounds are the least number r, at least 1, for which 3 * 4^r exceeds the participants. */
  predicate SummaryFits(e: Event) {
    e.ConfigSummary? ==>
      && e.numRounds >= 1 && e.numParticipants < 3 * Pow(4, e.numRounds)
      && (e.numRounds > 1 ==> 3 * Pow(4, e.numRounds - 1) <= e.numParticipants)
  }

  /** A single round is announced exactly for fewer than 12 participants. */
  lemma SingleRoundBelow12(e: Event)
    requires SummaryFits(e) && e.ConfigSummary?
    ensures e.numRounds > 0 && (e.numRounds == 1 <==> e.numParticipants < 12)
  {
    assert Pow(4, 1) == 4 * Pow(4, 0);
    if e.numRounds > 1 {
      PowMonoExp(4, 1, e.numRounds - 1);
    }
  }

  predicate SummariesFit(events: seq<Event>) {
    forall i | 0 <= i < |events| :: SummaryFits(events[i])
  }

  predicate HasRounds(p: Parse) {
    !p.Idle? && !p.SeedingOpen? && !p.SeedingDone? && !p.Bad?
  }

  /** What an accepted trace says of the running election. */
  predicate RoundsFit(p: Parse, voters: nat) {
    && (HasRounds(p) ==> p.rounds > 0 && (p.rounds == 1 <==> voters < 12))
    && (p.Creating? || p.Open? ==> p.round < p.rounds && (p.round == 0 ==> p.voting == (p.rounds > 1)))
    && (p.FinalSeeded? ==> p.rounds > 1)
  }

  /** A single round is being closed. */
  predicate ClosesSingle(p: Parse) {
    (p.Reporting? || p.RoundOver?) && p.rounds == 1
  }

  lemma FeedFits(p: Parse, e: Event, voters: nat)
    requires RoundsFit(p, voters) && SummaryFits(e) && Feed(p, e) != Bad
    ensures RoundsFit(Feed(p, e), if e.ConfigSummary? then e.numParticipants else voters)
    ensures FeedDocumented(p, e) == Bad <==> e.EndRoundVoting? && p.Open? && p.rounds == 1
    ensures FeedDocumented(p, e) != Bad ==> FeedDocumented(p, e) == Feed(p, e)
    ensures ClosesSingle(Feed(p, e)) <==> (ClosesSingle(p) && !e.EndElection?) || (e.EndRoundVoting? && p.Open? && p.rounds == 1)
    ensures e.EndElection? ==> (voters < 12 <==> ClosesSingle(p))
  {
    if e.ConfigSummary? {
      SingleRoundBelow12(e);
    }
    hide SummaryFits;
  }

  /** An accepted trace follows the documented order exactly until a single round is closed. */
  lemma {:induction false} DocumentedUnlessSmall(events: seq<Event>)
    requires ParseAll(events) != Bad && SummariesFit(events)
    ensures RoundsFit(ParseAll(events), LastVoters(events))
    ensures ParseDocumented(events) == Bad <==> SmallElectionEnded(events) || ClosesSingle(ParseAll(events))
    ensures ParseDocumented(events) != Bad ==> ParseDocumented(events) == ParseAll(events)
    decreases |events|
  {
    hide Feed, FeedDocumented, RoundsFit, SummaryFits, ClosesSingle;
    if |events| > 0 {
      var init, e := events[..|events| - 1], events[|events| - 1];
      BadStaysBad(events, |events| - 1);
      DocumentedUnlessSmall(init);
      FeedFits(ParseAll(init), e, LastVoters(init));
      BadIsDead(e);
    } else {
      NothingFits();
    }
  }

  lemma BadIsDead(e: Event)
    ensures Feed(Bad, e) == FeedDocumented(Bad, e) == Bad
  {
  }

  lemma NothingFits()
    ensures RoundsFit(Idle, 0) && !ClosesSingle(Idle)
  {
  }
}
