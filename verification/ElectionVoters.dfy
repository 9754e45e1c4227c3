/** Who takes part in an election, for whom a member can vote, and what its group's result does to it
    (contracts/eden/src/elections.cpp, randomize_voters, vote, finish_round and finish_election). */
module ElectionVoters {
  import opened Members
  import opened Shuffle
  import opened GroupVote
  import opened ElectionConfig
  import opened GroupIndex
  import opened ElectionModel
  import opened ElectionTrace
  import opened ElectionInvariant
  import opened ElectionRun
  import opened ElectionEngine
  import opened ElectionGroups
  import Refunds

  // ---------------------------------------------------------------------------------------------
  // Who takes part
  // ---------------------------------------------------------------------------------------------

  /** The voters collected so far are the active members looked at who opted in for this election. The other active
      members looked at have lost their rank and their representative. */
  ghost predicate Collected(w: World) {
    match w.stage
    case InitVoters(version, last, _, order, _) =>
      && (forall m :: m in order <==>
            m in w.members && m <= last && w.members[m].active && w.members[m].participation == version)
      && (forall m | m in w.members && m <= last && w.members[m].active && w.members[m].participation != version ::
            w.members[m] == Member(true, 0, 0, 0xFFFF_FFFF_FFFF_FFFF))
    case _ => true
  }

  lemma ProcessMemberCollects(w: World, m: Name)
    requires Inv(w) && Collected(w) && w.stage.InitVoters? && IsNext(w.members, w.stage.last, m)
    ensures Collected(ProcessMember(w, m))
  {
    hide ParseOk, ParseAll, Counts, Actives;
    var s := w.stage;
    assert m !in s.order;
    if w.members[m].active && w.members[m].participation == s.version {
      InsertMembers(s.order, m, Draw(s.seed, |s.order|));
    }
  }

  lemma StepCollects(w: World)
    requires Inv(w) && Collected(w)
    ensures Collected(Step(w))
  {
    hide Inv, Settle, PlanFor, FirstConfig, ProcessMember, GroupWinner;
    if w.stage.InitVoters? {
      if AllIn(w.stage.order, w.members) && MoreMembers(w) {
        ProcessMemberCollects(w, NextToProcess(w));
      }
    }
  }

  lemma {:induction false} StepsCollect(w: World, n: nat)
    requires Inv(w) && Collected(w)
    ensures Collected(Steps(w, n))
    decreases n
  {
    hide Inv, Collected, Step;
    if n > 0 {
      StepCollects(w);
      StepKeeps(w);
      StepsCollect(Step(w), n - 1);
    }
  }

  lemma PutCollects(w: World, m: Name, v: Member)
    requires Inv(w) && Collected(w) && Enabled(w, Put(m, v))
    ensures Collected(PutMember(w, m, v))
  {
    hide ParseOk, ParseAll, Counts, Actives;
  }

  lemma StartCollects(w: World, seed: Seed)
    requires Inv(w) && w.stage.Seeding?
    ensures Collected(Start(w, seed))
  {
  }

  lemma ApplyCollects(w: World, move: Move)
    requires Inv(w) && Collected(w)
    ensures Collected(Apply(w, move))
  {
    hide Inv, Steps, FinishElection, Refunds.Renamed;
    if Enabled(w, move) {
      match move
      case Work(n) => StepsCollect(w, n);
      case Put(m, v) => PutCollects(w, m, v);
      case StartNow(seed) => StartCollects(w, seed);
      case Choose(draw) => FinishShape(w, w.stage.order, ChosenMember(w, draw));
      case _ =>
    }
  }

  lemma {:induction false} PlayCollects(w: World, moves: seq<Move>)
    requires Inv(w) && Collected(w)
    ensures Collected(Play(w, moves))
    decreases |moves|
  {
    hide Inv, Collected, Apply;
    if |moves| != 0 {
      ApplyCollects(w, moves[0]);
      ApplyKeeps(w, moves[0]);
      PlayCollects(Apply(w, moves[0]), moves[1..]);
    }
  }

  /** In every run the voters of an election are exactly the active members who opted in for it, as far as members
      have been looked at. */
  lemma EveryRunCollects(moves: seq<Move>)
    ensures Collected(Play(NOTHING, moves))
  {
    hide Inv, Play;
    NothingKeeps();
    PlayCollects(NOTHING, moves);
  }

  // ---------------------------------------------------------------------------------------------
  // Who can vote for whom
  // ---------------------------------------------------------------------------------------------

  /** A voter can vote for exactly the members of its own group, as the trace lists the groups. */
  lemma VotesInGroup(w: World, voter: Name, candidate: Name)
    requires Inv(w) && GroupsNamed(w) && w.stage.Voting?
    ensures MayVote(w, w.stage.round, voter, candidate)
       <==> exists group | group in Created(w.events) :: voter in group && candidate in group
  {
    hide Inv, GroupsNamed, Created, MayVote, AllListed;
    VotingGroups(w);
    if MayVote(w, w.stage.round, voter, candidate) {
      TogetherInGroup(w, Created(w.events), voter, candidate);
    }
    if group :| group in Created(w.events) && voter in group && candidate in group {
      GroupMayVote(w, Created(w.events), group, voter, candidate);
    }
  }

  lemma TogetherInGroup(w: World, groups: seq<seq<Name>>, voter: Name, candidate: Name)
    requires w.stage.Voting? && AllListed(groups, w.stage.config, MembersOf(w.stage.ballots))
    requires MayVote(w, w.stage.round, voter, candidate)
    ensures exists group | group in groups :: voter in group && candidate in group
  {
    hide MemberIndexToGroup, GroupToFirstMemberIndex, Listed;
    var c, order := w.stage.config, MembersOf(w.stage.ballots);
    var i, j := IndexOf(w, voter), IndexOf(w, candidate);
    ListedStorable(groups, c, order, |order|);
    IndexInItsGroup(c, i);
    var g := MemberIndexToGroup(c, i);
    IndexInItsGroup(c, j);
    InGroup(groups, c, order, g, i);
    InGroup(groups, c, order, g, j);
    assert order[i] == voter && order[j] == candidate;
    assert groups[g] in groups;
  }

  lemma GroupMayVote(w: World, groups: seq<seq<Name>>, group: seq<Name>, voter: Name, candidate: Name)
    requires w.stage.Voting? && DistinctMembers(w.stage.ballots)
    requires AllListed(groups, w.stage.config, MembersOf(w.stage.ballots))
    requires group in groups && voter in group && candidate in group
    ensures MayVote(w, w.stage.round, voter, candidate)
  {
    hide MemberIndexToGroup, Listed;
    var c, order := w.stage.config, MembersOf(w.stage.ballots);
    ListedStorable(groups, c, order, |order|);
    var g :| 0 <= g < |groups| && groups[g] == group;
    OfGroup(w, groups, g, voter);
    OfGroup(w, groups, g, candidate);
  }

  predicate AllListed(groups: seq<seq<Name>>, c: RoundConfig, order: seq<Name>) {
    Listed(groups, c, order, |order|) && |groups| == c.groups
  }

  lemma VotingGroups(w: World)
    requires Inv(w) && GroupsNamed(w) && w.stage.Voting?
    ensures AllListed(Created(w.events), w.stage.config, MembersOf(w.stage.ballots)) && DistinctMembers(w.stage.ballots)
  {
    var order := MembersOf(w.stage.ballots);
    FirstConfigShape(|order|);
    BoundaryAtEnd(FirstConfig(|order|), |Created(w.events)|);
  }

  lemma InGroup(groups: seq<seq<Name>>, c: RoundConfig, order: seq<Name>, g: nat, i: nat)
    requires AllListed(groups, c, order) && g < c.groups && i < |order|
    requires GroupToFirstMemberIndex(c, g) <= i < GroupToFirstMemberIndex(c, g + 1)
    ensures order[i] in groups[g]
  {
    hide GroupToFirstMemberIndex;
    assert IsGroup(groups[g], c, order, g);
    assert groups[g][i - GroupToFirstMemberIndex(c, g)] == order[i];
  }

  lemma OfGroup(w: World, groups: seq<seq<Name>>, g: nat, m: Name)
    requires w.stage.Voting? && DistinctMembers(w.stage.ballots)
    requires AllListed(groups, w.stage.config, MembersOf(w.stage.ballots)) && g < |groups| && m in groups[g]
    ensures m in MembersOf(w.stage.ballots)
    ensures IndexOf(w, m) < w.stage.config.participants && MemberIndexToGroup(w.stage.config, IndexOf(w, m)) == g
  {
    hide GroupToFirstMemberIndex, MemberIndexToGroup;
    var c, order := w.stage.config, MembersOf(w.stage.ballots);
    assert IsGroup(groups[g], c, order, g);
    var k :| 0 <= k < |groups[g]| && groups[g][k] == m;
    var i := GroupToFirstMemberIndex(c, g) + k;
    assert order[i] == m;
    var j := IndexOf(w, m);
    assert order[j] == m;
    assert i == j;
    GroupOfIndex(c, g, i);
  }

  /** An accepted vote is recorded for its voter and changes nothing else. */
  lemma VoteIsRecorded(w: World, voter: Name, candidate: Name)
    requires Inv(w) && VoterOf(w, voter)
    ensures var w' := CastVote(w, IndexOf(w, voter), candidate);
      && w' == w.(stage := Voting(w.stage.round, w.stage.config, w'.stage.ballots)) && |w'.stage.ballots| == |w.stage.ballots|
      && forall i | 0 <= i < |w.stage.ballots| ::
           var b := w.stage.ballots[i];
           w'.stage.ballots[i] == if b.member == voter then Ballot(voter, candidate) else b
  {
    hide ParseOk, ParseAll, Counts, RoundsOk, RepsOk;
    assert DistinctMembers(w.stage.ballots);
  }

  // ---------------------------------------------------------------------------------------------
  // What the result does
  // ---------------------------------------------------------------------------------------------

  /** What counting a group with this winner changes: its other members settle at the rank of the round under the
      winner, who joins the voters of the next round. */
  predicate GroupSettles(w: World, w': World, group: seq<Ballot>, winner: Name)
    requires w.stage.PostRound?
  {
    && w'.stage.PostRound?
    && w.stage.ballots == group + w'.stage.ballots
    && w'.stage.round == w.stage.round && w'.lead == w.lead && w'.board == w.board
    && w'.members.Keys == w.members.Keys
    && (forall m | m in w.members ::
          w'.members[m] ==
            if m in MembersOf(group) && m != winner then Member(w.members[m].active, 0, w.stage.round, winner)
            else w.members[m])
    && multiset(w'.stage.order) == multiset(w.stage.order) + (if winner in MembersOf(group) then multiset{winner} else multiset{})
    && w'.events == w.events + [ReportGroup(w.stage.round, winner, group)]
  }

  /** The group that is counted next is the next one of the trace; its ballots decide on the winner, who alone
      moves on. */
  lemma GroupResult(w: World)
    requires Inv(w) && GroupsNamed(w) && w.stage.PostRound? && |w.stage.ballots| > 0
    ensures AllIn(MembersOf(w.stage.ballots), w.members)
    ensures var w', group := CountGroup(w), NextGroup(w.stage);
      && |Counted(w.events)| < |Created(w.events)| && MembersOf(group) == Created(w.events)[|Counted(w.events)|]
      && exists winner :: Outcome(group, winner) && GroupSettles(w, w', group, winner)
  {
    hide *;
    GroupReady(w);
    GroupIsSettled(w);
    NextGroupNamed(w);
    WinnerIsOutcome(NextGroup(w.stage));
  }

  lemma GroupReady(w: World)
    requires Inv(w) && GroupsNamed(w) && w.stage.PostRound? && |w.stage.ballots| > 0
    ensures AllIn(MembersOf(w.stage.ballots), w.members)
    ensures |NextGroup(w.stage)| > 0 && NextGroup(w.stage)[0].member <= NOBODY
  {
    VotersInTable(w);
    CountedBoundary(w);
    hide GroupsNamed, Created, Counted, ParseAll, Counts, RepsOk, GroupSize, NextGroup, Rounds, FirstConfig;
    GroupBounds(w);
    FirstMemberBelow(w);
  }

  lemma NextGroupNamed(w: World)
    requires Inv(w) && GroupsNamed(w) && w.stage.PostRound? && |w.stage.ballots| > 0 && |NextGroup(w.stage)| > 0
    ensures |Counted(w.events)| < |Created(w.events)| && MembersOf(NextGroup(w.stage)) == Created(w.events)[|Counted(w.events)|]
  {
    var s, k := w.stage, |Counted(w.events)|;
    CountedBoundary(w);
    hide ReportsMatch, Created, Counted, CountedUpTo, FirstConfig, Rounds, ParseAll, Counts, GroupToFirstMemberIndex, GroupSize;
    NextGroupIs(Created(w.events), k, s.config, s.taken, s.ballots, |NextGroup(s)|);
  }

  lemma GroupIsSettled(w: World)
    requires Inv(w) && w.stage.PostRound? && |NextGroup(w.stage)| > 0 && AllIn(MembersOf(w.stage.ballots), w.members)
    ensures GroupSettles(w, CountGroup(w), NextGroup(w.stage), GroupWinner(NextGroup(w.stage)))
  {
    hide CountGroup, GroupWinner, Settle, GroupSize, ParseAll, ParseOk, Counts, Rounds, FirstConfig, Insert, Voted, Missing, RepsOk;
    var s, group := w.stage, NextGroup(w.stage);
    var winner := GroupWinner(group);
    WinnerFacts(w);
    CountGroupIs(w);
    CountGroupTable(w);
    InsertElements(s.order, winner, Draw(s.seed, |s.order|));
    assert s.ballots == group + AfterGroup(s);
  }

  /** The end of an election: every member of the last group gets the number of finished rounds as its rank, under
      the winner, and the winner, one higher, becomes lead representative, and the group becomes the board. */
  lemma ElectionResult(w: World, board: seq<Name>, winner: Name)
    requires ReadyToFinish(w, board, winner)
    ensures var w', rounds := FinishElection(w, board, winner), |w.ranks|;
      && w'.stage == Waiting && w'.lead == winner && w'.board == board && w'.members.Keys == w.members.Keys
      && forall m | m in w.members ::
           w'.members[m] ==
             if m == winner then Member(true, 0, rounds + 1, winner)
             else if m in board then Member(true, 0, rounds, winner)
             else w.members[m]
  {
    hide FinishElection, Counts, MembersFine;
    FinishTables(w, board, winner);
    FinishShape(w, board, winner);
  }
}
