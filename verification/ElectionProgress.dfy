/** How many steps the parts of an election take (contracts/eden/src/elections.cpp, prepare_election and
    finish_round): with enough steps they always come to an end. */
module ElectionProgress {
  import opened Members
  import opened GroupVote
  import opened ElectionConfig
  import opened GroupIndex
  import opened ElectionModel
  import opened ElectionInvariant
  import opened ElectionRun
  import opened ElectionOrder

  lemma OneStepFirst(w: World, n: nat)
    requires n > 0
    ensures Steps(w, n) == Steps(Step(w), n - 1)
  {
    hide Step;
  }

  // ---------------------------------------------------------------------------------------------
  // Finishing a round
  // ---------------------------------------------------------------------------------------------

  lemma CountStep(w: World, g: nat)
    requires Inv(w) && w.stage.PostRound? && |w.stage.ballots| > 0 && AtBoundary(w.stage.config, w.stage.taken, g)
    ensures var v := Step(w);
      && Inv(v) && v.stage.PostRound? && |v.stage.ballots| < |w.stage.ballots|
      && v.stage.config == w.stage.config && v.stage.round == w.stage.round && v.stage.reported == w.stage.reported == 0
      && g < w.stage.config.groups && AtBoundary(v.stage.config, v.stage.taken, g + 1)
  {
    CountGroupKeeps(w);
    NextGroupBoundary(w, g);
    hide Inv, AtBoundary, GroupWinner, Settle;
    assert Step(w) == CountGroup(w);
  }

  lemma NextGroupBoundary(w: World, g: nat)
    requires RoundsOk(w) && w.stage.PostRound? && |w.stage.ballots| > 0 && AtBoundary(w.stage.config, w.stage.taken, g)
    ensures var s := w.stage;
      && s.reported == 0 && g < s.config.groups
      && GroupSize(s.config, s.taken, |s.ballots|) > 0
      && AtBoundary(s.config, s.taken + GroupSize(s.config, s.taken, |s.ballots|), g + 1)
  {
    var s := w.stage;
    FirstConfigFacts(s.config.participants);
    FirstConfigShape(s.config.participants);
    hide FirstConfig, Rounds;
    NextBoundary(s.config, s.taken, g);
  }

  lemma AllCounted(w: World, g: nat)
    requires Inv(w) && w.stage.PostRound? && |w.stage.ballots| == 0 && AtBoundary(w.stage.config, w.stage.taken, g)
    ensures g == w.stage.config.groups
  {
    FirstConfigShape(w.stage.config.participants);
    BoundaryAtEnd(w.stage.config, g);
  }

  /** One step for every group that has not been counted. */
  lemma {:induction false} CountingCompletes(w: World, g: nat)
    requires Inv(w) && w.stage.PostRound? && w.stage.reported == 0 && AtBoundary(w.stage.config, w.stage.taken, g)
    ensures var v := Steps(w, w.stage.config.groups - g);
      && Inv(v) && v.stage.PostRound? && |v.stage.ballots| == 0
      && v.stage.round == w.stage.round && v.stage.reported == 0
    decreases |w.stage.ballots|
  {
    hide Inv, Step, Steps;
    if |w.stage.ballots| == 0 {
      AllCounted(w, g);
      NoStep(w);
    } else {
      CountStep(w, g);
      hide AtBoundary;
      CountingCompletes(Step(w), g + 1);
      OneStepFirst(w, w.stage.config.groups - g);
    }
  }

  lemma NoStep(w: World)
    ensures Steps(w, 0) == w
  {
  }

  predicate SameRound(v: World, w: World)
    requires w.stage.PostRound?
  {
    v.stage.PostRound? && v.stage.round == w.stage.round && v.stage.order == w.stage.order && v.stage.ballots == w.stage.ballots
  }

  lemma ReportStep(w: World, g: nat)
    requires Inv(w) && w.stage.PostRound? && |w.stage.ballots| == 0 && w.stage.reported < |w.stage.order|
    requires AtBoundary(FirstConfig(|w.stage.order|), w.stage.reported, g)
    ensures var v := Step(w);
      && Inv(v) && SameRound(v, w) && v.stage.reported > w.stage.reported
      && g < FirstConfig(|w.stage.order|).groups && AtBoundary(FirstConfig(|w.stage.order|), v.stage.reported, g + 1)
  {
    ReportNextKeeps(w);
    ParticipantsFit(w);
    var n := |w.stage.order|;
    FirstConfigFacts(n);
    FirstConfigShape(n);
    hide Inv, FirstConfig, PlanFor;
    NextBoundary(FirstConfig(n), w.stage.reported, g);
    hide AtBoundary;
    assert MembersOf(w.stage.ballots) == [];
    assert Step(w) == ReportNext(w);
  }

  lemma AllReported(w: World, g: nat)
    requires Inv(w) && w.stage.PostRound? && w.stage.reported == |w.stage.order| > 0
    requires AtBoundary(FirstConfig(|w.stage.order|), w.stage.reported, g)
    ensures g == FirstConfig(|w.stage.order|).groups
  {
    FirstConfigShape(|w.stage.order|);
    BoundaryAtEnd(FirstConfig(|w.stage.order|), g);
  }

  /** One step for every group that has not been reported. */
  lemma {:induction false} ReportingCompletes(w: World, g: nat)
    requires Inv(w) && w.stage.PostRound? && |w.stage.ballots| == 0 && |w.stage.order| > 0
    requires AtBoundary(FirstConfig(|w.stage.order|), w.stage.reported, g)
    ensures var v := Steps(w, FirstConfig(|w.stage.order|).groups - g);
      Inv(v) && SameRound(v, w) && v.stage.reported == |w.stage.order|
    decreases |w.stage.order| - w.stage.reported
  {
    hide Inv, Step, Steps, FirstConfig, AtBoundary;
    ReportedAll(w);
    if w.stage.reported == |w.stage.order| {
      AllReported(w, g);
      NoStep(w);
    } else {
      ReportStep(w, g);
      ReportingCompletes(Step(w), g + 1);
      OneStepFirst(w, FirstConfig(|w.stage.order|).groups - g);
    }
  }

  /** The stage of the next round with these voters. */
  function NextStage(round: nat, order: seq<Name>): Stage
    requires |order| > 0
  {
    if |order| < 12 then Final(round, order) else Voting(round, FirstConfig(|order|), NoVotes(order))
  }

  lemma BeginStep(w: World)
    requires Inv(w) && w.stage.PostRound? && |w.stage.ballots| == 0 && w.stage.reported == |w.stage.order| > 0
    ensures Step(w).stage == NextStage(w.stage.round + 1, w.stage.order) && !CanStep(Step(w))
  {
    SingleRoundIff(|w.stage.order|);
    hide Inv, PlanFor, FirstConfig;
    assert MembersOf(w.stage.ballots) == [];
    assert Step(w) == BeginNext(w);
  }

  lemma FreshRound(w: World)
    requires Inv(w) && w.stage.PostRound? && w.stage.taken == 0
    ensures AtBoundary(w.stage.config, 0, 0)
  {
    FirstConfigFacts(w.stage.config.participants);
    BoundaryAtStart(w.stage.config);
  }

  lemma FreshReport(w: World)
    requires Inv(w) && w.stage.PostRound? && |w.stage.order| > 0
    ensures AtBoundary(FirstConfig(|w.stage.order|), 0, 0)
  {
    ParticipantsFit(w);
    FirstConfigFacts(|w.stage.order|);
    BoundaryAtStart(FirstConfig(|w.stage.order|));
  }

  /** Finishing a round takes one step for each of its groups, one for each group of the winners, and one more;
      then the next round, or the final one, is open. Without any winner it stops after the groups. More steps
      change nothing. */
  lemma RoundCompletes(w: World)
    requires Inv(w) && w.stage.PostRound? && w.stage.taken == 0 && w.stage.reported == 0
    ensures var groups := w.stage.config.groups;
      var counted := Steps(w, groups);
      && counted.stage.PostRound? && |counted.stage.ballots| == 0
      && var order := counted.stage.order;
         if |order| == 0 then forall n: nat | n >= groups :: Steps(w, n) == counted
         else
           var total := groups + FirstConfig(|order|).groups + 1;
           && Steps(w, total).stage == NextStage(w.stage.round + 1, order)
           && forall n: nat | n >= total :: Steps(w, n) == Steps(w, total)
  {
    hide Inv, Step, Steps, FirstConfig, AtBoundary, NextStage, CanStep;
    FreshRound(w);
    CountingCompletes(w, 0);
    var groups := w.stage.config.groups;
    var counted := Steps(w, groups);
    if |counted.stage.order| == 0 {
      WithoutWinners(counted);
      StaysFrom(w, groups);
    } else {
      NextRoundOpensAfter(counted);
      var more := FirstConfig(|counted.stage.order|).groups + 1;
      StepsSplit(w, groups, more);
      StaysFrom(w, groups + more);
    }
  }

  lemma NextRoundOpensAfter(w: World)
    requires Inv(w) && w.stage.PostRound? && |w.stage.ballots| == 0 && w.stage.reported == 0 && |w.stage.order| > 0
    ensures var v := Steps(w, FirstConfig(|w.stage.order|).groups + 1);
      v.stage == NextStage(w.stage.round + 1, w.stage.order) && !CanStep(v)
  {
    hide Inv, Step, Steps, FirstConfig, AtBoundary, NextStage, CanStep;
    FreshReport(w);
    ReportingCompletes(w, 0);
    var groups := FirstConfig(|w.stage.order|).groups;
    var reported := Steps(w, groups);
    BeginStep(reported);
    StepsSplit(w, groups, 1);
    OneStepFirst(reported, 1);
    NoStep(Step(reported));
  }

  lemma WithoutWinners(w: World)
    requires w.stage.PostRound? && |w.stage.ballots| == 0 && |w.stage.order| == 0
    ensures !CanStep(w)
  {
  }

  // ---------------------------------------------------------------------------------------------
  // Preparing the first round
  // ---------------------------------------------------------------------------------------------

  function Later(members: MemberTable, last: Name): set<Name> {
    set m | m in members && m > last
  }

  lemma CollectStep(w: World)
    requires Inv(w) && w.stage.InitVoters? && w.stage.reported == 0 && MoreMembers(w)
    ensures var v := Step(w);
      && Inv(v) && v.stage.InitVoters? && v.stage.reported == 0
      && |Later(w.members, w.stage.last)| > 0
      && |Later(v.members, v.stage.last)| == |Later(w.members, w.stage.last)| - 1
  {
    hide Inv, Step;
    var m := NextToProcess(w);
    StepProcesses(w, m);
    StepKeeps(w);
    assert Later(w.members, w.stage.last) == Later(Step(w).members, m) + {m};
  }

  /** One step for every member that has not been looked at. */
  lemma {:induction false} CollectingCompletes(w: World)
    requires Inv(w) && w.stage.InitVoters? && w.stage.reported == 0
    ensures var v := Steps(w, |Later(w.members, w.stage.last)|);
      Inv(v) && v.stage.InitVoters? && v.stage.reported == 0 && !MoreMembers(v)
    decreases |Later(w.members, w.stage.last)|
  {
    hide Inv, Step, Steps;
    if MoreMembers(w) {
      CollectStep(w);
      hide Later, MoreMembers;
      CollectingCompletes(Step(w));
      OneStepFirst(w, |Later(w.members, w.stage.last)|);
    } else {
      assert Later(w.members, w.stage.last) == {};
      NoStep(w);
    }
  }

  lemma ReportFirstStep(w: World, g: nat)
    requires Inv(w) && w.stage.InitVoters? && !MoreMembers(w) && w.stage.reported < |w.stage.order|
    requires AtBoundary(FirstConfig(|w.stage.order|), w.stage.reported, g)
    ensures var v := Step(w);
      && Inv(v) && v.stage.InitVoters? && !MoreMembers(v) && v.stage.order == w.stage.order && v.stage.reported > w.stage.reported
      && g < FirstConfig(|w.stage.order|).groups && AtBoundary(FirstConfig(|w.stage.order|), v.stage.reported, g + 1)
  {
    ReportFirstKeeps(w);
    ParticipantsFit(w);
    OrderInTable(w);
    var n := |w.stage.order|;
    FirstConfigFacts(n);
    FirstConfigShape(n);
    hide Inv, FirstConfig, PlanFor;
    NextBoundary(FirstConfig(n), w.stage.reported, g);
    hide AtBoundary;
    assert Step(w) == ReportFirst(w);
  }

  lemma AllFirstReported(w: World, g: nat)
    requires Inv(w) && w.stage.InitVoters? && w.stage.reported == |w.stage.order| > 0
    requires AtBoundary(FirstConfig(|w.stage.order|), w.stage.reported, g)
    ensures g == FirstConfig(|w.stage.order|).groups
  {
    FirstConfigShape(|w.stage.order|);
    BoundaryAtEnd(FirstConfig(|w.stage.order|), g);
  }

  lemma {:induction false} FirstReportingCompletes(w: World, g: nat)
    requires Inv(w) && w.stage.InitVoters? && !MoreMembers(w) && |w.stage.order| > 0
    requires AtBoundary(FirstConfig(|w.stage.order|), w.stage.reported, g)
    ensures var v := Steps(w, FirstConfig(|w.stage.order|).groups - g);
      Inv(v) && v.stage.InitVoters? && !MoreMembers(v) && v.stage.order == w.stage.order && v.stage.reported == |w.stage.order|
    decreases |w.stage.order| - w.stage.reported
  {
    hide Inv, Step, Steps, FirstConfig, AtBoundary, MoreMembers;
    ReportedAll(w);
    if w.stage.reported == |w.stage.order| {
      AllFirstReported(w, g);
      NoStep(w);
    } else {
      ReportFirstStep(w, g);
      FirstReportingCompletes(Step(w), g + 1);
      OneStepFirst(w, FirstConfig(|w.stage.order|).groups - g);
    }
  }

  lemma FreshFirstReport(w: World)
    requires Inv(w) && w.stage.InitVoters? && |w.stage.order| > 0
    ensures AtBoundary(FirstConfig(|w.stage.order|), 0, 0)
  {
    ParticipantsFit(w);
    FirstConfigFacts(|w.stage.order|);
    BoundaryAtStart(FirstConfig(|w.stage.order|));
  }

  /** The stage once the first round is open; an election with a single round is over. */
  function FirstStage(order: seq<Name>): Stage
    requires |order| > 0
  {
    if |order| < 12 then Waiting else Voting(0, FirstConfig(|order|), NoVotes(order))
  }

  lemma BeginFirstStep(w: World)
    requires Inv(w) && w.stage.InitVoters? && !MoreMembers(w) && w.stage.reported == |w.stage.order| > 0
    ensures Step(w).stage == FirstStage(w.stage.order) && !CanStep(Step(w))
  {
    SingleRoundIff(|w.stage.order|);
    OrderInTable(w);
    hide Inv, PlanFor, FirstConfig, Settle;
    assert Step(w) == BeginFirst(w);
  }

  lemma FirstRoundOpensAfter(w: World)
    requires Inv(w) && w.stage.InitVoters? && !MoreMembers(w) && w.stage.reported == 0 && |w.stage.order| > 0
    ensures var v := Steps(w, FirstConfig(|w.stage.order|).groups + 1);
      v.stage == FirstStage(w.stage.order) && !CanStep(v)
  {
    hide Inv, Step, Steps, FirstConfig, AtBoundary, FirstStage, CanStep, MoreMembers;
    FreshFirstReport(w);
    FirstReportingCompletes(w, 0);
    var groups := FirstConfig(|w.stage.order|).groups;
    var reported := Steps(w, groups);
    BeginFirstStep(reported);
    StepsSplit(w, groups, 1);
    OneStepFirst(reported, 1);
    NoStep(Step(reported));
  }

  /** Preparing an election takes one step for each member, one for each group, and one more; then the first
      round is open, or the election is over because it has a single group. Without any voter it stops after the
      members. */
  lemma PreparationCompletes(w: World)
    requires Inv(w) && w.stage.InitVoters? && w.stage.reported == 0
    ensures var members := |Later(w.members, w.stage.last)|;
      var collected := Steps(w, members);
      && collected.stage.InitVoters?
      && var order := collected.stage.order;
         if |order| == 0 then forall n: nat | n >= members :: Steps(w, n) == collected
         else
           var total := members + FirstConfig(|order|).groups + 1;
           && Steps(w, total).stage == FirstStage(order)
           && forall n: nat | n >= total :: Steps(w, n) == Steps(w, total)
  {
    hide Inv, Step, Steps, FirstConfig, FirstStage, CanStep, Later;
    CollectingCompletes(w);
    var members := |Later(w.members, w.stage.last)|;
    var collected := Steps(w, members);
    if |collected.stage.order| == 0 {
      NobodyToReport(collected);
      StaysFrom(w, members);
    } else {
      FirstRoundOpensAfter(collected);
      var more := FirstConfig(|collected.stage.order|).groups + 1;
      StepsSplit(w, members, more);
      StaysFrom(w, members + more);
    }
  }

  lemma NobodyToReport(w: World)
    requires w.stage.InitVoters? && !MoreMembers(w) && |w.stage.order| == 0
    ensures !CanStep(w)
  {
  }
}
