/** Counting the votes of a group (contracts/eden/src/elections.cpp, finish_group). */
module GroupVote {
  import opened Basics
  import opened Members

  /** The vote of one group member; candidate 0 means that no vote has been cast. */
  datatype Ballot = Ballot(member: Name, candidate: Name)

  predicate DistinctMembers(ballots: seq<Ballot>) {
    forall i, j | 0 <= i < j < |ballots| :: ballots[i].member != ballots[j].member
  }

  /** Votes cast at all, and votes for one candidate. */
  function Cast(ballots: seq<Ballot>): nat {
    if |ballots| == 0 then 0 else
      Cast(ballots[..|ballots| - 1]) + if ballots[|ballots| - 1].candidate != 0 then 1 else 0
  }

  function VotesFor(ballots: seq<Ballot>, c: Name): nat {
    if |ballots| == 0 then 0 else
      VotesFor(ballots[..|ballots| - 1], c) + if ballots[|ballots| - 1].candidate == c then 1 else 0
  }

  predicate VotedForSelf(ballots: seq<Ballot>, c: Name) {
    c != 0 && Ballot(c, c) in ballots
  }

  /** Self-supported by more than two thirds of the votes cast. */
  predicate Wins(ballots: seq<Ballot>, c: Name) {
    VotedForSelf(ballots, c) && 3 * VotesFor(ballots, c) > 2 * Cast(ballots)
  }

  // ---------------------------------------------------------------------------------------------
  // At most one winner
  // ---------------------------------------------------------------------------------------------

  lemma {:induction false} TwoCandidates(ballots: seq<Ballot>, c: Name, d: Name)
    requires c != 0 && d != 0 && c != d
    ensures VotesFor(ballots, c) + VotesFor(ballots, d) <= Cast(ballots) <= |ballots|
    decreases |ballots|
  {
    if |ballots| != 0 {
      TwoCandidates(ballots[..|ballots| - 1], c, d);
    }
  }

  lemma {:induction false} VotesAreCast(ballots: seq<Ballot>, c: Name)
    requires c != 0
    ensures VotesFor(ballots, c) <= Cast(ballots) <= |ballots|
    decreases |ballots|
  {
    if |ballots| != 0 {
      VotesAreCast(ballots[..|ballots| - 1], c);
    }
  }

  lemma WinnerIsUnique(ballots: seq<Ballot>, c: Name, d: Name)
    requires Wins(ballots, c) && Wins(ballots, d)
    ensures c == d
  {
    if c != d {
      TwoCandidates(ballots, c, d);
    }
  }

  lemma WinnerIsInGroup(ballots: seq<Ballot>, c: Name)
    requires Wins(ballots, c)
    ensures exists i :: 0 <= i < |ballots| && ballots[i].member == c
  {
    var i :| 0 <= i < |ballots| && ballots[i] == Ballot(c, c);
  }

  // ---------------------------------------------------------------------------------------------
  // The bonus for voting for oneself
  // ---------------------------------------------------------------------------------------------

  /** A candidate's counter: its votes, and the size of the whole group once it has voted for
      itself. */
  function Counter(ballots: seq<Ballot>, size: nat, c: Name): nat {
    VotesFor(ballots, c) + if VotedForSelf(ballots, c) then size else 0
  }

  /** The test on the largest counter. */
  predicate Passes(ballots: seq<Ballot>, counter: nat) {
    3 * counter > 2 * Cast(ballots) + 3 * |ballots|
  }

  /** The test holds for a candidate's counter exactly when the candidate wins. */
  lemma CounterDecides(ballots: seq<Ballot>, c: Name)
    requires c != 0
    ensures Passes(ballots, Counter(ballots, |ballots|, c)) <==> Wins(ballots, c)
  {
    VotesAreCast(ballots, c);
  }

  /** The winner has the largest counter. */
  lemma WinnerHasLargestCounter(ballots: seq<Ballot>, c: Name, d: Name)
    requires Wins(ballots, c) && d != 0 && d != c
    ensures Counter(ballots, |ballots|, d) < Counter(ballots, |ballots|, c)
  {
    TwoCandidates(ballots, c, d);
  }

  // ---------------------------------------------------------------------------------------------
  // The counting loop
  // ---------------------------------------------------------------------------------------------

  /** The winner, if there is one. */
  ghost function Winner(ballots: seq<Ballot>): (w: Option<Name>)
    ensures w.Some? ==> Wins(ballots, w.value)
    ensures w.None? ==> forall c: Name :: !Wins(ballots, c)
  {
    if exists c: Name :: Wins(ballots, c) then var c: Name :| Wins(ballots, c); Some(c) else None
  }

  /** The members who voted, and those who did not, in the order of the group. */
  function Voted(ballots: seq<Ballot>): seq<Name> {
    if |ballots| == 0 then [] else
      var last := ballots[|ballots| - 1];
      Voted(ballots[..|ballots| - 1]) + if last.candidate != 0 then [last.member] else []
  }

  function Missing(ballots: seq<Ballot>): seq<Name> {
    if |ballots| == 0 then [] else
      var last := ballots[|ballots| - 1];
      Missing(ballots[..|ballots| - 1]) + if last.candidate != 0 then [] else [last.member]
  }

  lemma CounterStep(ballots: seq<Ballot>, size: nat, i: nat, c: Name)
    requires i < |ballots| && DistinctMembers(ballots)
    ensures var b := ballots[i];
      Counter(ballots[..i + 1], size, c) == Counter(ballots[..i], size, c)
        + (if c == b.candidate then 1 else 0)
        + (if c == b.candidate && c == b.member && c != 0 then size else 0)
  {
    var s, t := ballots[..i + 1], ballots[..i];
    assert s[..i] == t && s[i] == ballots[i];
    if VotedForSelf(t, c) {
      var j :| 0 <= j < i && t[j] == Ballot(c, c);
      assert s[j] == Ballot(c, c);
    }
  }

  lemma CounterFits(ballots: seq<Ballot>, size: nat, c: Name)
    requires c != 0 && |ballots| <= size <= 127
    ensures Counter(ballots, size, c) < 256
  {
    VotesAreCast(ballots, c);
  }

  /** The counters after some ballots: a row for every candidate with a vote. */
  ghost predicate Tallied(ballots: seq<Ballot>, size: nat, counters: map<Name, nat>) {
    && (forall c: Name :: c in counters <==> c != 0 && VotesFor(ballots, c) > 0)
    && (forall c | c in counters :: counters[c] == Counter(ballots, size, c))
  }

  lemma TallyStep(ballots: seq<Ballot>, size: nat, i: nat, counters: map<Name, nat>)
    requires i < |ballots| <= size && DistinctMembers(ballots)
    requires Tallied(ballots[..i], size, counters)
    ensures var b := ballots[i];
      Tallied(ballots[..i + 1], size, if b.candidate == 0 then counters else
        counters[b.candidate := (if b.candidate in counters then counters[b.candidate] else 0)
                                  + 1 + if b.candidate == b.member then size else 0])
  {
    var b, t := ballots[i], ballots[..i + 1];
    assert t[..i] == ballots[..i] && t[i] == b;
    if b.candidate !in counters && b.candidate != 0 {
      NoVotesNoCounter(ballots[..i], size, b.candidate);
    }
    hide Counter;
    forall c | c in counters || c == b.candidate
      ensures Counter(t, size, c) == Counter(ballots[..i], size, c)
        + (if c == b.candidate then 1 else 0) + (if c == b.candidate && c == b.member && c != 0 then size else 0)
    {
      CounterStep(ballots, size, i, c);
    }
  }

  /** The counters are 8-bit integers. */
  method Tally(ballots: seq<Ballot>) returns (counters: map<Name, nat>, total: nat, voted: seq<Name>, missing: seq<Name>)
    requires |ballots| <= 127 && DistinctMembers(ballots)
    ensures Tallied(ballots, |ballots|, counters) && total == Cast(ballots)
    ensures voted == Voted(ballots) && missing == Missing(ballots)
  {
    hide Tallied;
    var size := |ballots|;
    counters := map[];
    total := 0;
    voted, missing := [], [];
    NothingTallied(size);
    for i := 0 to size
      invariant total == Cast(ballots[..i]) <= i
      invariant voted == Voted(ballots[..i]) && missing == Missing(ballots[..i])
      invariant Tallied(ballots[..i], size, counters)
    {
      var b := ballots[i];
      ghost var t := ballots[..i + 1];
      assert t[..i] == ballots[..i] && t[i] == b;
      TallyStep(ballots, size, i, counters);
      if b.candidate != 0 {
        var counter := if b.candidate in counters then counters[b.candidate] else 0;
        TallyFits(ballots, size, i, counters);
        if b.candidate == b.member {
          counter := (counter + size) % 256;
        }
        counter := (counter + 1) % 256;
        counters := counters[b.candidate := counter];
        total := (total + 1) % 256;
        voted := voted + [b.member];
      } else {
        missing := missing + [b.member];
      }
    }
    assert ballots[..size] == ballots;
  }

  lemma NothingTallied(size: nat)
    ensures Tallied([], size, map[])
  {
  }

  /** No counter exceeds twice the size of the group. */
  lemma TallyFits(ballots: seq<Ballot>, size: nat, i: nat, counters: map<Name, nat>)
    requires i < |ballots| <= size <= 127 && DistinctMembers(ballots) && ballots[i].candidate != 0
    requires Tallied(ballots[..i], size, counters)
    ensures var b := ballots[i];
      (if b.candidate in counters then counters[b.candidate] else 0) + (if b.candidate == b.member then size else 0) + 1 < 256
  {
    TallyStep(ballots, size, i, counters);
    CounterFits(ballots[..i + 1], size, ballots[i].candidate);
  }

  /** The first of the largest counters is compared with the threshold. */
  method PickWinner(ghost ballots: seq<Ballot>, size: nat, counters: map<Name, nat>, total: nat) returns (winner: Option<Name>)
    requires Tallied(ballots, size, counters) && size == |ballots| && total == Cast(ballots)
    ensures forall c: Name :: winner == Some(c) <==> Wins(ballots, c)
  {
    winner := None;
    if counters != map[] {
      LargestExists(counters);
      var best :| best in counters && Largest(counters, best);
      CounterDecides(ballots, best);
      if 3 * counters[best] > 2 * total + 3 * size {
        winner := Some(best);
      }
      forall c: Name | Wins(ballots, c) ensures c == best {
        WinnerHasVotes(ballots, c);
        if c != best {
          WinnerHasLargestCounter(ballots, c, best);
        }
      }
    } else {
      forall c: Name | Wins(ballots, c) ensures false {
        WinnerHasVotes(ballots, c);
      }
    }
  }

  method CountVotes(ballots: seq<Ballot>) returns (winner: Option<Name>, voted: seq<Name>, missing: seq<Name>)
    requires |ballots| <= 127 && DistinctMembers(ballots)
    ensures forall c: Name :: winner == Some(c) <==> Wins(ballots, c)
    ensures voted == Voted(ballots) && missing == Missing(ballots)
  {
    var counters, total;
    counters, total, voted, missing := Tally(ballots);
    winner := PickWinner(ballots, |ballots|, counters, total);
  }

  /** std::max_element over a map: the first of the largest counters in the order of names. */
  predicate Largest(counters: map<Name, nat>, best: Name)
    requires best in counters
  {
    forall c | c in counters :: counters[c] < counters[best] || (counters[c] == counters[best] && best <= c)
  }

  lemma {:induction false} LargestExists(counters: map<Name, nat>)
    requires counters != map[]
    ensures exists best :: best in counters && Largest(counters, best)
    decreases |counters|
  {
    var x :| x in counters;
    var rest := counters - {x};
    if rest == map[] {
      assert forall c | c in counters && c != x :: c in rest;
      assert Largest(counters, x);
    } else {
      LargestExists(rest);
      var y :| y in rest && Largest(rest, y);
      var best := if counters[x] > counters[y] || (counters[x] == counters[y] && x < y) then x else y;
      forall c | c in counters
        ensures counters[c] < counters[best] || (counters[c] == counters[best] && best <= c)
      {
        if c != x {
          assert c in rest;
        }
      }
      assert Largest(counters, best);
    }
  }

  lemma {:induction false} NoVotesNoCounter(ballots: seq<Ballot>, size: nat, c: Name)
    requires VotesFor(ballots, c) == 0
    ensures Counter(ballots, size, c) == 0
    decreases |ballots|
  {
    if |ballots| != 0 {
      NoVotesNoCounter(ballots[..|ballots| - 1], size, c);
      if VotedForSelf(ballots, c) {
        var j :| 0 <= j < |ballots| && ballots[j] == Ballot(c, c);
        assert j < |ballots| - 1 ==> ballots[..|ballots| - 1][j] == Ballot(c, c);
      }
    }
  }

  lemma WinnerHasVotes(ballots: seq<Ballot>, c: Name)
    requires Wins(ballots, c)
    ensures VotesFor(ballots, c) > 0
  {
  }
}
