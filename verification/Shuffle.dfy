/** The incremental shuffle of voters (contracts/eden/src/elections.cpp, add_voter). */
module Shuffle {
  import opened Members

  /** The new voter takes the drawn position; whoever was there moves to the end. */
  function Insert<T>(order: seq<T>, voter: T, pos: nat): (r: seq<T>)
    requires pos <= |order|
    ensures |r| == |order| + 1
  {
    if pos == |order| then order + [voter] else order[pos := voter] + [order[pos]]
  }

  /** The k-th draw is between 0 and k. */
  predicate Draws(draws: seq<nat>) {
    forall k | 0 <= k < |draws| :: draws[k] <= k
  }

  /** The order after adding the voters one by one. */
  function Shuffled<T>(voters: seq<T>, draws: seq<nat>): (r: seq<T>)
    requires |voters| == |draws| && Draws(draws)
    ensures |r| == |voters|
  {
    if |voters| == 0 then [] else
      var n := |voters| - 1;
      Insert(Shuffled(voters[..n], draws[..n]), voters[n], draws[n])
  }

  predicate Distinct<T(==)>(s: seq<T>) {
    forall i, j | 0 <= i < j < |s| :: s[i] != s[j]
  }

  // ---------------------------------------------------------------------------------------------
  // A permutation
  // ---------------------------------------------------------------------------------------------

  lemma InsertElements<T>(order: seq<T>, voter: T, pos: nat)
    requires pos <= |order|
    ensures multiset(Insert(order, voter, pos)) == multiset(order) + multiset{voter}
  {
    if pos < |order| {
      assert order == order[..pos] + [order[pos]] + order[pos + 1..];
      assert Insert(order, voter, pos) == order[..pos] + [voter] + order[pos + 1..] + [order[pos]];
    }
  }

  /** No voter is lost or duplicated. */
  lemma {:induction false} ShufflePermutes<T>(voters: seq<T>, draws: seq<nat>)
    requires |voters| == |draws| && Draws(draws)
    ensures multiset(Shuffled(voters, draws)) == multiset(voters)
    decreases |voters|
  {
    if |voters| != 0 {
      var n := |voters| - 1;
      ShufflePermutes(voters[..n], draws[..n]);
      InsertElements(Shuffled(voters[..n], draws[..n]), voters[n], draws[n]);
      assert voters == voters[..n] + [voters[n]];
    }
  }

  lemma DistinctElements<T>(s: seq<T>)
    requires Distinct(s)
    ensures forall x :: multiset(s)[x] <= 1
  {
    if |s| > 0 {
      var n := |s| - 1;
      DistinctElements(s[..n]);
      assert s == s[..n] + [s[n]];
      assert s[n] !in s[..n];
    }
  }

  lemma SameElements<T>(s: seq<T>, t: seq<T>)
    requires Distinct(s) && multiset(s) == multiset(t)
    ensures Distinct(t)
  {
    DistinctElements(s);
    forall i, j | 0 <= i < j < |t| ensures t[i] != t[j] {
      if t[i] == t[j] {
        Twice(t, i, j);
        assert false;
      }
    }
  }

  lemma Twice<T>(t: seq<T>, i: nat, j: nat)
    requires i < j < |t| && t[i] == t[j]
    ensures multiset(t)[t[i]] >= 2
  {
    assert t == t[..i] + [t[i]] + t[i + 1..j] + [t[j]] + t[j + 1..];
  }

  lemma ShuffleDistinct<T>(voters: seq<T>, draws: seq<nat>)
    requires |voters| == |draws| && Draws(draws) && Distinct(voters)
    ensures Distinct(Shuffled(voters, draws))
  {
    ShufflePermutes(voters, draws);
    SameElements(voters, Shuffled(voters, draws));
  }

  // ---------------------------------------------------------------------------------------------
  // A bijection between draws and orders
  // ---------------------------------------------------------------------------------------------

  function Position<T(==)>(s: seq<T>, x: T): (i: nat)
    requires x in s
    ensures i < |s| && s[i] == x
  {
    if s[0] == x then 0 else 1 + Position(s[1..], x)
  }

  /** Undoes the last insertion: the end moves back to the position of the last voter. */
  function Removed<T>(order: seq<T>, pos: nat): seq<T>
    requires pos < |order|
  {
    if pos == |order| - 1 then order[..pos] else order[..|order| - 1][pos := order[|order| - 1]]
  }

  lemma InsertThenRemove<T>(order: seq<T>, voter: T, pos: nat)
    requires pos <= |order|
    ensures Removed(Insert(order, voter, pos), pos) == order
  {
  }

  lemma RemoveThenInsert<T>(order: seq<T>, pos: nat)
    requires pos < |order|
    ensures Insert(Removed(order, pos), order[pos], pos) == order
  {
  }

  /** The draws that lead to a given order. */
  function DrawsFor<T(==)>(voters: seq<T>, order: seq<T>): (draws: seq<nat>)
    requires |voters| == |order|
  {
    if |voters| == 0 || voters[|voters| - 1] !in order then seq(|voters|, i => 0) else
      var n := |voters| - 1;
      var pos := Position(order, voters[n]);
      DrawsFor(voters[..n], Removed(order, pos)) + [pos]
  }

  lemma {:induction false} DrawsForLength<T>(voters: seq<T>, order: seq<T>)
    requires |voters| == |order|
    ensures |DrawsFor(voters, order)| == |voters| && Draws(DrawsFor(voters, order))
    decreases |voters|
  {
    if |voters| != 0 && voters[|voters| - 1] in order {
      DrawsForLength(voters[..|voters| - 1], Removed(order, Position(order, voters[|voters| - 1])));
    }
  }

  /** Every order of the voters is reached by some sequence of draws. */
  lemma {:induction false} ShuffleReachesEveryOrder<T>(voters: seq<T>, order: seq<T>)
    requires |voters| == |order| && multiset(voters) == multiset(order)
    ensures |DrawsFor(voters, order)| == |voters| && Draws(DrawsFor(voters, order))
    ensures Shuffled(voters, DrawsFor(voters, order)) == order
    decreases |voters|
  {
    DrawsForLength(voters, order);
    if |voters| != 0 {
      var n := |voters| - 1;
      assert voters[n] in multiset(voters);
      assert voters[n] in order;
      var pos := Position(order, voters[n]);
      RemoveThenInsert(order, pos);
      InsertElements(Removed(order, pos), voters[n], pos);
      assert voters == voters[..n] + [voters[n]];
      assert multiset(voters[..n]) == multiset(voters) - multiset{voters[n]};
      assert multiset(Removed(order, pos)) == multiset(order) - multiset{voters[n]};
      ShuffleReachesEveryOrder(voters[..n], Removed(order, pos));
      var draws := DrawsFor(voters, order);
      assert draws[..n] == DrawsFor(voters[..n], Removed(order, pos));
    }
  }

  /** Different draws give different orders of distinct voters: with uniform draws every order is
      equally likely. */
  lemma {:induction false} ShuffleIsInjective<T>(voters: seq<T>, a: seq<nat>, b: seq<nat>)
    requires |voters| == |a| == |b| && Draws(a) && Draws(b) && Distinct(voters)
    requires Shuffled(voters, a) == Shuffled(voters, b)
    ensures a == b
    decreases |voters|
  {
    if |voters| != 0 {
      var n := |voters| - 1;
      var order := Shuffled(voters, a);
      var x, y := Shuffled(voters[..n], a[..n]), Shuffled(voters[..n], b[..n]);
      ShuffleDistinct(voters, a);
      assert order[a[n]] == voters[n] == order[b[n]];
      InsertThenRemove(x, voters[n], a[n]);
      InsertThenRemove(y, voters[n], b[n]);
      ShuffleIsInjective(voters[..n], a[..n], b[..n]);
      assert a == a[..n] + [a[n]] && b == b[..n] + [b[n]];
    }
  }

  // ---------------------------------------------------------------------------------------------
  // The table of votes
  // ---------------------------------------------------------------------------------------------

  /** A candidate of 0 means that no vote has been cast. */
  datatype Vote = Vote(round: nat, index: nat, candidate: Name)

  type VoteTable = map<Name, Vote>

  /** The rows of a round in the order of the secondary index: consecutive indices from `from`. */
  ghost predicate Indexed(votes: VoteTable, round: nat, from: nat, order: seq<Name>) {
    && (forall i | 0 <= i < |order| ::
          order[i] in votes && votes[order[i]].round == round && votes[order[i]].index == from + i)
    && (forall m | m in votes && votes[m].round == round ::
          from <= votes[m].index < from + |order| && order[votes[m].index - from] == m)
  }

  lemma IndexedDistinct(votes: VoteTable, round: nat, from: nat, order: seq<Name>)
    requires Indexed(votes, round, from, order)
    ensures Distinct(order)
  {
    forall i, j | 0 <= i < j < |order| ensures order[i] != order[j] {
      assert votes[order[i]].index != votes[order[j]].index;
    }
  }

  lemma IndexedRow(votes: VoteTable, round: nat, from: nat, order: seq<Name>, m: Name)
    requires Indexed(votes, round, from, order) && m in votes && votes[m].round == round
    ensures from <= votes[m].index < from + |order| && order[votes[m].index - from] == m
  {
  }

  /** The table after adding a voter, when `holder` has the drawn position. */
  function WithVoter(votes: VoteTable, round: nat, next: nat, voter: Name, pos: nat, holder: Name): VoteTable
    requires pos != next ==> holder in votes
  {
    (if pos != next then votes[holder := votes[holder].(index := next)] else votes)[voter := Vote(round, pos, 0)]
  }

  lemma WithVoterIndexed(votes: VoteTable, round: nat, order: seq<Name>, voter: Name, pos: nat, holder: Name)
    requires Indexed(votes, round, 0, order) && pos <= |order| && voter !in votes
    requires pos < |order| ==> holder == order[pos]
    ensures Indexed(WithVoter(votes, round, |order|, voter, pos, holder), round, 0, Insert(order, voter, pos))
  {
    var r, order' := WithVoter(votes, round, |order|, voter, pos, holder), Insert(order, voter, pos);
    IndexedDistinct(votes, round, 0, order);
    forall i | 0 <= i < |order'|
      ensures order'[i] in r && r[order'[i]].round == round && r[order'[i]].index == i
    {
      if i < |order| {
        assert order[i] in votes && votes[order[i]].index == i;
      }
    }
    forall m | m in r && r[m].round == round
      ensures 0 <= r[m].index < |order'| && order'[r[m].index] == m
    {
      if m != voter {
        assert m in votes && order[votes[m].index] == m;
      }
    }
  }

  /** The old holder of the position moves to the end, the new voter takes it. */
  method AddVoter(votes: VoteTable, round: nat, nextIndex: nat, voter: Name, pos: nat, ghost order: seq<Name>)
    returns (r: VoteTable)
    requires Indexed(votes, round, 0, order) && nextIndex == |order|
    requires pos <= nextIndex && voter !in votes
    ensures Indexed(r, round, 0, Insert(order, voter, pos))
    ensures r.Keys == votes.Keys + {voter}
    ensures forall m | m in votes && votes[m].round != round :: r[m] == votes[m]
    ensures r[voter] == Vote(round, pos, 0)
    ensures forall m | m in votes && votes[m].round == round :: r[m].round == round && r[m].candidate == votes[m].candidate
  {
    r := votes;
    ghost var was := voter;
    if pos != nextIndex {
      assert order[pos] in votes;
      var holder: Name :| holder in votes && votes[holder].round == round && votes[holder].index == pos;
      IndexedRow(votes, round, 0, order, holder);
      was := holder;
      r := r[holder := r[holder].(index := nextIndex)];
    }
    r := r[voter := Vote(round, pos, 0)];
    WithVoterIndexed(votes, round, order, voter, pos, was);
  }
}
