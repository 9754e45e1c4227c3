/** The table of votes as the election reads it: by its secondary index, from a key upwards
    (contracts/eden/include/elections.hpp, contracts/eden/src/elections.cpp). */
module VoteIndex {
  import opened Basics
  import opened Members
  import opened Shuffle
  import opened GroupVote
  import opened ElectionModel
  import opened ElectionInvariant

  const INDEX_SPAN: nat := 0x1_0000

  /** The secondary key: the round above a 16-bit index. */
  function Key(v: Vote): nat {
    v.round * INDEX_SPAN + v.index
  }

  /** Rows of a round with their candidates, in the order of the secondary index. */
  ghost predicate Rows(votes: VoteTable, round: nat, from: nat, ballots: seq<Ballot>) {
    && Indexed(votes, round, from, MembersOf(ballots))
    && forall i | 0 <= i < |ballots| :: Holds(votes, ballots[i])
  }

  predicate Holds(votes: VoteTable, b: Ballot) {
    b.member in votes && votes[b.member].candidate == b.candidate
  }

  /** Rows of a round that nobody has voted in. */
  ghost predicate Fresh(votes: VoteTable, round: nat, order: seq<Name>) {
    && Indexed(votes, round, 0, order)
    && forall m | m in votes && votes[m].round == round :: votes[m].candidate == 0
  }

  predicate InRounds(votes: VoteTable, a: nat, b: nat) {
    forall m | m in votes :: votes[m].round == a || votes[m].round == b
  }

  // ---------------------------------------------------------------------------------------------
  // lower_bound
  // ---------------------------------------------------------------------------------------------

  predicate IsLowerBound(votes: VoteTable, key: nat, m: Name) {
    m in votes && Key(votes[m]) >= key && forall k | k in votes && Key(votes[k]) >= key :: Key(votes[m]) <= Key(votes[k])
  }

  method LowerBound(votes: VoteTable, key: nat) returns (r: Option<Name>)
    ensures r.Some? ==> IsLowerBound(votes, key, r.value)
    ensures r.None? ==> forall m | m in votes :: Key(votes[m]) < key
  {
    if exists m | m in votes :: Key(votes[m]) >= key {
      LowerBoundExists(votes, key);
      var m :| m in votes && IsLowerBound(votes, key, m);
      return Some(m);
    }
    r := None;
  }

  lemma {:induction false} LowerBoundExists(votes: VoteTable, key: nat)
    requires exists m | m in votes :: Key(votes[m]) >= key
    ensures exists m :: m in votes && IsLowerBound(votes, key, m)
    decreases |votes|
  {
    hide Key;
    var x :| x in votes && Key(votes[x]) >= key;
    var rest := votes - {x};
    if exists m | m in rest :: Key(rest[m]) >= key {
      LowerBoundExists(rest, key);
      var y :| y in rest && IsLowerBound(rest, key, y);
      var best := if Key(votes[y]) < Key(votes[x]) then y else x;
      forall k | k in votes && Key(votes[k]) >= key ensures Key(votes[best]) <= Key(votes[k]) {
        assert k == x || k in rest;
      }
      assert IsLowerBound(votes, key, best);
    } else {
      forall k | k in votes && Key(votes[k]) >= key ensures k == x {
        assert k == x || k in rest;
      }
      assert IsLowerBound(votes, key, x);
    }
  }

  /** All the indices fit in 16 bits. */
  predicate Narrow(votes: VoteTable) {
    forall m | m in votes :: votes[m].index < INDEX_SPAN
  }

  lemma RowsNarrow(votes: VoteTable, a: nat, fromA: nat, orderA: seq<Name>, b: nat, fromB: nat, orderB: seq<Name>)
    requires InRounds(votes, a, b)
    requires Indexed(votes, a, fromA, orderA) && fromA + |orderA| < INDEX_SPAN
    requires Indexed(votes, b, fromB, orderB) && fromB + |orderB| < INDEX_SPAN
    ensures Narrow(votes)
  {
  }

  lemma KeysEqual(v: Vote, round: nat, index: nat)
    requires v.index < INDEX_SPAN && index < INDEX_SPAN
    ensures Key(v) == round * INDEX_SPAN + index <==> v.round == round && v.index == index
    ensures Key(v) >= round * INDEX_SPAN + index <==> v.round > round || (v.round == round && v.index >= index)
  {
  }

  /** Within a round, the row at an index is the row of the ordered view. */
  lemma LowerBoundIs(votes: VoteTable, round: nat, from: nat, order: seq<Name>, i: nat, r: Option<Name>)
    requires Narrow(votes) && Indexed(votes, round, from, order) && i < |order| && from + |order| < INDEX_SPAN
    requires r.Some? ==> IsLowerBound(votes, round * INDEX_SPAN + from + i, r.value)
    requires r.None? ==> forall m | m in votes :: Key(votes[m]) < round * INDEX_SPAN + from + i
    ensures r == Some(order[i]) && order[i] in votes && votes[order[i]].round == round
  {
    var k := order[i];
    assert k in votes;
    KeysEqual(votes[k], round, from + i);
    if r.Some? {
      KeysEqual(votes[r.value], round, from + i);
    }
  }

  /** No row of the round is left at the index. */
  lemma LowerBoundPast(votes: VoteTable, round: nat, from: nat, r: Option<Name>)
    requires Narrow(votes) && Indexed(votes, round, from, []) && from < INDEX_SPAN
    requires r.Some? ==> IsLowerBound(votes, round * INDEX_SPAN + from, r.value)
    ensures r.Some? ==> votes[r.value].round != round
  {
  }

  /** Past the last row of the last round there is nothing. */
  lemma LowerBoundEnd(votes: VoteTable, round: nat, order: seq<Name>, r: Option<Name>)
    requires Narrow(votes) && InRounds(votes, round, round) && Indexed(votes, round, 0, order) && |order| < INDEX_SPAN
    requires r.Some? ==> IsLowerBound(votes, round * INDEX_SPAN + |order|, r.value)
    ensures r.None?
  {
    forall m | m in votes ensures Key(votes[m]) < round * INDEX_SPAN + |order| {
      KeysEqual(votes[m], round, |order|);
    }
  }

  // ---------------------------------------------------------------------------------------------
  // Erasing and adding rows
  // ---------------------------------------------------------------------------------------------

  lemma EraseIndexed(votes: VoteTable, round: nat, from: nat, order: seq<Name>)
    requires Indexed(votes, round, from, order) && |order| > 0
    ensures order[0] in votes
    ensures Indexed(votes - {order[0]}, round, from + 1, order[1..])
  {
    var m, rest, tail := order[0], votes - {order[0]}, order[1..];
    assert m in votes && votes[m].index == from;
    forall i | 0 <= i < |tail|
      ensures tail[i] in rest && rest[tail[i]].round == round && rest[tail[i]].index == from + 1 + i
    {
      assert tail[i] == order[i + 1] && order[i + 1] in votes && votes[order[i + 1]].index == from + (i + 1);
    }
    forall k | k in rest && rest[k].round == round
      ensures from + 1 <= rest[k].index < from + 1 + |tail| && tail[rest[k].index - (from + 1)] == k
    {
      assert order[votes[k].index - from] == k;
    }
  }

  /** Erasing the first row of a round moves its view by one. */
  lemma EraseFirst(votes: VoteTable, round: nat, from: nat, ballots: seq<Ballot>)
    requires Rows(votes, round, from, ballots) && |ballots| > 0
    ensures ballots[0].member in votes
    ensures Rows(votes - {ballots[0].member}, round, from + 1, ballots[1..])
  {
    var m, rest := ballots[0].member, votes - {ballots[0].member};
    assert MembersOf(ballots)[0] == m;
    assert MembersOf(ballots[1..]) == MembersOf(ballots)[1..];
    EraseIndexed(votes, round, from, MembersOf(ballots));
    hide Indexed;
    assert Indexed(rest, round, from + 1, MembersOf(ballots[1..]));
    forall i | 0 <= i < |ballots[1..]| ensures Holds(rest, ballots[1..][i]) {
      assert Holds(votes, ballots[i + 1]);
      TailInRest(votes, round, from, ballots, i);
    }
  }

  lemma TailInRest(votes: VoteTable, round: nat, from: nat, ballots: seq<Ballot>, i: nat)
    requires Indexed(votes, round, from, MembersOf(ballots)) && i + 1 < |ballots|
    ensures ballots[i + 1].member in votes - {ballots[0].member}
  {
    IndexedDistinct(votes, round, from, MembersOf(ballots));
    assert MembersOf(ballots)[i + 1] == ballots[i + 1].member && MembersOf(ballots)[0] == ballots[0].member;
  }

  lemma EraseElsewhere(votes: VoteTable, round: nat, order: seq<Name>, m: Name)
    requires Fresh(votes, round, order) && m in votes && votes[m].round != round
    ensures Fresh(votes - {m}, round, order)
  {
    forall i | 0 <= i < |order|
      ensures order[i] in votes - {m}
    {
      assert order[i] in votes && votes[order[i]].round == round;
    }
  }

  lemma FreshWithVoter(votes: VoteTable, r: VoteTable, round: nat, order: seq<Name>, voter: Name, pos: nat)
    requires Fresh(votes, round, order) && pos <= |order| && voter !in votes
    requires Indexed(r, round, 0, Insert(order, voter, pos)) && r.Keys == votes.Keys + {voter}
    requires r[voter] == Vote(round, pos, 0)
    requires forall m | m in votes && votes[m].round != round :: r[m] == votes[m]
    requires forall m | m in votes && votes[m].round == round :: r[m].round == round && r[m].candidate == votes[m].candidate
    ensures Fresh(r, round, Insert(order, voter, pos))
  {
  }

  lemma RowsKept(votes: VoteTable, r: VoteTable, round: nat, from: nat, ballots: seq<Ballot>, voter: Name)
    requires Rows(votes, round, from, ballots) && voter !in votes
    requires r.Keys == votes.Keys + {voter} && r[voter].round != round
    requires forall m | m in votes && votes[m].round == round :: r[m] == votes[m]
    requires forall m | m in votes && votes[m].round != round :: r[m].round != round
    ensures Rows(r, round, from, ballots)
  {
    IndexedKept(votes, r, round, from, MembersOf(ballots), voter);
    hide Indexed;
    forall i | 0 <= i < |ballots| ensures Holds(r, ballots[i]) {
      assert Holds(votes, ballots[i]);
      RowIsInRound(votes, round, from, ballots, i);
    }
  }

  lemma RowIsInRound(votes: VoteTable, round: nat, from: nat, ballots: seq<Ballot>, i: nat)
    requires Indexed(votes, round, from, MembersOf(ballots)) && i < |ballots|
    ensures ballots[i].member in votes && votes[ballots[i].member].round == round
    ensures votes[ballots[i].member].index == from + i
  {
    assert MembersOf(ballots)[i] == ballots[i].member;
  }

  lemma IndexedKept(votes: VoteTable, r: VoteTable, round: nat, from: nat, order: seq<Name>, voter: Name)
    requires Indexed(votes, round, from, order) && voter !in votes
    requires r.Keys == votes.Keys + {voter} && r[voter].round != round
    requires forall m | m in votes && votes[m].round == round :: r[m] == votes[m]
    requires forall m | m in votes && votes[m].round != round :: r[m].round != round
    ensures Indexed(r, round, from, order)
  {
  }

  lemma FreshRows(votes: VoteTable, round: nat, order: seq<Name>)
    requires Fresh(votes, round, order)
    ensures Rows(votes, round, 0, NoVotes(order))
  {
    NoVotesMembers(order);
    forall i | 0 <= i < |order| ensures Holds(votes, NoVotes(order)[i]) {
      assert order[i] in votes;
    }
  }

  lemma NobodyLeft(votes: VoteTable, round: nat, from: nat)
    requires Rows(votes, round, from, [])
    ensures forall m | m in votes :: votes[m].round != round
  {
  }

  /** Who is in a round is who has a row there. */
  lemma VoterIndex(votes: VoteTable, round: nat, from: nat, order: seq<Name>, m: Name)
    requires Indexed(votes, round, from, order)
    ensures m in order <==> m in votes && votes[m].round == round
  {
    if m in order {
      var i :| 0 <= i < |order| && order[i] == m;
    }
  }

  /** A vote changes one row. */
  lemma VoteInRow(votes: VoteTable, round: nat, ballots: seq<Ballot>, i: nat, candidate: Name)
    requires Rows(votes, round, 0, ballots) && i < |ballots|
    ensures ballots[i].member in votes
    ensures var m := ballots[i].member;
      Rows(votes[m := votes[m].(candidate := candidate)], round, 0, ballots[i := Ballot(m, candidate)])
  {
    var m, ballots' := ballots[i].member, ballots[i := Ballot(ballots[i].member, candidate)];
    assert MembersOf(ballots)[i] == m;
    IndexedDistinct(votes, round, 0, MembersOf(ballots));
    assert MembersOf(ballots') == MembersOf(ballots);
    var r := votes[m := votes[m].(candidate := candidate)];
    forall j | 0 <= j < |ballots'| ensures Holds(r, ballots'[j]) {
      assert Holds(votes, ballots[j]) && MembersOf(ballots)[j] == ballots[j].member;
    }
  }
}
