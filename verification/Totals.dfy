/** Totals over finite tables of amounts, and suffix sums. */
module Totals {

  ghost function Total<K(!new)>(m: map<K, int>): int
    decreases |m|
  {
    if |m| == 0 then 0 else
      var k :| k in m;
      m[k] + Total(m - {k})
  }

  lemma TotalPick<K(!new)>(m: map<K, int>) returns (k: K)
    requires |m| != 0
    ensures k in m && Total(m) == m[k] + Total(m - {k})
  {
    k :| k in m && Total(m) == m[k] + Total(m - {k});
  }

  /** The total does not depend on the order in which rows are taken. */
  lemma {:induction false} TotalRemove<K(!new)>(m: map<K, int>, k: K)
    requires k in m
    ensures Total(m) == m[k] + Total(m - {k})
    decreases |m|
  {
    var j := TotalPick(m);
    if j != k {
      TotalRemove(m - {j}, k);
      TotalRemove(m - {k}, j);
      RemoveTwo(m, j, k);
    }
  }

  lemma RemoveTwo<K(!new)>(m: map<K, int>, j: K, k: K)
    ensures m - {j} - {k} == m - {k} - {j}
  {
  }

  lemma TotalUpdate<K(!new)>(m: map<K, int>, k: K, v: int)
    ensures Total(m[k := v]) == Total(m) + v - (if k in m then m[k] else 0)
  {
    TotalRemove(m[k := v], k);
    assert m[k := v] - {k} == m - {k};
    if k in m {
      TotalRemove(m, k);
    } else {
      assert m - {k} == m;
    }
  }

  lemma {:induction false} TotalNonNegative<K(!new)>(m: map<K, int>)
    requires forall k | k in m :: m[k] >= 0
    ensures Total(m) >= 0
    decreases |m|
  {
    if |m| != 0 {
      var k :| k in m;
      TotalRemove(m, k);
      TotalNonNegative(m - {k});
    }
  }

  lemma {:induction false} TotalZero<K(!new)>(m: map<K, int>)
    requires forall k | k in m :: m[k] == 0
    ensures Total(m) == 0
    decreases |m|
  {
    if |m| != 0 {
      var k :| k in m;
      TotalRemove(m, k);
      TotalZero(m - {k});
    }
  }

  /** The sum of the entries from index i on. */
  function Suffix(s: seq<nat>, i: nat): nat
    decreases |s| - i
  {
    if i >= |s| then 0 else s[i] + Suffix(s, i + 1)
  }

  lemma SuffixMonotone(s: seq<nat>, i: nat, j: nat)
    requires i <= j
    ensures Suffix(s, j) <= Suffix(s, i)
    decreases j - i
  {
    if i < j {
      SuffixMonotone(s, i + 1, j);
    }
  }
}
