// Sums over finite maps: the totals behind the escrow's solvency equation, the token supply
// and the indexer's transition count.
module Sums {

  // A Solidity mapping read: an absent key reads as zero.
  function At<K>(m: map<K, nat>, k: K): nat {
    if k in m then m[k] else 0
  }

  ghost function Sum<K>(m: map<K, nat>): nat {
    if m == map[] then 0
    else
      var k :| k in m;
      m[k] + Sum(m - {k})
  }

  // The total does not depend on the order in which keys are taken out.
  lemma {:induction false} SumRemove<K>(m: map<K, nat>, k: K)
    requires k in m
    ensures Sum(m) == m[k] + Sum(m - {k})
    decreases |m|
  {
    var j :| j in m && Sum(m) == m[j] + Sum(m - {j});
    if j != k {
      SumRemove(m - {j}, k);
      SumRemove(m - {k}, j);
      assert m - {j} - {k} == m - {k} - {j};
    }
  }

  // Writing one entry changes the total by exactly the change of that entry.
  lemma SumUpdate<K>(m: map<K, nat>, k: K, v: nat)
    ensures Sum(m[k := v]) + At(m, k) == Sum(m) + v
  {
    SumRemove(m[k := v], k);
    assert m[k := v] - {k} == m - {k};
    if k in m {
      SumRemove(m, k);
    } else {
      assert m - {k} == m;
    }
  }

  lemma SumAtLeast<K>(m: map<K, nat>, k: K)
    ensures At(m, k) <= Sum(m)
  {
    if k in m {
      SumRemove(m, k);
    }
  }

  lemma SumAtLeastTwo<K>(m: map<K, nat>, j: K, k: K)
    requires j != k
    ensures At(m, j) + At(m, k) <= Sum(m)
  {
    if j in m {
      SumRemove(m, j);
      SumAtLeast(m - {j}, k);
    } else {
      SumAtLeast(m, k);
    }
  }

  // A map whose only nonzero entry is at k sums to that entry.
  lemma {:induction false} SumOnly<K>(m: map<K, nat>, k: K)
    requires forall j :: j in m && j != k ==> m[j] == 0
    ensures Sum(m) == At(m, k)
    decreases |m|
  {
    if m != map[] {
      var j :| j in m && Sum(m) == m[j] + Sum(m - {j});
      SumOnly(m - {j}, k);
    }
  }
}
