/** Finite sums over the values of a map, used for measures and for counting links. */
module Sums {
  import opened Identifiers

  ghost function Sum(m: map<NodeId, int>): int
    decreases |m|
  {
    if m == map[] then 0
    else
      var k :| k in m;
      assert |m - {k}| < |m| by { assert (m - {k}).Keys == m.Keys - {k}; }
      m[k] + Sum(m - {k})
  }

  /** Any key may be split off first. */
  lemma {:induction false} SumSplit(m: map<NodeId, int>, k: NodeId)
    requires k in m
    ensures Sum(m) == m[k] + Sum(m - {k})
    decreases |m|
  {
    var j :| j in m && Sum(m) == m[j] + Sum(m - {j});
    if j != k {
      assert |m - {j}| < |m| && |m - {k}| < |m| by {
        assert (m - {j}).Keys == m.Keys - {j} && (m - {k}).Keys == m.Keys - {k};
      }
      SumSplit(m - {j}, k);
      SumSplit(m - {k}, j);
      assert m - {j} - {k} == m - {k} - {j};
    }
  }

  /** Pointwise comparison of two sums over the same keys. */
  lemma {:induction false} SumLeq(m: map<NodeId, int>, m': map<NodeId, int>)
    requires m.Keys == m'.Keys
    requires forall k :: k in m ==> m[k] <= m'[k]
    ensures Sum(m) <= Sum(m')
    decreases |m|
  {
    if m != map[] {
      var k :| k in m;
      assert |m - {k}| < |m| by { assert (m - {k}).Keys == m.Keys - {k}; }
      assert (m' - {k}).Keys == m'.Keys - {k};
      SumSplit(m, k);
      SumSplit(m', k);
      SumLeq(m - {k}, m' - {k});
    } else {
      assert m' == map[];
    }
  }

  /** A drop of at least d at one key is a drop of at least d in the sum. */
  lemma SumDrop(m: map<NodeId, int>, m': map<NodeId, int>, k: NodeId, d: int)
    requires m.Keys == m'.Keys && k in m
    requires forall n :: n in m ==> m'[n] <= m[n]
    requires m'[k] + d <= m[k]
    ensures Sum(m') + d <= Sum(m)
  {
    SumSplit(m, k);
    SumSplit(m', k);
    assert (m - {k}).Keys == m.Keys - {k} && (m' - {k}).Keys == m'.Keys - {k};
    SumLeq(m' - {k}, m - {k});
  }

  /** Drops at two different keys add up. */
  lemma SumDropTwo(m: map<NodeId, int>, m': map<NodeId, int>, j: NodeId, k: NodeId, d: int, e: int)
    requires m.Keys == m'.Keys && j in m && k in m && j != k
    requires forall n :: n in m ==> m'[n] <= m[n]
    requires m'[j] + d <= m[j] && m'[k] + e <= m[k]
    ensures Sum(m') + d + e <= Sum(m)
  {
    SumSplit(m, j);
    SumSplit(m', j);
    assert (m - {j}).Keys == m.Keys - {j} && (m' - {j}).Keys == m'.Keys - {j};
    SumDrop(m - {j}, m' - {j}, k, e);
  }

  lemma MultiplyStep(n: nat, n': nat, c: nat)
    requires n' == n + 1
    ensures n' * c == n * c + c
  {
  }

  /** A sum whose terms all lie between 0 and c. */
  lemma {:induction false} SumBound(m: map<NodeId, int>, c: nat)
    requires forall k :: k in m ==> 0 <= m[k] <= c
    ensures 0 <= Sum(m) <= |m| * c
    decreases |m|
  {
    if m == map[] {
    } else {
      var k :| k in m;
      assert (m - {k}).Keys == m.Keys - {k};
      SumSplit(m, k);
      SumBound(m - {k}, c);
      MultiplyStep(|m - {k}|, |m|, c);
    }
  }

  lemma {:induction false} SumNonNegative(m: map<NodeId, int>)
    requires forall k :: k in m ==> m[k] >= 0
    ensures Sum(m) >= 0
    decreases |m|
  {
    if m == map[] {
    } else {
      var k :| k in m;
      assert (m - {k}).Keys == m.Keys - {k};
      SumSplit(m, k);
      SumNonNegative(m - {k});
    }
  }
}
