/**
 * `itertools.combinations(xs, 2)` on index positions: the pairs (i, j) with
 * i < j < n in lexicographic order. The potentials and the minimum-distance
 * scan walk these pairs, so every unordered pair of components is visited
 * once and no component is paired with itself.
 */
module Combinations {

  /** The pairs (a, b) with `i <= a < b < n`, in lexicographic order. */
  function PairsFrom(i: nat, n: nat): (r: seq<(nat, nat)>)
    ensures forall k :: 0 <= k < |r| ==> i <= r[k].0 < r[k].1 < n
    decreases n - i
  {
    if i >= n then []
    else seq(n - i - 1, k requires 0 <= k < n - i - 1 => (i, i + 1 + k)) + PairsFrom(i + 1, n)
  }

  /** `combinations(range(n), 2)` */
  function Pairs(n: nat): (r: seq<(nat, nat)>)
    ensures forall k :: 0 <= k < |r| ==> r[k].0 < r[k].1 < n
  {
    PairsFrom(0, n)
  }

  /** Lexicographic order on pairs. */
  predicate Before(p: (nat, nat), q: (nat, nat))
  {
    p.0 < q.0 || (p.0 == q.0 && p.1 < q.1)
  }

  /** Every pair i < j from `i0` on is listed. */
  lemma {:induction false} PairsFromComplete(i0: nat, n: nat, i: nat, j: nat)
    requires i0 <= i < j < n
    ensures (i, j) in PairsFrom(i0, n)
    decreases n - i0
  {
    var row := seq(n - i0 - 1, k requires 0 <= k < n - i0 - 1 => (i0, i0 + 1 + k));
    if i == i0 {
      assert row[j - i0 - 1] == (i, j);
      assert PairsFrom(i0, n) == row + PairsFrom(i0 + 1, n);
    } else {
      PairsFromComplete(i0 + 1, n, i, j);
    }
  }

  /** The listing is strictly increasing, so no pair appears twice. */
  lemma {:induction false} PairsFromIncreasing(i0: nat, n: nat)
    ensures forall a, b :: 0 <= a < b < |PairsFrom(i0, n)| ==> Before(PairsFrom(i0, n)[a], PairsFrom(i0, n)[b])
    decreases n - i0
  {
    if i0 < n {
      PairsFromIncreasing(i0 + 1, n);
      var row := seq(n - i0 - 1, k requires 0 <= k < n - i0 - 1 => (i0, i0 + 1 + k));
      var rest := PairsFrom(i0 + 1, n);
      var r := PairsFrom(i0, n);
      assert r == row + rest;
      forall a, b | 0 <= a < b < |r|
        ensures Before(r[a], r[b])
      {
        if b < |row| {
        } else if a < |row| {
          assert r[b] == rest[b - |row|];
        } else {
          assert r[a] == rest[a - |row|] && r[b] == rest[b - |row|];
        }
      }
    }
  }

  /** Each unordered pair of distinct indices below `n` is listed exactly once, as (min, max). */
  lemma PairsExactlyOnce(n: nat)
    ensures forall i, j :: 0 <= i < j < n ==> (i, j) in Pairs(n)
    ensures forall a, b :: 0 <= a < b < |Pairs(n)| ==> Pairs(n)[a] != Pairs(n)[b]
    ensures forall k :: 0 <= k < |Pairs(n)| ==> Pairs(n)[k].0 != Pairs(n)[k].1
  {
    forall i, j | 0 <= i < j < n
      ensures (i, j) in Pairs(n)
    {
      PairsFromComplete(0, n, i, j);
    }
    PairsFromIncreasing(0, n);
  }

  lemma {:induction false} PairsFromCount(i: nat, n: nat)
    requires i <= n
    ensures 2 * |PairsFrom(i, n)| == (n - i) * (n - i - 1)
    decreases n - i
  {
    if i < n {
      PairsFromCount(i + 1, n);
    }
  }

  /** There are n(n-1)/2 pairs. */
  lemma PairsCount(n: nat)
    ensures 2 * |Pairs(n)| == n * (n - 1)
  {
    PairsFromCount(0, n);
  }

  /**
   * Two pair listings have the same length exactly when the counts are equal
   * or both are below two; this is when a strict `zip` of them succeeds.
   */
  lemma PairCountsEqual(n: nat, m: nat)
    ensures |Pairs(n)| == |Pairs(m)| <==> n == m || (n <= 1 && m <= 1)
  {
    PairsCount(n);
    PairsCount(m);
    if n < m && m >= 2 {
      TriangleGrows(n, m);
    } else if m < n && n >= 2 {
      TriangleGrows(m, n);
    }
  }

  lemma TriangleGrows(n: nat, m: nat)
    requires n < m && m >= 2
    ensures n * (n - 1) < m * (m - 1)
  {
    if n == 0 {
    } else {
      assert n * (n - 1) <= (m - 1) * (n - 1) by {
        MulMono(n, m - 1, n - 1);
      }
      assert (m - 1) * (n - 1) < (m - 1) * m by {
        MulStrict(m - 1, n - 1, m);
      }
    }
  }

  lemma MulMono(a: nat, b: nat, c: nat)
    requires a <= b
    ensures a * c <= b * c
  {
  }

  lemma MulStrict(a: nat, b: nat, c: nat)
    requires a > 0 && b < c
    ensures a * b < a * c
  {
  }
}
