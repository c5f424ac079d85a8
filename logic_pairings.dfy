/**
 * logic/pairings.py: `round_robin`, every unordered pair of roster positions
 * once, as `(players[i], players[j])` with `i < j`, in the order of the nested
 * `for i` / `for j` loops. pairings.py holds a verbatim copy of the same function.
 */
module LogicPairings {

  /** The pairs `(a, b)` with `a < b < j`, ordered by `b` (row `a` of the loops, cut at `j`). */
  function Row(a: nat, j: nat): seq<(nat, nat)>
  {
    if j <= a + 1 then [] else Row(a, j - 1) + [(a, j - 1)]
  }

  /** The index pairs the loops emit for the first `i` values of `i`, on a roster of `n`. */
  function PairsBefore(n: nat, i: nat): seq<(nat, nat)>
  {
    if i == 0 then [] else PairsBefore(n, i - 1) + Row(i - 1, n)
  }

  /** Lexicographic order on index pairs. */
  predicate LexLess(x: (nat, nat), y: (nat, nat))
  {
    x.0 < y.0 || (x.0 == y.0 && x.1 < y.1)
  }

  method RoundRobin<T>(players: seq<T>) returns (pairings: seq<(T, T)>)
    ensures var idx := PairsBefore(|players|, |players|);
      |pairings| == |idx| &&
      forall k :: 0 <= k < |idx| ==>
        idx[k].0 < idx[k].1 < |players| && pairings[k] == (players[idx[k].0], players[idx[k].1])
  {
    pairings := [];
    var numPlayers := |players|;
    ghost var done: seq<(nat, nat)> := [];
    for i := 0 to numPlayers
      invariant done == PairsBefore(numPlayers, i)
      invariant |pairings| == |done|
      invariant forall k :: 0 <= k < |done| ==>
        done[k].0 < done[k].1 < numPlayers && pairings[k] == (players[done[k].0], players[done[k].1])
    {
      for j := i + 1 to numPlayers
        invariant done == PairsBefore(numPlayers, i) + Row(i, j)
        invariant |pairings| == |done|
        invariant forall k :: 0 <= k < |done| ==>
          done[k].0 < done[k].1 < numPlayers && pairings[k] == (players[done[k].0], players[done[k].1])
      {
        pairings := pairings + [(players[i], players[j])];
        done := done + [(i, j)];
      }
    }
  }

  lemma {:induction false} RowFacts(a: nat, j: nat)
    ensures |Row(a, j)| == if j <= a + 1 then 0 else j - a - 1
    ensures forall k :: 0 <= k < |Row(a, j)| ==> Row(a, j)[k] == (a, a + 1 + k)
    decreases j
  {
    if j > a + 1 {
      RowFacts(a, j - 1);
    }
  }

  /** round_robin returns exactly n(n-1)/2 pairs. */
  lemma {:induction false} PairsBeforeCount(n: nat, i: nat)
    requires i <= n
    ensures 2 * |PairsBefore(n, i)| == i * (2 * n - i - 1)
  {
    if i > 0 {
      PairsBeforeCount(n, i - 1);
      RowFacts(i - 1, n);
      assert i * (2 * n - i - 1) == (i - 1) * (2 * n - (i - 1) - 1) + 2 * (n - i);
    }
  }

  lemma RoundRobinCount(n: nat)
    ensures |PairsBefore(n, n)| == n * (n - 1) / 2
  {
    PairsBeforeCount(n, n);
    assert n * (2 * n - n - 1) == n * (n - 1);
  }

  lemma RowMembers(a: nat, j: nat, x: nat, y: nat)
    ensures (x, y) in Row(a, j) <==> x == a && a < y < j
  {
    RowFacts(a, j);
    if x == a && a < y < j {
      assert Row(a, j)[y - a - 1] == (x, y);
    }
  }

  /** A pair of positions is emitted exactly when its first position is below `i` and a < b < n. */
  lemma {:induction false} PairsBeforeMembers(n: nat, i: nat, a: nat, b: nat)
    requires i <= n
    ensures (a, b) in PairsBefore(n, i) <==> a < b < n && a < i
  {
    if i > 0 {
      var p, q := PairsBefore(n, i - 1), Row(i - 1, n);
      var inP, inQ := (a, b) in p, (a, b) in q;
      assert inP <==> a < b < n && a < i - 1 by {
        PairsBeforeMembers(n, i - 1, a, b);
      }
      assert inQ <==> a == i - 1 && a < b < n by {
        RowMembers(i - 1, n, a, b);
      }
      assert PairsBefore(n, i) == p + q;
      InConcat((a, b), p, q);
    }
  }

  lemma InConcat<T>(x: T, p: seq<T>, q: seq<T>)
    ensures x in p + q <==> x in p || x in q
  {
  }

  /** The output is strictly increasing in (i, j), so no pair is emitted twice. */
  lemma {:induction false} PairsBeforeSorted(n: nat, i: nat)
    requires i <= n
    ensures forall k, l :: 0 <= k < l < |PairsBefore(n, i)| ==> LexLess(PairsBefore(n, i)[k], PairsBefore(n, i)[l])
    ensures forall k :: 0 <= k < |PairsBefore(n, i)| ==> PairsBefore(n, i)[k].0 < i
  {
    if i > 0 {
      PairsBeforeSorted(n, i - 1);
      RowFacts(i - 1, n);
      var p, q := PairsBefore(n, i - 1), Row(i - 1, n);
      assert forall k :: 0 <= k < |p + q| ==> (p + q)[k] == if k < |p| then p[k] else q[k - |p|];
    }
  }

  /**
   * Every unordered pair of distinct positions appears exactly once, in
   * increasing (i, j) order.
   */
  lemma EachPairOnce(n: nat)
    ensures forall a: nat, b: nat :: a < b < n <==> (a, b) in PairsBefore(n, n)
    ensures forall k, l :: 0 <= k < l < |PairsBefore(n, n)| ==> LexLess(PairsBefore(n, n)[k], PairsBefore(n, n)[l])
    ensures forall k, l ::
      (0 <= k < |PairsBefore(n, n)| && 0 <= l < |PairsBefore(n, n)| && PairsBefore(n, n)[k] == PairsBefore(n, n)[l])
      ==> k == l
  {
    forall a: nat, b: nat ensures a < b < n <==> (a, b) in PairsBefore(n, n) {
      PairsBeforeMembers(n, n, a, b);
    }
    PairsBeforeSorted(n, n);
  }
}
