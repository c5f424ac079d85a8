/**
 * pairings.py `australian_draw_pairings` and the drawing half of
 * `lagged_australian_pairings`: a greedy pass over a rank order with a
 * `used[]` array. Each unused player i takes the nearest unused lower-ranked
 * player they have not met, or failing that the nearest unused lower-ranked
 * player; a player with no unused player below them stays unpaired (no BYE
 * is added). `coin(i)` stands for the `random.choice([p1, p2])` made when the
 * player at rank i is paired (true picks that player).
 */
module Draws {
  import opened Types
  import opened Ranking
  import opened Pairings

  /** Rank m is a candidate partner for rank i: unused and, in the first search, not met before. */
  predicate Eligible(ns: seq<Name>, h: Rounds, i: nat, used: set<nat>, m: nat, unmet: bool)
    requires i < |ns| && m < |ns|
  {
    m !in used && (unmet ==> !Played(ns[i], ns[m], h))
  }

  /** The nearest candidate for rank i at or after rank j. */
  function Nearest(ns: seq<Name>, h: Rounds, i: nat, used: set<nat>, j: nat, unmet: bool): (r: Option<nat>)
    requires i < |ns|
    ensures r.Some? ==> j <= r.value < |ns| && Eligible(ns, h, i, used, r.value, unmet) &&
                        forall m :: j <= m < r.value ==> !Eligible(ns, h, i, used, m, unmet)
    ensures r.None? ==> forall m :: j <= m < |ns| ==> !Eligible(ns, h, i, used, m, unmet)
    decreases |ns| - j
  {
    if j >= |ns| then None
    else if Eligible(ns, h, i, used, j, unmet) then Some(j)
    else Nearest(ns, h, i, used, j + 1, unmet)
  }

  /** The partner of rank i: the nearest opponent not met, else the nearest unused player. */
  function Partner(ns: seq<Name>, h: Rounds, i: nat, used: set<nat>): Option<nat>
    requires i < |ns|
  {
    var f := Nearest(ns, h, i, used, i + 1, true);
    if f.Some? then f else Nearest(ns, h, i, used, i + 1, false)
  }

  /**
   * The greedy pass from rank i on, with `used` the ranks already paired:
   * the rank pairs it forms, in order. Both ranks of a pair are unused, and
   * the first is the higher-ranked.
   */
  function DrawFrom(ns: seq<Name>, h: Rounds, i: nat, used: set<nat>): (r: seq<(nat, nat)>)
    ensures forall k :: 0 <= k < |r| ==> i <= r[k].0 < r[k].1 < |ns| && r[k].0 !in used && r[k].1 !in used
    decreases |ns| - i
  {
    if i >= |ns| then []
    else if i in used then DrawFrom(ns, h, i + 1, used)
    else
      match Partner(ns, h, i, used)
      case None => DrawFrom(ns, h, i + 1, used)
      case Some(j) => [(i, j)] + DrawFrom(ns, h, i + 1, used + {i, j})
  }

  /** The pairing tuples of rank pairs. */
  function Lift(ns: seq<Name>, idx: seq<(nat, nat)>, coin: nat -> bool): (ps: seq<Pairing>)
    requires forall k :: 0 <= k < |idx| ==> idx[k].0 < |ns| && idx[k].1 < |ns|
    ensures |ps| == |idx|
  {
    seq(|idx|, k requires 0 <= k < |idx| =>
      Pairing(ns[idx[k].0], ns[idx[k].1], if coin(idx[k].0) then ns[idx[k].0] else ns[idx[k].1]))
  }

  /** The greedy draw on the rank order `ns`. */
  function GreedyDraw(ns: seq<Name>, h: Rounds, coin: nat -> bool): seq<Pairing>
  {
    Lift(ns, DrawFrom(ns, h, 0, {}), coin)
  }

  // ---------------------------------------------------------------------------
  // The loops
  // ---------------------------------------------------------------------------

  /** `australian_draw_pairings`: the greedy draw over the (wins, spread) rank order. */
  method AustralianDrawPairings(players: seq<Player>, h: Rounds, coin: nat -> bool) returns (pairings: seq<Pairing>)
    ensures pairings == GreedyDraw(Names(Ranked(players)), h, coin)
  {
    var sortedPlayers := Ranked(players);
    pairings := Greedy(Names(sortedPlayers), h, coin);
  }

  /** The `while i < len(...)` loop with the `used` array. */
  method Greedy(ns: seq<Name>, h: Rounds, coin: nat -> bool) returns (pairings: seq<Pairing>)
    ensures pairings == GreedyDraw(ns, h, coin)
  {
    var n := |ns|;
    var used := new bool[n](_ => false);
    ghost var u: set<nat> := {};
    ghost var idx: seq<(nat, nat)> := [];
    pairings := [];
    var i := 0;
    while i < n
      invariant 0 <= i <= n
      invariant Visited(ns, h, coin, used[..], i, u, idx, pairings)
    {
      pairings, u, idx := Visit(ns, h, coin, used, i, u, idx, pairings);
      i := i + 1;
    }
    assert DrawFrom(ns, h, n, u) == [];
    assert idx == DrawFrom(ns, h, 0, {});
  }

  /**
   * The loop state before rank i: `used` marks the ranks in u, the pairs formed
   * so far (as rank pairs, idx) followed by the rest of the pass make up the
   * whole pass, and the pairings are those pairs lifted.
   */
  ghost predicate Visited(ns: seq<Name>, h: Rounds, coin: nat -> bool, used: seq<bool>, i: nat,
                          u: set<nat>, idx: seq<(nat, nat)>, pairings: seq<Pairing>)
  {
    |used| == |ns| && i <= |ns| &&
    (forall m :: 0 <= m < |ns| ==> (used[m] <==> m in u)) &&
    idx + DrawFrom(ns, h, i, u) == DrawFrom(ns, h, 0, {}) &&
    (forall k :: 0 <= k < |idx| ==> idx[k].0 < |ns| && idx[k].1 < |ns|) &&
    pairings == Lift(ns, idx, coin)
  }

  /** One iteration of the loop, at rank i. */
  method Visit(ns: seq<Name>, h: Rounds, coin: nat -> bool, used: array<bool>, i: nat,
               ghost u: set<nat>, ghost idx: seq<(nat, nat)>, pairings: seq<Pairing>)
    returns (pairings': seq<Pairing>, ghost u': set<nat>, ghost idx': seq<(nat, nat)>)
    requires i < |ns| && Visited(ns, h, coin, used[..], i, u, idx, pairings)
    modifies used
    ensures Visited(ns, h, coin, used[..], i + 1, u', idx', pairings')
  {
    pairings', u', idx' := pairings, u, idx;
    assert forall m :: 0 <= m < |ns| ==> (used[m] <==> m in u);
    if used[i] {
      StepSkipped(ns, h, i, u);
      return;
    }
    var p1 := ns[i];
    var j := FindPartner(ns, h, used, i, u);
    if j.None? {
      StepSkipped(ns, h, i, u);
      return;
    }
    var p2 := ns[j.value];
    pairings' := pairings + [Pairing(p1, p2, if coin(i) then p1 else p2)];
    used[i] := true;
    used[j.value] := true;
    StepPaired(ns, h, i, u, j.value, idx);
    LiftSnoc(ns, idx, (i, j.value), coin);
    idx' := idx + [(i, j.value)];
    u' := u + {i, j.value};
  }

  /** A used rank, or one without a partner, adds no pair. */
  lemma StepSkipped(ns: seq<Name>, h: Rounds, i: nat, u: set<nat>)
    requires i < |ns| && (i in u || Partner(ns, h, i, u).None?)
    ensures DrawFrom(ns, h, i, u) == DrawFrom(ns, h, i + 1, u)
  {
  }

  lemma StepPaired(ns: seq<Name>, h: Rounds, i: nat, u: set<nat>, j: nat, idx: seq<(nat, nat)>)
    requires i < |ns| && i !in u && Partner(ns, h, i, u) == Some(j)
    ensures idx + DrawFrom(ns, h, i, u) == (idx + [(i, j)]) + DrawFrom(ns, h, i + 1, u + {i, j})
  {
    DrawFromPaired(ns, h, i, u, j);
  }

  /** When rank i is unused and has partner j, the pass from i is the pair (i, j) and then the pass from i + 1. */
  lemma DrawFromPaired(ns: seq<Name>, h: Rounds, i: nat, u: set<nat>, j: nat)
    requires i < |ns| && i !in u && Partner(ns, h, i, u) == Some(j)
    ensures i < j < |ns|
    ensures DrawFrom(ns, h, i, u) == [(i, j)] + DrawFrom(ns, h, i + 1, u + {i, j})
  {
    assert Nearest(ns, h, i, u, i + 1, true) == Some(j) || Nearest(ns, h, i, u, i + 1, false) == Some(j);
  }

  lemma LiftSnoc(ns: seq<Name>, idx: seq<(nat, nat)>, pr: (nat, nat), coin: nat -> bool)
    requires forall k :: 0 <= k < |idx| ==> idx[k].0 < |ns| && idx[k].1 < |ns|
    requires pr.0 < |ns| && pr.1 < |ns|
    ensures Lift(ns, idx + [pr], coin) ==
      Lift(ns, idx, coin) + [Pairing(ns[pr.0], ns[pr.1], if coin(pr.0) then ns[pr.0] else ns[pr.1])]
  {
  }

  /** The two `for j in range(i+1, ...)` searches. */
  method FindPartner(ns: seq<Name>, h: Rounds, used: array<bool>, i: nat, ghost u: set<nat>) returns (j: Option<nat>)
    requires i < |ns| == used.Length
    requires forall m :: 0 <= m < |ns| ==> (used[m] <==> m in u)
    ensures j == Partner(ns, h, i, u)
  {
    var n := |ns|;
    for k := i + 1 to n
      invariant Nearest(ns, h, i, u, i + 1, true) == Nearest(ns, h, i, u, k, true)
    {
      if !used[k] {
        var played := HasPlayed(ns[i], ns[k], h);
        if !played {
          return Some(k);
        }
      }
    }
    for k := i + 1 to n
      invariant Nearest(ns, h, i, u, i + 1, false) == Nearest(ns, h, i, u, k, false)
    {
      if !used[k] {
        return Some(k);
      }
    }
    return None;
  }

  // ---------------------------------------------------------------------------
  // What the greedy draw guarantees
  // ---------------------------------------------------------------------------

  /** The number of unused ranks in [i, n). */
  function Free(n: nat, used: set<nat>, i: nat): nat
    decreases n - i
  {
    if i >= n then 0 else (if i in used then 0 else 1) + Free(n, used, i + 1)
  }

  lemma {:induction false} FreeRemove(n: nat, used: set<nat>, i: nat, j: nat)
    requires i <= j < n && j !in used
    ensures Free(n, used + {j}, i) == Free(n, used, i) - 1
    decreases n - i
  {
    if i < j {
      FreeRemove(n, used, i + 1, j);
    }
    else {
      FreeSame(n, used, {j}, i + 1);
    }
  }

  lemma {:induction false} FreeSame(n: nat, used: set<nat>, extra: set<nat>, i: nat)
    requires forall m :: m in extra ==> m < i
    ensures Free(n, used + extra, i) == Free(n, used, i)
    decreases n - i
  {
    if i < n {
      FreeSame(n, used, extra, i + 1);
    }
  }

  lemma {:induction false} FreeNone(n: nat, used: set<nat>, i: nat)
    requires forall m :: i <= m < n ==> m in used
    ensures Free(n, used, i) == 0
    decreases n - i
  {
    if i < n {
      FreeNone(n, used, i + 1);
    }
  }

  lemma FreeAll(n: nat, i: nat)
    ensures Free(n, {}, i) == if i <= n then n - i else 0
    decreases n - i
  {
    if i < n {
      FreeAll(n, i + 1);
    }
  }

  /** When the nearest-unused search fails, every rank below i is used. */
  lemma NoPartnerAllUsed(ns: seq<Name>, h: Rounds, i: nat, used: set<nat>)
    requires i < |ns| && Partner(ns, h, i, used).None?
    ensures forall m :: i < m < |ns| ==> m in used
  {
    assert Nearest(ns, h, i, used, i + 1, false).None?;
    forall m | i < m < |ns| ensures m in used {
      assert !Eligible(ns, h, i, used, m, false);
    }
  }

  /** The greedy pass pairs off all but at most one of the unused ranks: ⌊free/2⌋ pairs. */
  lemma {:induction false} DrawCount(ns: seq<Name>, h: Rounds, i: nat, used: set<nat>)
    ensures |DrawFrom(ns, h, i, used)| == Free(|ns|, used, i) / 2
    decreases |ns| - i
  {
    if i < |ns| {
      if i in used {
        DrawCount(ns, h, i + 1, used);
      } else {
        match Partner(ns, h, i, used)
        case None =>
          NoPartnerAllUsed(ns, h, i, used);
          FreeNone(|ns|, used, i + 1);
          DrawCount(ns, h, i + 1, used);
        case Some(j) =>
          DrawCount(ns, h, i + 1, used + {i, j});
          FreeTwo(|ns|, used, i, j);
      }
    }
  }

  /** Pairing i with j takes two unused ranks. */
  lemma FreeTwo(n: nat, used: set<nat>, i: nat, j: nat)
    requires i < j < n && i !in used && j !in used
    ensures Free(n, used + {i, j}, i + 1) == Free(n, used, i) - 2
  {
    FreeRemove(n, used, i, j);
    assert used + {i, j} == (used + {j}) + {i};
    FreeSame(n, used + {j}, {i}, i + 1);
    assert Free(n, used + {j}, i) == Free(n, used + {j}, i + 1) + 1;
  }

  /** The two ranks of pair k are both different from the two ranks of pair l. */
  predicate Apart(a: (nat, nat), b: (nat, nat))
  {
    a.0 != b.0 && a.0 != b.1 && a.1 != b.0 && a.1 != b.1
  }

  predicate AllApart(r: seq<(nat, nat)>)
  {
    forall k, l :: 0 <= k < l < |r| ==> Apart(r[k], r[l])
  }

  /** No rank appears in two pairs of the draw. */
  lemma {:induction false} DrawDisjoint(ns: seq<Name>, h: Rounds, i: nat, used: set<nat>)
    ensures AllApart(DrawFrom(ns, h, i, used))
    decreases |ns| - i
  {
    if i < |ns| {
      if i in used {
        DrawDisjoint(ns, h, i + 1, used);
      } else {
        match Partner(ns, h, i, used)
        case None =>
          DrawDisjoint(ns, h, i + 1, used);
        case Some(j) =>
          DrawDisjoint(ns, h, i + 1, used + {i, j});
          ConsApart(i, j, DrawFrom(ns, h, i + 1, used + {i, j}));
      }
    }
  }

  lemma ConsApart(i: nat, j: nat, tail: seq<(nat, nat)>)
    requires AllApart(tail)
    requires forall k :: 0 <= k < |tail| ==> tail[k].0 !in {i, j} && tail[k].1 !in {i, j}
    ensures AllApart([(i, j)] + tail)
  {
    var r := [(i, j)] + tail;
    forall k, l | 0 <= k < l < |r| ensures Apart(r[k], r[l]) {
      assert r[l] == tail[l - 1];
      if k > 0 {
        assert r[k] == tail[k - 1];
      }
    }
  }

  /** Rank m is in some pair of the draw. */
  predicate Covered(r: seq<(nat, nat)>, m: nat)
  {
    exists k :: 0 <= k < |r| && (r[k].0 == m || r[k].1 == m)
  }

  /** Every unused rank in [i, n) other than `u` (other than none, when `all`) is in a pair of `r`. */
  predicate CoversUnused(r: seq<(nat, nat)>, n: nat, used: set<nat>, i: nat, u: nat, all: bool)
  {
    forall m :: i <= m < n && m !in used && (all || m != u) ==> Covered(r, m)
  }

  /** `u` is the one unused rank in [i, n) left unpaired; every rank below it is used or paired. */
  predicate LeftOver(r: seq<(nat, nat)>, n: nat, used: set<nat>, i: nat, u: nat)
  {
    i <= u < n && u !in used && !Covered(r, u) && forall m :: u < m < n ==> m in used || Covered(r, m)
  }

  /** Coverage of the unused ranks in [i, n), `free` of them, with `u` the one left over when `free` is odd. */
  predicate Coverage(r: seq<(nat, nat)>, n: nat, used: set<nat>, i: nat, u: nat, free: nat)
  {
    CoversUnused(r, n, used, i, u, free % 2 == 0) && (free % 2 == 1 ==> LeftOver(r, n, used, i, u))
  }

  lemma ConsCovered(i: nat, j: nat, tail: seq<(nat, nat)>, m: nat)
    requires Covered(tail, m) || m == i || m == j
    ensures Covered([(i, j)] + tail, m)
  {
    var r := [(i, j)] + tail;
    if m == i || m == j {
      assert r[0] == (i, j);
    } else {
      var k :| 0 <= k < |tail| && (tail[k].0 == m || tail[k].1 == m);
      assert r[k + 1] == tail[k];
    }
  }

  lemma ConsNotCovered(i: nat, j: nat, tail: seq<(nat, nat)>, m: nat)
    requires !Covered(tail, m) && m != i && m != j
    ensures !Covered([(i, j)] + tail, m)
  {
    var r := [(i, j)] + tail;
    forall k | 0 <= k < |r| ensures r[k].0 != m && r[k].1 != m {
      if k > 0 {
        assert r[k] == tail[k - 1];
      }
    }
  }

  /** `Coverage` of the pass from rank i with the given `used`. */
  predicate DrawCovers(ns: seq<Name>, h: Rounds, i: nat, used: set<nat>, u: nat)
  {
    Coverage(DrawFrom(ns, h, i, used), |ns|, used, i, u, Free(|ns|, used, i))
  }

  /**
   * With an even number of unused ranks the draw pairs every one of them;
   * with an odd number it leaves exactly one, `u`, unpaired, and every rank
   * below `u` is paired.
   */
  lemma {:induction false} DrawCoverage(ns: seq<Name>, h: Rounds, i: nat, used: set<nat>) returns (u: nat)
    ensures DrawCovers(ns, h, i, used, u)
    decreases |ns| - i, 2
  {
    if i >= |ns| {
      u := 0;
      EndCoverage(ns, h, i, used);
    } else if i in used {
      u := DrawCoverage(ns, h, i + 1, used);
      UsedCoverage(ns, h, i, used, u);
    } else {
      u := UnusedCoverage(ns, h, i, used);
    }
  }

  /** The draw from an unused rank i: it is paired, or it is the one left over. */
  lemma {:induction false} UnusedCoverage(ns: seq<Name>, h: Rounds, i: nat, used: set<nat>) returns (u: nat)
    requires i < |ns| && i !in used
    ensures DrawCovers(ns, h, i, used, u)
    decreases |ns| - i, 1
  {
    var p := Partner(ns, h, i, used);
    if p.None? {
      u := i;
      NoPartnerAllUsed(ns, h, i, used);
      NoneCoverage(ns, h, i, used);
    } else {
      u := PairedCoverage(ns, h, i, used, p.value);
    }
  }

  /** Rank i paired with j: the draw from i + 1 on, with both marked used, covers the rest. */
  lemma {:induction false} PairedCoverage(ns: seq<Name>, h: Rounds, i: nat, used: set<nat>, j: nat) returns (u: nat)
    requires i < |ns| && i !in used && Partner(ns, h, i, used) == Some(j)
    ensures DrawCovers(ns, h, i, used, u)
    decreases |ns| - i, 0
  {
    DrawFromPaired(ns, h, i, used, j);
    u := DrawCoverage(ns, h, i + 1, used + {i, j});
    FreeTwo(|ns|, used, i, j);
    SomeCoverage(ns, h, i, used, j, u);
  }

  lemma EndCoverage(ns: seq<Name>, h: Rounds, i: nat, used: set<nat>)
    requires i >= |ns|
    ensures DrawCovers(ns, h, i, used, 0)
  {
    assert Free(|ns|, used, i) == 0;
  }

  lemma UsedCoverage(ns: seq<Name>, h: Rounds, i: nat, used: set<nat>, u: nat)
    requires i < |ns| && i in used
    requires DrawCovers(ns, h, i + 1, used, u)
    ensures DrawCovers(ns, h, i, used, u)
  {
    assert DrawFrom(ns, h, i, used) == DrawFrom(ns, h, i + 1, used);
    assert Free(|ns|, used, i) == Free(|ns|, used, i + 1);
  }

  lemma NoneCoverage(ns: seq<Name>, h: Rounds, i: nat, used: set<nat>)
    requires i < |ns| && i !in used && Partner(ns, h, i, used).None?
    requires forall m :: i < m < |ns| ==> m in used
    ensures Free(|ns|, used, i) == 1
    ensures DrawCovers(ns, h, i, used, i)
  {
    FreeNone(|ns|, used, i + 1);
    var r := DrawFrom(ns, h, i, used);
    assert r == DrawFrom(ns, h, i + 1, used);
  }

  lemma SomeCoverage(ns: seq<Name>, h: Rounds, i: nat, used: set<nat>, j: nat, u: nat)
    requires i < |ns| && i !in used && Partner(ns, h, i, used) == Some(j)
    requires Free(|ns|, used + {i, j}, i + 1) == Free(|ns|, used, i) - 2
    requires DrawCovers(ns, h, i + 1, used + {i, j}, u)
    ensures DrawCovers(ns, h, i, used, u)
  {
    DrawFromPaired(ns, h, i, used, j);
    var tail := DrawFrom(ns, h, i + 1, used + {i, j});
    var r := DrawFrom(ns, h, i, used);
    var n := |ns|;
    var all := Free(n, used, i) % 2 == 0;
    assert all == (Free(n, used + {i, j}, i + 1) % 2 == 0);
    forall m | i <= m < n && m !in used && (all || m != u) ensures Covered(r, m) {
      ConsCovered(i, j, tail, m);
    }
    if !all {
      ConsNotCovered(i, j, tail, u);
      forall m | u < m < n && m !in used ensures Covered(r, m) {
        ConsCovered(i, j, tail, m);
      }
      assert LeftOver(r, n, used, i, u);
    }
  }

  /** A whole draw from an empty `used` array: ⌊n/2⌋ pairs, every rank paired when n is even, one left when n is odd. */
  lemma GreedyDrawShape(ns: seq<Name>, h: Rounds, coin: nat -> bool) returns (u: nat)
    ensures |GreedyDraw(ns, h, coin)| == |ns| / 2
    ensures AllApart(DrawFrom(ns, h, 0, {}))
    ensures Coverage(DrawFrom(ns, h, 0, {}), |ns|, {}, 0, u, |ns|)
  {
    DrawCount(ns, h, 0, {});
    DrawDisjoint(ns, h, 0, {});
    FreeAll(|ns|, 0);
    u := DrawCoverage(ns, h, 0, {});
  }

  /** The ranks taken by the first k pairs of a draw. */
  function TakenBy(r: seq<(nat, nat)>, k: nat): set<nat>
    requires k <= |r|
  {
    if k == 0 then {} else {r[0].0, r[0].1} + TakenBy(r[1..], k - 1)
  }

  /** Each pair's second rank is the `Partner` of its first, given `used` and the ranks taken by earlier pairs. */
  predicate PartnersFrom(ns: seq<Name>, h: Rounds, used: set<nat>, r: seq<(nat, nat)>)
  {
    forall k :: 0 <= k < |r| ==> r[k].0 < |ns| && Partner(ns, h, r[k].0, used + TakenBy(r, k)) == Some(r[k].1)
  }

  /** The partner rule holds at every step of the pass. */
  lemma {:induction false} DrawPartners(ns: seq<Name>, h: Rounds, i: nat, used: set<nat>)
    ensures PartnersFrom(ns, h, used, DrawFrom(ns, h, i, used))
    decreases |ns| - i
  {
    if i < |ns| {
      if i in used {
        DrawPartners(ns, h, i + 1, used);
      } else {
        match Partner(ns, h, i, used)
        case None =>
          DrawPartners(ns, h, i + 1, used);
        case Some(j) =>
          DrawPartners(ns, h, i + 1, used + {i, j});
          ConsPartners(ns, h, used, i, j, DrawFrom(ns, h, i + 1, used + {i, j}));
      }
    }
  }

  lemma ConsPartners(ns: seq<Name>, h: Rounds, used: set<nat>, i: nat, j: nat, tail: seq<(nat, nat)>)
    requires i < |ns| && Partner(ns, h, i, used) == Some(j)
    requires PartnersFrom(ns, h, used + {i, j}, tail)
    ensures PartnersFrom(ns, h, used, [(i, j)] + tail)
  {
    var r := [(i, j)] + tail;
    assert r[0] == (i, j) && r[1..] == tail;
    forall k | 0 <= k < |r| ensures r[k].0 < |ns| && Partner(ns, h, r[k].0, used + TakenBy(r, k)) == Some(r[k].1) {
      if k == 0 {
        assert used + TakenBy(r, 0) == used;
      } else {
        assert r[1..] == tail && r[k] == tail[k - 1];
        assert used + TakenBy(r, k) == (used + {i, j}) + TakenBy(tail, k - 1);
      }
    }
  }

  /**
   * The partner of rank i, given the ranks `taken` so far, is the nearest
   * lower-ranked untaken player i has not met when there is one, and
   * otherwise the nearest lower-ranked untaken player.
   */
  predicate NearestRule(ns: seq<Name>, h: Rounds, i: nat, taken: set<nat>, j: nat)
    requires i < |ns|
  {
    i < j < |ns| && j !in taken &&
    if exists m :: i < m < |ns| && m !in taken && !Played(ns[i], ns[m], h) then
      !Played(ns[i], ns[j], h) && forall m :: i < m < j ==> m in taken || Played(ns[i], ns[m], h)
    else
      forall m :: i < m < j ==> m in taken
  }

  lemma PartnerIsNearest(ns: seq<Name>, h: Rounds, i: nat, taken: set<nat>, j: nat)
    requires i < |ns| && Partner(ns, h, i, taken) == Some(j)
    ensures NearestRule(ns, h, i, taken, j)
  {
    var f := Nearest(ns, h, i, taken, i + 1, true);
    if f.None? {
      assert Nearest(ns, h, i, taken, i + 1, false) == Some(j);
      forall m | i < m < |ns| ensures m in taken || Played(ns[i], ns[m], h) {
        assert !Eligible(ns, h, i, taken, m, true);
      }
      forall m | i < m < j ensures m in taken {
        assert !Eligible(ns, h, i, taken, m, false);
      }
    } else {
      assert Eligible(ns, h, i, taken, j, true);
      forall m | i < m < j ensures m in taken || Played(ns[i], ns[m], h) {
        assert !Eligible(ns, h, i, taken, m, true);
      }
    }
  }

  /**
   * For every pair (i, j) of the Australian draw, j is the nearest
   * lower-ranked player not taken by an earlier pair whom i has not met, or,
   * when i has met all of them, the nearest one not taken.
   */
  predicate NearestPartners(ns: seq<Name>, h: Rounds, r: seq<(nat, nat)>)
  {
    forall k :: 0 <= k < |r| ==> r[k].0 < |ns| && NearestRule(ns, h, r[k].0, TakenBy(r, k), r[k].1)
  }

  lemma GreedyDrawPartners(ns: seq<Name>, h: Rounds)
    ensures NearestPartners(ns, h, DrawFrom(ns, h, 0, {}))
  {
    var r := DrawFrom(ns, h, 0, {});
    DrawPartners(ns, h, 0, {});
    forall k | 0 <= k < |r| ensures r[k].0 < |ns| && NearestRule(ns, h, r[k].0, TakenBy(r, k), r[k].1) {
      assert {} + TakenBy(r, k) == TakenBy(r, k);
      PartnerIsNearest(ns, h, r[k].0, TakenBy(r, k), r[k].1);
    }
  }
}
