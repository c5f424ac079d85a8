/**
 * pairings.py: the single-round pairing strategies (random, King of the
 * Hills) and the repeat-opponent query `has_played`. The injected `coin(k)`
 * stands for the `random.choice([p1, p2])` made for pair k (true picks p1);
 * the injected `shuffled` stands for the names after `random.shuffle`.
 */
module Pairings {
  import opened Types
  import opened Ranking
  import opened Replay

  // ---------------------------------------------------------------------------
  // Pairing consecutive names
  // ---------------------------------------------------------------------------

  /** The side that moves first in a random pairing: the real side against a BYE, else the coin's pick. */
  function CoinFirst(p1: Name, p2: Name, coin: bool): (f: Name)
    ensures f == p1 || f == p2
    ensures p1 == BYE && p2 != BYE ==> f == p2
    ensures p2 == BYE && p1 != BYE ==> f == p1
  {
    if p1 == BYE || p2 == BYE then (if p1 != BYE then p1 else p2)
    else if coin then p1 else p2
  }

  /** Pair k holds the names at positions 2k and 2k+1. */
  predicate PairsConsecutive(ps: seq<Pairing>, ns: seq<Name>)
  {
    |ns| == 2 * |ps| && forall k :: 0 <= k < |ps| ==> ps[k].p1 == ns[2 * k] && ps[k].p2 == ns[2 * k + 1]
  }

  /** Pairing consecutive names loses no name and adds none: the sides read back the names. */
  lemma {:induction false} ConsecutiveSides(ps: seq<Pairing>, ns: seq<Name>)
    requires PairsConsecutive(ps, ns)
    ensures Sides(ps) == ns
  {
    if ps != [] {
      var rest := ns[2..];
      assert PairsConsecutive(ps[1..], rest) by {
        forall k | 0 <= k < |ps[1..]| ensures ps[1..][k].p1 == rest[2 * k] && ps[1..][k].p2 == rest[2 * k + 1] {
          assert ps[1..][k] == ps[k + 1];
        }
      }
      ConsecutiveSides(ps[1..], rest);
      assert ns == [ns[0], ns[1]] + rest;
    }
  }

  /**
   * A roster paired after padding: ⌈n/2⌉ pairs whose sides are the names
   * with one `"BYE"` added exactly when n is odd, and (when no player is
   * called BYE) a BYE side exactly when n is odd.
   */
  lemma PaddedPairing(ps: seq<Pairing>, names: seq<Name>)
    requires PairsConsecutive(ps, Pad(names, BYE))
    ensures |ps| == (|names| + 1) / 2
    ensures multiset(Sides(ps)) == multiset(names) + (if |names| % 2 == 1 then multiset{BYE} else multiset{})
    ensures BYE !in names ==> (BYE in Sides(ps) <==> |names| % 2 == 1)
  {
    ConsecutiveSides(ps, Pad(names, BYE));
    if |names| % 2 == 1 {
      assert Pad(names, BYE) == names + [BYE];
      assert BYE in Pad(names, BYE);
    }
  }

  // ---------------------------------------------------------------------------
  // random_pairings
  // ---------------------------------------------------------------------------

  /** The random draw of the padded name list `ns`: consecutive names, first mover by `CoinFirst`. */
  function RandomDraw(ns: seq<Name>, coin: nat -> bool): (ps: seq<Pairing>)
    requires |ns| % 2 == 0
    ensures PairsConsecutive(ps, ns)
    ensures forall k :: 0 <= k < |ps| ==> ps[k].first == CoinFirst(ps[k].p1, ps[k].p2, coin(k))
  {
    seq(|ns| / 2, k requires 0 <= k < |ns| / 2 => Pairing(ns[2 * k], ns[2 * k + 1], CoinFirst(ns[2 * k], ns[2 * k + 1], coin(k))))
  }

  /**
   * `random_pairings`: the shuffled names, padded with `"BYE"`, paired
   * consecutively; against a BYE the real side moves first.
   */
  method RandomPairings(players: seq<Player>, shuffled: seq<Name>, coin: nat -> bool) returns (pairings: seq<Pairing>)
    requires multiset(shuffled) == multiset(Names(players))
    ensures pairings == RandomDraw(Pad(shuffled, BYE), coin)
    ensures |pairings| == (|players| + 1) / 2
    ensures multiset(Sides(pairings)) == multiset(Names(players)) + (if |players| % 2 == 1 then multiset{BYE} else multiset{})
  {
    var names := shuffled;
    if |names| % 2 == 1 {
      names := names + [BYE];
    }
    assert names == Pad(shuffled, BYE);
    pairings := PairWithCoin(names, coin);
    SameLength(shuffled, Names(players));
    PaddedPairing(pairings, shuffled);
  }

  /** The loop of `random_pairings` over the padded names, two at a time. */
  method PairWithCoin(names: seq<Name>, coin: nat -> bool) returns (pairings: seq<Pairing>)
    requires |names| % 2 == 0
    ensures pairings == RandomDraw(names, coin)
  {
    pairings := [];
    var i := 0;
    while i < |names|
      invariant i % 2 == 0 && 0 <= i <= |names|
      invariant |pairings| == i / 2
      invariant forall k :: 0 <= k < i / 2 ==> pairings[k] == RandomDraw(names, coin)[k]
    {
      var p1 := names[i];
      var p2 := names[i + 1];
      var first;
      if p1 == BYE || p2 == BYE {
        first := if p1 != BYE then p1 else p2;
      } else {
        first := if coin(i / 2) then p1 else p2;
      }
      pairings := pairings + [Pairing(p1, p2, first)];
      i := i + 2;
    }
  }

  lemma SameLength(a: seq<Name>, b: seq<Name>)
    requires multiset(a) == multiset(b)
    ensures |a| == |b|
  {
    assert |multiset(a)| == |multiset(b)|;
  }

  // ---------------------------------------------------------------------------
  // king_of_the_hills_pairings
  // ---------------------------------------------------------------------------

  /** Consecutive names, the first (higher-ranked) of each pair moving first. */
  function TopFirst(ns: seq<Name>): (ps: seq<Pairing>)
    requires |ns| % 2 == 0
    ensures PairsConsecutive(ps, ns)
    ensures forall k :: 0 <= k < |ps| ==> ps[k].first == ps[k].p1
  {
    seq(|ns| / 2, k requires 0 <= k < |ns| / 2 => Pairing(ns[2 * k], ns[2 * k + 1], ns[2 * k]))
  }

  /** `king_of_the_hills_pairings`: the rank order by (wins, spread), padded and paired consecutively. */
  function KingOfTheHillsPairings(players: seq<Player>): seq<Pairing>
  {
    TopFirst(Pad(Names(Ranked(players)), BYE))
  }

  /**
   * Pair k is ranks 2k and 2k+1 of a descending (wins, spread) order of the
   * players, the higher-ranked one moves first, and the last pair holds a BYE
   * exactly when the roster is odd.
   */
  lemma KingOfTheHillsRanks(players: seq<Player>)
    ensures var ps := KingOfTheHillsPairings(players); var ranked := Ranked(players);
      multiset(ranked) == multiset(players) && Descending(ranked, StandingKey) &&
      |ps| == (|players| + 1) / 2 &&
      (forall k :: 0 <= k < |ps| ==> ps[k].p1 == ranked[2 * k].name && ps[k].first == ps[k].p1) &&
      (forall k :: 0 <= k < |ps| && 2 * k + 1 < |ranked| ==> ps[k].p2 == ranked[2 * k + 1].name) &&
      (|players| % 2 == 1 ==> ps[|ps| - 1].p2 == BYE)
  {
    var ranked := Ranked(players);
    SortDescFacts(players, StandingKey);
    var ns := Pad(Names(ranked), BYE);
    var ps := TopFirst(ns);
    forall k | 0 <= k < |ps| ensures ps[k].p1 == ranked[2 * k].name {
      assert ns[2 * k] == Names(ranked)[2 * k];
    }
    forall k | 0 <= k < |ps| && 2 * k + 1 < |ranked| ensures ps[k].p2 == ranked[2 * k + 1].name {
      assert ns[2 * k + 1] == Names(ranked)[2 * k + 1];
    }
  }

  /** The sides of the King of the Hills draw: every player once, plus a BYE for an odd roster. */
  lemma KingOfTheHillsSides(players: seq<Player>)
    ensures var ps := KingOfTheHillsPairings(players);
      multiset(Sides(ps)) == multiset(Names(players)) + (if |players| % 2 == 1 then multiset{BYE} else multiset{})
  {
    var ranked := Ranked(players);
    SortDescFacts(players, StandingKey);
    SortDescNames(players, StandingKey);
    PaddedPairing(KingOfTheHillsPairings(players), Names(ranked));
  }

  lemma {:induction false} InsertNames(x: Player, s: seq<Player>, key: Player -> Key)
    ensures multiset(Names(Insert(x, s, key))) == multiset(Names(s)) + multiset{x.name}
  {
    if s == [] || !KeyLess(key(x), key(s[0])) {
      assert ([x] + s)[1..] == s;
    } else {
      InsertNames(x, s[1..], key);
      var r := [s[0]] + Insert(x, s[1..], key);
      assert r[1..] == Insert(x, s[1..], key);
      assert Names(s) == [s[0].name] + Names(s[1..]);
    }
  }

  /** Ranking the players keeps the multiset of their names. */
  lemma {:induction false} SortDescNames(s: seq<Player>, key: Player -> Key)
    ensures multiset(Names(SortDesc(s, key))) == multiset(Names(s))
  {
    if s != [] {
      SortDescNames(s[1..], key);
      InsertNames(s[0], SortDesc(s[1..], key), key);
      assert Names(s) == [s[0].name] + Names(s[1..]);
    }
  }

  // ---------------------------------------------------------------------------
  // has_played
  // ---------------------------------------------------------------------------

  /** `set(pairing[:2]) == set([player1, player2])` */
  predicate SameSides(p: Pairing, a: Name, b: Name)
  {
    {p.p1, p.p2} == {a, b}
  }

  /** The set comparison says the pairing is (a, b) or (b, a). */
  lemma SameSidesIff(p: Pairing, a: Name, b: Name)
    ensures SameSides(p, a, b) <==> (p.p1 == a && p.p2 == b) || (p.p1 == b && p.p2 == a)
  {
    if SameSides(p, a, b) {
      assert a in {p.p1, p.p2} && b in {p.p1, p.p2};
      assert p.p1 in {a, b} && p.p2 in {a, b};
    }
  }

  /** Some recorded pairing has exactly the sides a and b. */
  predicate Played(a: Name, b: Name, h: Rounds)
  {
    exists r, i :: r in h && 0 <= i < |h[r]| && SameSides(h[r][i], a, b)
  }

  /** Having played is symmetric. */
  lemma PlayedSymmetric(a: Name, b: Name, h: Rounds)
    ensures Played(a, b, h) <==> Played(b, a, h)
  {
    assert {a, b} == {b, a};
  }

  /**
   * `has_played`: scans every recorded round. The order in which the
   * dictionary's values are visited cannot change a yes/no answer; the model
   * visits the rounds in ascending order.
   */
  method HasPlayed(a: Name, b: Name, h: Rounds) returns (played: bool)
    ensures played <==> Played(a, b, h)
  {
    var ks := SortedKeys(h.Keys);
    for k := 0 to |ks|
      invariant forall r, i :: r in ks[..k] && 0 <= i < |h[r]| ==> !SameSides(h[r][i], a, b)
    {
      var rnd := h[ks[k]];
      for i := 0 to |rnd|
        invariant forall r, i' :: r in ks[..k] && 0 <= i' < |h[r]| ==> !SameSides(h[r][i'], a, b)
        invariant forall i' :: 0 <= i' < i ==> !SameSides(rnd[i'], a, b)
      {
        if {rnd[i].p1, rnd[i].p2} == {a, b} {
          return true;
        }
      }
      assert ks[..k + 1] == ks[..k] + [ks[k]];
    }
    assert ks[..|ks|] == ks;
    return false;
  }
}
