/**
 * `sorted(players, key=..., reverse=True)` as used by the standings-based
 * pairing systems: a stable sort, descending by a (wins, spread) key. Python's
 * `reverse=True` keeps records with equal keys in their original order.
 */
module Ranking {
  import opened Types

  /** A sort key `(wins, spread)`, compared lexicographically as Python compares tuples. */
  type Key = (int, int)

  predicate KeyLess(a: Key, b: Key)
  {
    a.0 < b.0 || (a.0 == b.0 && a.1 < b.1)
  }

  /** `(p[3], p[5])`: wins (in half-points) and spread. */
  function StandingKey(p: Player): Key
  {
    (p.wins, p.spread)
  }

  /** No element is ranked below one with a lexicographically smaller key. */
  predicate Descending(s: seq<Player>, key: Player -> Key)
  {
    forall i, j :: 0 <= i < j < |s| ==> !KeyLess(key(s[i]), key(s[j]))
  }

  /** The elements of `s` whose key is `k`, in their order in `s`. */
  function WithKey(s: seq<Player>, key: Player -> Key, k: Key): seq<Player>
  {
    if s == [] then [] else (if key(s[0]) == k then [s[0]] else []) + WithKey(s[1..], key, k)
  }

  /** Places `x` in front of the first element whose key is not greater than its own. */
  function Insert(x: Player, s: seq<Player>, key: Player -> Key): seq<Player>
  {
    if s == [] || !KeyLess(key(x), key(s[0])) then [x] + s else [s[0]] + Insert(x, s[1..], key)
  }

  /** The stable descending sort, as insertion of each element in front of its equals. */
  function SortDesc(s: seq<Player>, key: Player -> Key): seq<Player>
  {
    if s == [] then [] else Insert(s[0], SortDesc(s[1..], key), key)
  }

  /** `sorted(players, key=lambda p: (p[3], p[5]), reverse=True)` */
  function Ranked(players: seq<Player>): seq<Player>
  {
    SortDesc(players, StandingKey)
  }

  lemma {:induction false} InsertFacts(x: Player, s: seq<Player>, key: Player -> Key)
    requires Descending(s, key)
    ensures multiset(Insert(x, s, key)) == multiset(s) + multiset{x}
    ensures |Insert(x, s, key)| == |s| + 1
    ensures Descending(Insert(x, s, key), key)
    ensures s != [] && KeyLess(key(x), key(s[0])) ==> Insert(x, s, key)[0] == s[0]
    ensures s == [] || !KeyLess(key(x), key(s[0])) ==> Insert(x, s, key)[0] == x
  {
    if s == [] || !KeyLess(key(x), key(s[0])) {
      forall z | z in s ensures !KeyLess(key(x), key(z)) {
        HeadRanksFirst(s, key, z);
      }
      ConsDescending(x, s, key);
    } else {
      var t := s[1..];
      DescendingTail(s, key);
      InsertFacts(x, t, key);
      var it := Insert(x, t, key);
      assert s == [s[0]] + t;
      forall z | z in it ensures !KeyLess(key(s[0]), key(z)) {
        assert z in multiset(it);
        if z != x {
          assert z in s;
          HeadRanksFirst(s, key, z);
        }
      }
      ConsDescending(s[0], it, key);
    }
  }

  /** The first element of a descending sequence has a key no smaller than any other's. */
  lemma HeadRanksFirst(s: seq<Player>, key: Player -> Key, z: Player)
    requires Descending(s, key) && z in s
    ensures !KeyLess(key(s[0]), key(z))
  {
    var m :| 0 <= m < |s| && s[m] == z;
    if m > 0 {
      assert !KeyLess(key(s[0]), key(s[m]));
    }
  }

  lemma DescendingTail(s: seq<Player>, key: Player -> Key)
    requires Descending(s, key) && s != []
    ensures Descending(s[1..], key)
  {
    var t := s[1..];
    forall i, j | 0 <= i < j < |t| ensures !KeyLess(key(t[i]), key(t[j])) {
      assert t[i] == s[i + 1] && t[j] == s[j + 1];
    }
  }

  /** Putting in front an element whose key is no smaller than any other keeps the order descending. */
  lemma ConsDescending(y: Player, r: seq<Player>, key: Player -> Key)
    requires Descending(r, key)
    requires forall z :: z in r ==> !KeyLess(key(y), key(z))
    ensures Descending([y] + r, key)
  {
    var q := [y] + r;
    forall i, j | 0 <= i < j < |q| ensures !KeyLess(key(q[i]), key(q[j])) {
      assert q[j] == r[j - 1];
      if i > 0 {
        assert q[i] == r[i - 1];
      } else {
        assert r[j - 1] in r;
      }
    }
  }

  /** The rank order: a permutation of the input, descending by key. */
  lemma {:induction false} SortDescFacts(s: seq<Player>, key: Player -> Key)
    ensures multiset(SortDesc(s, key)) == multiset(s)
    ensures |SortDesc(s, key)| == |s|
    ensures Descending(SortDesc(s, key), key)
  {
    if s != [] {
      var t := SortDesc(s[1..], key);
      SortDescFacts(s[1..], key);
      InsertFacts(s[0], t, key);
      assert SortDesc(s, key) == Insert(s[0], t, key);
      assert multiset(s) == multiset(s[1..]) + multiset{s[0]} by {
        assert s == [s[0]] + s[1..];
      }
    }
  }

  lemma {:induction false} WithKeyAppend(a: seq<Player>, b: seq<Player>, key: Player -> Key, k: Key)
    ensures WithKey(a + b, key, k) == WithKey(a, key, k) + WithKey(b, key, k)
  {
    if a != [] {
      assert (a + b)[0] == a[0];
      assert (a + b)[1..] == a[1..] + b;
      WithKeyAppend(a[1..], b, key, k);
    } else {
      assert a + b == b;
    }
  }

  lemma {:induction false} InsertStable(x: Player, s: seq<Player>, key: Player -> Key, k: Key)
    requires Descending(s, key)
    ensures WithKey(Insert(x, s, key), key, k) == (if key(x) == k then [x] else []) + WithKey(s, key, k)
  {
    if s == [] || !KeyLess(key(x), key(s[0])) {
      assert ([x] + s)[1..] == s;
    } else {
      var t := s[1..];
      DescendingTail(s, key);
      InsertStable(x, t, key, k);
      var r := [s[0]] + Insert(x, t, key);
      assert r[0] == s[0] && r[1..] == Insert(x, t, key);
      if key(x) == k {
        // s[0] ranks strictly above x, so it does not share x's key.
        assert key(s[0]) != k;
      }
    }
  }

  /**
   * Stability: for every key, the players holding that key appear in the rank
   * order exactly as they appear in the input.
   */
  lemma {:induction false} SortDescStable(s: seq<Player>, key: Player -> Key, k: Key)
    ensures WithKey(SortDesc(s, key), key, k) == WithKey(s, key, k)
  {
    if s != [] {
      SortDescStable(s[1..], key, k);
      SortDescFacts(s[1..], key);
      InsertStable(s[0], SortDesc(s[1..], key), key, k);
    }
  }
}
