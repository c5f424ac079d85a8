/**
 * The replay order shared by every standings computation: the round numbers of
 * `results_by_round` in ascending order (`sorted(results_by_round.keys())`), and
 * within a round every position i that has both a pairing and a result slot.
 */
module Replay {
  import opened Types

  predicate Increasing(ks: seq<int>)
  {
    forall i, j :: 0 <= i < j < |ks| ==> ks[i] < ks[j]
  }

  lemma {:induction false} MinExists(s: set<int>)
    requires exists m :: m in s
    ensures exists m :: m in s && forall y :: y in s ==> m <= y
    decreases |s|
  {
    var x: int :| x in s;
    var rest := s - {x};
    if exists y :: y in rest {
      MinExists(rest);
      var m :| m in rest && forall y :: y in rest ==> m <= y;
      var lo := if x < m then x else m;
      forall y | y in s ensures lo <= y {
        if y != x {
          assert y in rest;
        }
      }
      assert lo in s;
    } else {
      assert forall y :: y in s ==> y == x || y in rest;
    }
  }

  /** `sorted(keys)`: the keys in strictly ascending order, each exactly once. */
  function SortedKeys(keys: set<int>): (ks: seq<int>)
    ensures Increasing(ks)
    ensures forall k :: k in ks <==> k in keys
    decreases |keys|
  {
    if !exists k :: k in keys then []
    else
      MinExists(keys);
      var m :| m in keys && forall y :: y in keys ==> m <= y;
      var rest := SortedKeys(keys - {m});
      PrependMin(keys, m, rest);
      [m] + rest
  }

  lemma PrependMin(keys: set<int>, m: int, rest: seq<int>)
    requires m in keys && forall y :: y in keys ==> m <= y
    requires Increasing(rest) && forall k :: k in rest <==> k in keys - {m}
    ensures Increasing([m] + rest)
    ensures forall k :: k in [m] + rest <==> k in keys
  {
    var s := [m] + rest;
    forall i, j | 0 <= i < j < |s| ensures s[i] < s[j] {
      assert s[j] == rest[j - 1];
      assert rest[j - 1] in keys - {m};
      if i > 0 {
        assert s[i] == rest[i - 1];
      }
    }
  }

  /** Two ascending sequences holding the same numbers are equal. */
  lemma {:induction false} IncreasingUnique(a: seq<int>, b: seq<int>)
    requires Increasing(a) && Increasing(b)
    requires forall k :: k in a <==> k in b
    ensures a == b
    decreases |a|
  {
    if a != [] || b != [] {
      SameHeads(a, b);
      SameTails(a, b);
      IncreasingTail(a);
      IncreasingTail(b);
      IncreasingUnique(a[1..], b[1..]);
      assert a == [a[0]] + a[1..] && b == [b[0]] + b[1..];
    }
  }

  lemma IncreasingTail(a: seq<int>)
    requires Increasing(a) && a != []
    ensures Increasing(a[1..])
  {
    forall i, j | 0 <= i < j < |a| - 1 ensures a[1..][i] < a[1..][j] {
      assert a[1..][i] == a[i + 1] && a[1..][j] == a[j + 1];
    }
  }

  /** Two ascending sequences with the same members, not both empty, are both nonempty and start alike. */
  lemma SameHeads(a: seq<int>, b: seq<int>)
    requires Increasing(a) && Increasing(b)
    requires forall k :: k in a <==> k in b
    requires a != [] || b != []
    ensures a != [] && b != [] && a[0] == b[0]
  {
    if a != [] {
      assert a[0] in a;
    }
    if b != [] {
      assert b[0] in b;
    }
    assert b[0] in a && a[0] in b;
    var i :| 0 <= i < |a| && a[i] == b[0];
    var j :| 0 <= j < |b| && b[j] == a[0];
    assert a[0] <= a[i] && b[0] <= b[j];
  }

  lemma SameTails(a: seq<int>, b: seq<int>)
    requires Increasing(a) && Increasing(b)
    requires forall k :: k in a <==> k in b
    requires a != [] && b != [] && a[0] == b[0]
    ensures forall k :: k in a[1..] <==> k in b[1..]
  {
    forall k ensures k in a[1..] <==> k in b[1..] {
      if k in a[1..] {
        TailMember(a, b, k);
      }
      if k in b[1..] {
        TailMember(b, a, k);
      }
    }
  }

  lemma TailMember(a: seq<int>, b: seq<int>, k: int)
    requires Increasing(a) && Increasing(b)
    requires forall k :: k in a <==> k in b
    requires a != [] && b != [] && a[0] == b[0] && k in a[1..]
    ensures k in b[1..]
  {
    var i :| 1 <= i < |a| && a[i] == k;
    assert k in b && k != b[0];
    var j :| 0 <= j < |b| && b[j] == k;
    assert j != 0;
    assert b[1..][j - 1] == k;
  }

  /** Position `index` of round `round`: its pairing and its result slot. */
  datatype Event = Event(round: int, index: nat, pairing: Pairing, result: Option<Score>)

  /** `completed_rounds.get(r, [])` */
  function PairingsOf(c: Rounds, r: int): seq<Pairing>
  {
    if r in c then c[r] else []
  }

  /** `results_by_round.get(r, [])` */
  function ResultsOf(res: Results, r: int): seq<Option<Score>>
  {
    if r in res then res[r] else []
  }

  /** `for i, pairing in enumerate(pairings): if i < len(round_results) ...` */
  function RoundEvents(c: Rounds, res: Results, r: int): (es: seq<Event>)
    ensures var ps, rs := PairingsOf(c, r), ResultsOf(res, r);
      |es| == (if |ps| < |rs| then |ps| else |rs|) &&
      forall i :: 0 <= i < |es| ==> es[i] == Event(r, i, ps[i], rs[i])
  {
    var ps, rs := PairingsOf(c, r), ResultsOf(res, r);
    seq(if |ps| < |rs| then |ps| else |rs|, i requires 0 <= i < |ps| && i < |rs| => Event(r, i, ps[i], rs[i]))
  }

  /** The events of the rounds `ks`, round after round. */
  function EventsOver(c: Rounds, res: Results, ks: seq<int>): seq<Event>
    decreases |ks|
  {
    if ks == [] then [] else EventsOver(c, res, ks[..|ks| - 1]) + RoundEvents(c, res, ks[|ks| - 1])
  }

  /** Every position replayed by a standings computation, in replay order. */
  function Events(c: Rounds, res: Results): seq<Event>
  {
    EventsOver(c, res, SortedKeys(res.Keys))
  }

  /** Left fold of a replay step over the events. */
  function Fold<S>(init: S, es: seq<Event>, f: (S, Event) -> S): S
    decreases |es|
  {
    if es == [] then init else f(Fold(init, es[..|es| - 1], f), es[|es| - 1])
  }

  lemma FoldSnoc<S>(init: S, es: seq<Event>, e: Event, f: (S, Event) -> S)
    ensures Fold(init, es + [e], f) == f(Fold(init, es, f), e)
  {
    assert (es + [e])[..|es|] == es;
  }

  /** The loop step of a replay: one more event of the current round. */
  lemma FoldRoundStep<S>(init: S, done: seq<Event>, round: seq<Event>, i: nat, f: (S, Event) -> S)
    requires i < |round|
    ensures Fold(init, done + round[..i + 1], f) == f(Fold(init, done + round[..i], f), round[i])
  {
    assert done + round[..i + 1] == (done + round[..i]) + [round[i]];
    FoldSnoc(init, done + round[..i], round[i], f);
  }

  /** The loop step of a replay: one more round. */
  lemma EventsOverStep(c: Rounds, res: Results, ks: seq<int>, k: nat)
    requires k < |ks|
    ensures EventsOver(c, res, ks[..k + 1]) == EventsOver(c, res, ks[..k]) + RoundEvents(c, res, ks[k])
  {
    assert ks[..k + 1][..k] == ks[..k];
  }

  /** A state the step leaves alone stays put for the rest of the replay (an exception ends the loop). */
  lemma {:induction false} FoldAbsorbs<S>(init: S, a: seq<Event>, b: seq<Event>, f: (S, Event) -> S, stuck: S)
    requires Fold(init, a, f) == stuck
    requires forall e :: f(stuck, e) == stuck
    ensures Fold(init, a + b, f) == stuck
    decreases |b|
  {
    if b == [] {
      assert a + b == a;
    } else {
      var b0 := b[..|b| - 1];
      FoldAbsorbs(init, a, b0, f, stuck);
      assert (a + b)[..|a + b| - 1] == a + b0;
    }
  }

  /** An exception raised in round ks[k] is the outcome of the replay over all of ks. */
  lemma FoldRoundsAbsorb<S>(c: Rounds, res: Results, ks: seq<int>, k: nat, init: S, f: (S, Event) -> S, stuck: S)
    requires k < |ks|
    requires Fold(init, EventsOver(c, res, ks[..k + 1]), f) == stuck
    requires forall e :: f(stuck, e) == stuck
    ensures Fold(init, EventsOver(c, res, ks), f) == stuck
  {
    EventsOverSplit(c, res, ks, k + 1);
    FoldAbsorbs(init, EventsOver(c, res, ks[..k + 1]), EventsOver(c, res, ks[k + 1..]), f, stuck);
  }

  lemma EventsOverSplit(c: Rounds, res: Results, ks: seq<int>, k: nat)
    requires k <= |ks|
    ensures EventsOver(c, res, ks) == EventsOver(c, res, ks[..k]) + EventsOver(c, res, ks[k..])
  {
    assert ks == ks[..k] + ks[k..];
    EventsOverAppend(c, res, ks[..k], ks[k..]);
  }

  /** An exception raised at position j - 1 of a round is the outcome of the whole round. */
  lemma FoldRoundAbsorbs<S>(init: S, done: seq<Event>, re: seq<Event>, j: nat, f: (S, Event) -> S, stuck: S)
    requires j <= |re|
    requires Fold(init, done + re[..j], f) == stuck
    requires forall e :: f(stuck, e) == stuck
    ensures Fold(init, done + re, f) == stuck
  {
    FoldAbsorbs(init, done + re[..j], re[j..], f, stuck);
    assert done + re[..j] + re[j..] == done + re;
  }

  lemma {:induction false} EventsOverAppend(c: Rounds, res: Results, a: seq<int>, b: seq<int>)
    ensures EventsOver(c, res, a + b) == EventsOver(c, res, a) + EventsOver(c, res, b)
    decreases |b|
  {
    if b == [] {
      assert a + b == a;
    } else {
      var b0, last := b[..|b| - 1], b[|b| - 1];
      EventsOverAppend(c, res, a, b0);
      assert b == b0 + [last];
      assert a + b == (a + b0) + [last];
      EventsOverSnoc(c, res, a + b0, last);
      EventsOverSnoc(c, res, b0, last);
      SeqAssoc3(EventsOver(c, res, a), EventsOver(c, res, b0), RoundEvents(c, res, last));
    }
  }

  lemma EventsOverSnoc(c: Rounds, res: Results, ks: seq<int>, k: int)
    ensures EventsOver(c, res, ks + [k]) == EventsOver(c, res, ks) + RoundEvents(c, res, k)
  {
    assert (ks + [k])[..|ks|] == ks;
  }

  lemma PrefixOfPrefix(ks: seq<int>, j: nat, k: nat)
    requires k <= j <= |ks|
    ensures ks[..j][..k] == ks[..k]
  {
  }

  lemma SeqAssoc3(x: seq<Event>, y: seq<Event>, z: seq<Event>)
    ensures (x + y) + z == x + (y + z)
  {
  }

  /** An event is replayed iff its round has results and its position has both a pairing and a result slot. */
  lemma {:induction false} EventsOverMembers(c: Rounds, res: Results, ks: seq<int>, e: Event)
    ensures e in EventsOver(c, res, ks) <==>
      e.round in ks && e.index < |PairingsOf(c, e.round)| && e.index < |ResultsOf(res, e.round)| &&
      e.pairing == PairingsOf(c, e.round)[e.index] && e.result == ResultsOf(res, e.round)[e.index]
    decreases |ks|
  {
    if ks != [] {
      var last := ks[|ks| - 1];
      EventsOverMembers(c, res, ks[..|ks| - 1], e);
      assert ks == ks[..|ks| - 1] + [last];
      if e.round == last && e.index < |PairingsOf(c, last)| && e.index < |ResultsOf(res, last)| &&
         e.pairing == PairingsOf(c, last)[e.index] && e.result == ResultsOf(res, last)[e.index] {
        assert RoundEvents(c, res, last)[e.index] == e;
      }
    }
  }

  lemma EventsMembers(c: Rounds, res: Results, e: Event)
    ensures e in Events(c, res) <==>
      e.round in res && e.index < |PairingsOf(c, e.round)| && e.index < |res[e.round]| &&
      e.pairing == PairingsOf(c, e.round)[e.index] && e.result == res[e.round][e.index]
  {
    EventsOverMembers(c, res, SortedKeys(res.Keys), e);
  }

  /** Every event over `ks` belongs to one of the rounds of `ks`. */
  lemma {:induction false} EventsOverRounds(c: Rounds, res: Results, ks: seq<int>)
    ensures forall i :: 0 <= i < |EventsOver(c, res, ks)| ==> EventsOver(c, res, ks)[i].round in ks
    decreases |ks|
  {
    if ks != [] {
      EventsOverRounds(c, res, ks[..|ks| - 1]);
      var before := EventsOver(c, res, ks[..|ks| - 1]);
      var es := EventsOver(c, res, ks);
      forall i | 0 <= i < |es| ensures es[i].round in ks {
        if i < |before| {
          assert es[i] == before[i];
          assert es[i].round in ks[..|ks| - 1];
        } else {
          assert es[i] == RoundEvents(c, res, ks[|ks| - 1])[i - |before|];
        }
      }
    }
  }

  /** Over ascending rounds, the events come in non-decreasing round order. */
  lemma {:induction false} EventsOverOrdered(c: Rounds, res: Results, ks: seq<int>)
    requires Increasing(ks)
    ensures forall i, j :: 0 <= i < j < |EventsOver(c, res, ks)| ==>
      EventsOver(c, res, ks)[i].round <= EventsOver(c, res, ks)[j].round
    decreases |ks|
  {
    if ks != [] {
      var init := ks[..|ks| - 1];
      var last := ks[|ks| - 1];
      EventsOverOrdered(c, res, init);
      EventsOverRounds(c, res, init);
      var before := EventsOver(c, res, init);
      var es := EventsOver(c, res, ks);
      assert es == before + RoundEvents(c, res, last);
      forall i, j | 0 <= i < j < |es| ensures es[i].round <= es[j].round {
        if j < |before| {
          assert es[i] == before[i] && es[j] == before[j];
        } else if i < |before| {
          assert es[i] == before[i];
          assert es[i].round in init;
          var m :| 0 <= m < |init| && init[m] == es[i].round;
          assert ks[m] < ks[|ks| - 1];
          assert es[j] == RoundEvents(c, res, last)[j - |before|];
        } else {
          assert es[i] == RoundEvents(c, res, last)[i - |before|];
          assert es[j] == RoundEvents(c, res, last)[j - |before|];
        }
      }
    }
  }

  /** `sorted(results_by_round.keys())` makes the whole replay non-decreasing in round number. */
  lemma EventsOrdered(c: Rounds, res: Results)
    ensures forall i, j :: 0 <= i < j < |Events(c, res)| ==> Events(c, res)[i].round <= Events(c, res)[j].round
  {
    EventsOverOrdered(c, res, SortedKeys(res.Keys));
  }

  // ---------------------------------------------------------------------------
  // Replaying only the rounds up to a limit
  // ---------------------------------------------------------------------------

  /** The rounds of `ks` not above `limit`, in order. */
  function KeysUpTo(ks: seq<int>, limit: int): (r: seq<int>)
    ensures forall k :: k in r <==> k in ks && k <= limit
    ensures Increasing(ks) ==> Increasing(r)
    decreases |ks|
  {
    if ks == [] then []
    else
      var rest := KeysUpTo(ks[1..], limit);
      assert forall k :: k in ks <==> k == ks[0] || k in ks[1..];
      assert Increasing(ks) ==> Increasing(ks[1..]) && forall i :: 0 <= i < |rest| ==> ks[0] < rest[i] by {
        if Increasing(ks) {
          forall i | 0 <= i < |rest| ensures ks[0] < rest[i] {
            assert rest[i] in ks[1..];
          }
        }
      }
      if ks[0] <= limit then [ks[0]] + rest else rest
  }

  /**
   * `for r in sorted(...): if r > round_limit: break` processes a prefix of the
   * ascending keys; that prefix is exactly the keys not above the limit.
   */
  lemma {:induction false} PrefixIsKeysUpTo(ks: seq<int>, limit: int, k: nat)
    requires Increasing(ks) && k <= |ks|
    requires forall m :: 0 <= m < k ==> ks[m] <= limit
    requires k < |ks| ==> ks[k] > limit
    ensures ks[..k] == KeysUpTo(ks, limit)
  {
    var p := ks[..k];
    assert Increasing(p);
    forall x ensures x in p <==> x in ks && x <= limit {
      if x in ks && x <= limit {
        var m :| 0 <= m < |ks| && ks[m] == x;
        assert p[m] == x;
      }
    }
    IncreasingUnique(p, KeysUpTo(ks, limit));
  }

  /** `results_by_round` without the rounds above `limit`. */
  function Restrict(res: Results, limit: int): (r: Results)
    ensures forall k :: k in r <==> k in res && k <= limit
  {
    map k | k in res && k <= limit :: res[k]
  }

  lemma {:induction false} EventsOverAgree(c: Rounds, res: Results, res2: Results, ks: seq<int>)
    requires forall k :: k in ks ==> ResultsOf(res, k) == ResultsOf(res2, k)
    ensures EventsOver(c, res, ks) == EventsOver(c, res2, ks)
    decreases |ks|
  {
    if ks != [] {
      assert forall k :: k in ks[..|ks| - 1] ==> k in ks;
      EventsOverAgree(c, res, res2, ks[..|ks| - 1]);
      assert RoundEvents(c, res, ks[|ks| - 1]) == RoundEvents(c, res2, ks[|ks| - 1]);
    }
  }

  /** The replay of the rounds up to `limit` ignores every later round. */
  lemma EventsUpToIsRestricted(c: Rounds, res: Results, limit: int)
    ensures EventsOver(c, res, KeysUpTo(SortedKeys(res.Keys), limit)) == Events(c, Restrict(res, limit))
    ensures forall i :: 0 <= i < |Events(c, Restrict(res, limit))| ==> Events(c, Restrict(res, limit))[i].round <= limit
  {
    var ks := KeysUpTo(SortedKeys(res.Keys), limit);
    var r := Restrict(res, limit);
    var rk := SortedKeys(r.Keys);
    assert forall k :: k in ks <==> k in rk;
    IncreasingUnique(ks, rk);
    assert forall k :: k in ks ==> ResultsOf(res, k) == ResultsOf(r, k);
    EventsOverAgree(c, res, r, ks);
    EventsOverRounds(c, r, ks);
    var es := Events(c, r);
    forall i | 0 <= i < |es| ensures es[i].round <= limit {
      assert es[i].round in ks;
    }
  }
}
