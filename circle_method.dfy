/**
 * pairings.py `round_robin_rounds` and `assign_firsts` (main.py carries
 * identical copies): the circle-method round-robin schedule and the pass that
 * picks who moves first in each pairing, balancing a per-player counter.
 */
module CircleMethod {
  import opened Types

  // ---------------------------------------------------------------------------
  // The circle method
  // ---------------------------------------------------------------------------

  /**
   * The padded-roster index held by position `k` of the working list after `r`
   * rotations (each rotation moves the last element to position 1). Position 0
   * never moves; positions 1..n-1 rotate right by one per round.
   */
  function Slot(n: nat, r: nat, k: nat): (s: nat)
    requires 2 <= n && r <= n - 1 && k < n
    ensures s < n
  {
    if k == 0 then 0 else if k - 1 >= r then k - r else k - r + (n - 1)
  }

  /** The position of padded index `a` after `r` rotations: the inverse of `Slot`. */
  function Pos(n: nat, r: nat, a: nat): (k: nat)
    requires 2 <= n && r <= n - 1 && a < n
    ensures k < n
  {
    if a == 0 then 0 else if a + r <= n - 1 then a + r else a + r - (n - 1)
  }

  /** The schedule on a padded roster `p`: round `r`, pair `j` is positions `j` and `n-1-j`. */
  function Schedule<T>(p: seq<T>): (rounds: seq<seq<(T, T)>>)
    requires |p| % 2 == 0
  {
    if |p| == 0 then [] else seq(|p| - 1, r requires 0 <= r < |p| - 1 => RoundOf(p, r))
  }

  /** Round `r` of the schedule on the padded roster `p`. */
  function RoundOf<T>(p: seq<T>, r: nat): seq<(T, T)>
    requires 2 <= |p| && r < |p| - 1
  {
    var n := |p|;
    seq(n / 2, j requires 0 <= j < n / 2 => (p[Slot(n, r, j)], p[Slot(n, r, n - 1 - j)]))
  }

  lemma ScheduleShape<T>(p: seq<T>)
    requires |p| % 2 == 0
    ensures |Schedule(p)| == if |p| == 0 then 0 else |p| - 1
    ensures forall r :: 0 <= r < |Schedule(p)| ==> |Schedule(p)[r]| == |p| / 2
    ensures forall r, j :: 0 <= r < |Schedule(p)| && 0 <= j < |p| / 2 ==>
      Schedule(p)[r][j] == (p[Slot(|p|, r, j)], p[Slot(|p|, r, |p| - 1 - j)])
  {
  }

  lemma ScheduleIs<T>(p: seq<T>, rounds: seq<seq<(T, T)>>)
    requires |p| % 2 == 0
    requires |rounds| == (if |p| == 0 then 0 else |p| - 1)
    requires forall r :: 0 <= r < |rounds| ==> rounds[r] == RoundOf(p, r)
    ensures rounds == Schedule(p)
    ensures forall r :: 0 <= r < |rounds| ==> |rounds[r]| == |p| / 2
  {
  }

  lemma RoundOfIs<T>(p: seq<T>, i: nat, work: seq<T>, roundPairs: seq<(T, T)>)
    requires 2 <= |p| && i < |p| - 1
    requires |work| == |p| && forall k :: 0 <= k < |p| ==> work[k] == p[Slot(|p|, i, k)]
    requires |roundPairs| == |work| / 2
    requires forall j :: 0 <= j < |work| / 2 ==> roundPairs[j] == (work[j], work[|work| - 1 - j])
    ensures roundPairs == RoundOf(p, i)
  {
  }

  /** `players.insert(1, players.pop())` turns the list of round i into that of round i + 1. */
  lemma RotationAdvances<T>(p: seq<T>, i: nat, work: seq<T>, last: T, rest: seq<T>)
    requires 2 <= |p| && i < |p| - 1
    requires |work| == |p| && forall k :: 0 <= k < |p| ==> work[k] == p[Slot(|p|, i, k)]
    requires last == work[|work| - 1] && rest == work[..|work| - 1]
    ensures var next := rest[..1] + [last] + rest[1..];
      |next| == |p| && forall k :: 0 <= k < |p| ==> next[k] == p[Slot(|p|, i + 1, k)]
  {
    var next := rest[..1] + [last] + rest[1..];
    forall k | 0 <= k < |p| ensures next[k] == p[Slot(|p|, i + 1, k)] {
      if k == 0 {
        assert next[k] == work[0];
      } else if k == 1 {
        assert next[k] == work[|p| - 1];
      } else {
        assert next[k] == work[k - 1];
      }
    }
  }

  /** The inner loop of `round_robin_rounds`: position j against position n-1-j. */
  method PairOpposite<T>(work: seq<T>) returns (roundPairs: seq<(T, T)>)
    ensures |roundPairs| == |work| / 2
    ensures forall j :: 0 <= j < |work| / 2 ==> roundPairs[j] == (work[j], work[|work| - 1 - j])
  {
    var n := |work|;
    roundPairs := [];
    for j := 0 to n / 2
      invariant |roundPairs| == j
      invariant forall jj :: 0 <= jj < j ==> roundPairs[jj] == (work[jj], work[n - 1 - jj])
    {
      roundPairs := roundPairs + [(work[j], work[n - 1 - j])];
    }
  }

  /**
   * `round_robin_rounds`: works on a copy of `players`, pads it with `bye` when
   * its length is odd, and per round pairs position j with position n-1-j, then
   * rotates the last element into position 1.
   */
  method RoundRobinRounds<T>(players: seq<T>, bye: T) returns (rounds: seq<seq<(T, T)>>)
    ensures rounds == Schedule(Pad(players, bye))
    ensures var n := |Pad(players, bye)|;
      |rounds| == (if n == 0 then 0 else n - 1) &&
      forall r :: 0 <= r < |rounds| ==> |rounds[r]| == n / 2
  {
    var work := players;
    if |work| % 2 == 1 {
      work := work + [bye];
    }
    ghost var p := work;
    assert p == Pad(players, bye);
    var n := |work|;
    rounds := [];
    var i := 0;
    if n >= 2 {
      assert Rotated(p, 0, work) by {
        forall k | 0 <= k < n ensures work[k] == p[Slot(n, 0, k)] {
        }
      }
    }
    while i < n - 1
      invariant 0 <= i <= (if n == 0 then 0 else n - 1)
      invariant n >= 2 ==> Rotated(p, i, work)
      invariant |rounds| == i && forall r :: 0 <= r < i ==> rounds[r] == RoundOf(p, r)
    {
      var roundPairs;
      roundPairs, work := PlayRound(p, i, work);
      rounds := rounds + [roundPairs];
      i := i + 1;
    }
    ScheduleIs(p, rounds);
  }

  /** The working list of round `i`: position k holds padded index `Slot(n, i, k)`. */
  ghost predicate Rotated<T>(p: seq<T>, i: nat, work: seq<T>)
    requires 2 <= |p| && i <= |p| - 1
  {
    |work| == |p| && forall k :: 0 <= k < |p| ==> work[k] == p[Slot(|p|, i, k)]
  }

  /** One pass of the outer loop: pair opposite positions, then rotate the last element into position 1. */
  method PlayRound<T>(ghost p: seq<T>, i: nat, work: seq<T>) returns (roundPairs: seq<(T, T)>, next: seq<T>)
    requires 2 <= |p| && i < |p| - 1 && Rotated(p, i, work)
    ensures roundPairs == RoundOf(p, i)
    ensures Rotated(p, i + 1, next)
  {
    roundPairs := PairOpposite(work);
    RoundOfIs(p, i, work, roundPairs);
    var last := work[|work| - 1];
    var rest := work[..|work| - 1];
    RotationAdvances(p, i, work, last, rest);
    next := rest[..1] + [last] + rest[1..];
  }

  // ---------------------------------------------------------------------------
  // What the circle method guarantees, on padded-roster positions
  // ---------------------------------------------------------------------------

  lemma SlotPosInverse(n: nat, r: nat, a: nat, k: nat)
    requires 2 <= n && r <= n - 1 && a < n && k < n
    ensures Slot(n, r, Pos(n, r, a)) == a
    ensures Pos(n, r, Slot(n, r, k)) == k
  {
  }

  /** Padded position `a` plays in pair `j` of round `r`. */
  predicate InPair(n: nat, r: nat, j: nat, a: nat)
    requires 2 <= n && r <= n - 1 && j < n / 2
  {
    Slot(n, r, j) == a || Slot(n, r, n - 1 - j) == a
  }

  /** Pair `j` of round `r` is the unordered pair {a, b}. */
  predicate Meets(n: nat, r: nat, j: nat, a: nat, b: nat)
    requires 2 <= n && r <= n - 1 && j < n / 2
  {
    (Slot(n, r, j) == a && Slot(n, r, n - 1 - j) == b) || (Slot(n, r, j) == b && Slot(n, r, n - 1 - j) == a)
  }

  /** In pair j of round r, positions a and b sit at j and n-1-j. */
  lemma MeetsByPos(n: nat, r: nat, j: nat, a: nat, b: nat)
    requires 2 <= n && n % 2 == 0 && r < n - 1 && j < n / 2 && a < n && b < n
    ensures Meets(n, r, j, a, b) <==>
      (Pos(n, r, a) == j && Pos(n, r, b) == n - 1 - j) || (Pos(n, r, b) == j && Pos(n, r, a) == n - 1 - j)
  {
    SlotPosInverse(n, r, a, j);
    SlotPosInverse(n, r, b, n - 1 - j);
    SlotPosInverse(n, r, b, j);
    SlotPosInverse(n, r, a, n - 1 - j);
  }

  /**
   * Every round is a perfect matching of the padded roster: each position is in
   * exactly one pair, and no pair holds the same position twice.
   */
  lemma {:induction false} RoundIsPerfectMatching(n: nat, r: nat, a: nat)
    requires 2 <= n && n % 2 == 0 && r < n - 1 && a < n
    ensures exists j :: 0 <= j < n / 2 && InPair(n, r, j, a)
    ensures forall j1, j2 :: 0 <= j1 < n / 2 && 0 <= j2 < n / 2 && InPair(n, r, j1, a) && InPair(n, r, j2, a) ==> j1 == j2
    ensures forall j :: 0 <= j < n / 2 ==> Slot(n, r, j) != Slot(n, r, n - 1 - j)
  {
    var k := Pos(n, r, a);
    SlotPosInverse(n, r, a, 0);
    var j := if k < n / 2 then k else n - 1 - k;
    assert InPair(n, r, j, a);
    forall j1, j2 | 0 <= j1 < n / 2 && 0 <= j2 < n / 2 && InPair(n, r, j1, a) && InPair(n, r, j2, a)
      ensures j1 == j2
    {
      InOnePair(n, r, a, j1, j2);
    }
    forall j | 0 <= j < n / 2 ensures Slot(n, r, j) != Slot(n, r, n - 1 - j) {
      SlotPosInverse(n, r, 0, j);
      SlotPosInverse(n, r, 0, n - 1 - j);
    }
  }

  /** A position plays in only one pair of a round. */
  lemma InOnePair(n: nat, r: nat, a: nat, j1: nat, j2: nat)
    requires 2 <= n && n % 2 == 0 && r < n - 1 && a < n
    requires j1 < n / 2 && j2 < n / 2 && InPair(n, r, j1, a) && InPair(n, r, j2, a)
    ensures j1 == j2
  {
    var k := Pos(n, r, a);
    SlotPosInverse(n, r, a, j1);
    SlotPosInverse(n, r, a, n - 1 - j1);
    SlotPosInverse(n, r, a, j2);
    SlotPosInverse(n, r, a, n - 1 - j2);
    assert j1 == k || n - 1 - j1 == k;
    assert j2 == k || n - 1 - j2 == k;
  }

  /** Two distinct padded positions meet in some round. */
  lemma PairMeets(n: nat, a: nat, b: nat) returns (r: nat, j: nat)
    requires 2 <= n && n % 2 == 0 && a < b < n
    ensures r < n - 1 && j < n / 2 && Meets(n, r, j, a, b)
  {
    var m := n - 1;
    if a == 0 {
      r, j := m - b, 0;
      assert Pos(n, r, b) == m;
    } else {
      var t := if a + b <= m then m - a - b else 2 * m - a - b;
      r := if t % 2 == 0 then t / 2 else (t + m) / 2;
      assert 2 * r == t || 2 * r == t + m;
      assert Pos(n, r, a) + Pos(n, r, b) == m;
      j := if Pos(n, r, a) < Pos(n, r, b) then Pos(n, r, a) else Pos(n, r, b);
    }
    MeetsByPos(n, r, j, a, b);
  }

  /** Two distinct padded positions meet in at most one (round, pair). */
  lemma MeetsAtMostOnce(n: nat, a: nat, b: nat, r1: nat, j1: nat, r2: nat, j2: nat)
    requires 2 <= n && n % 2 == 0 && a < b < n
    requires r1 < n - 1 && j1 < n / 2 && Meets(n, r1, j1, a, b)
    requires r2 < n - 1 && j2 < n / 2 && Meets(n, r2, j2, a, b)
    ensures r1 == r2 && j1 == j2
  {
    MeetsByPos(n, r1, j1, a, b);
    MeetsByPos(n, r2, j2, a, b);
    SumFixesRound(n, a, b, r1, r2);
  }

  /**
   * The round in which two positions sit opposite each other is determined by
   * them: the sum of their positions is n-1 in only one round.
   */
  lemma SumFixesRound(n: nat, a: nat, b: nat, r1: nat, r2: nat)
    requires 2 <= n && n % 2 == 0 && a < b < n && r1 < n - 1 && r2 < n - 1
    requires Pos(n, r1, a) + Pos(n, r1, b) == n - 1
    requires Pos(n, r2, a) + Pos(n, r2, b) == n - 1
    ensures r1 == r2
  {
    var m := n - 1;
    if a > 0 {
      var d1 := (if a + r1 <= m then 0 else m) + (if b + r1 <= m then 0 else m);
      var d2 := (if a + r2 <= m then 0 else m) + (if b + r2 <= m then 0 else m);
      assert a + b + 2 * r1 - d1 == m;
      assert a + b + 2 * r2 - d2 == m;
      assert 2 * (r1 - r2) == d1 - d2;
    }
  }

  /**
   * Across the whole schedule every unordered pair of distinct padded positions
   * meets exactly once.
   */
  lemma EveryPairMeetsOnce(n: nat, a: nat, b: nat)
    requires 2 <= n && n % 2 == 0 && a < n && b < n && a != b
    ensures exists r, j :: 0 <= r < n - 1 && 0 <= j < n / 2 && Meets(n, r, j, a, b)
    ensures forall r1, j1, r2, j2 ::
      (0 <= r1 < n - 1 && 0 <= j1 < n / 2 && Meets(n, r1, j1, a, b) &&
       0 <= r2 < n - 1 && 0 <= j2 < n / 2 && Meets(n, r2, j2, a, b)) ==> r1 == r2 && j1 == j2
  {
    var lo, hi := if a < b then a else b, if a < b then b else a;
    var r, j := PairMeets(n, lo, hi);
    assert Meets(n, r, j, a, b);
    forall r1, j1, r2, j2 |
      0 <= r1 < n - 1 && 0 <= j1 < n / 2 && Meets(n, r1, j1, a, b) &&
      0 <= r2 < n - 1 && 0 <= j2 < n / 2 && Meets(n, r2, j2, a, b)
      ensures r1 == r2 && j1 == j2
    {
      assert Meets(n, r1, j1, lo, hi) && Meets(n, r2, j2, lo, hi);
      MeetsAtMostOnce(n, lo, hi, r1, j1, r2, j2);
    }
  }
}

module FirstMovers {
  import opened Types

  // ---------------------------------------------------------------------------
  // assign_firsts
  // ---------------------------------------------------------------------------

  /** A schedule coordinate (round r, pair j) that `assign_firsts` reaches, or the end. */
  predicate At<P>(rounds: seq<seq<P>>, r: nat, j: nat)
  {
    (r < |rounds| && j <= |rounds[r]|) || (r == |rounds| && j == 0)
  }

  function RealSides(pr: (Name, Name)): set<Name>
  {
    (if pr.0 != BYE then {pr.0} else {}) + (if pr.1 != BYE then {pr.1} else {})
  }

  /** The non-BYE names of the pairs before coordinate (r, j). */
  function SeenBefore(rounds: seq<seq<(Name, Name)>>, r: nat, j: nat): set<Name>
    requires At(rounds, r, j)
    decreases r, j
  {
    if j > 0 then SeenBefore(rounds, r, j - 1) + RealSides(rounds[r][j - 1])
    else if r == 0 then {}
    else SeenBefore(rounds, r - 1, |rounds[r - 1]|)
  }

  /** Every non-BYE name of the schedule: the keys of `first_count`. */
  function RealNames(rounds: seq<seq<(Name, Name)>>): set<Name>
  {
    SeenBefore(rounds, |rounds|, 0)
  }

  lemma {:induction false} SeenGrows(rounds: seq<seq<(Name, Name)>>, r: nat, j: nat)
    requires r < |rounds| && j < |rounds[r]|
    ensures RealSides(rounds[r][j]) <= RealNames(rounds)
  {
    SeenMonotone(rounds, r, j + 1, |rounds|, 0);
  }

  lemma {:induction false} SeenMonotone(rounds: seq<seq<(Name, Name)>>, r: nat, j: nat, r2: nat, j2: nat)
    requires At(rounds, r, j) && At(rounds, r2, j2)
    requires r < r2 || (r == r2 && j <= j2)
    ensures SeenBefore(rounds, r, j) <= SeenBefore(rounds, r2, j2)
    decreases r2, j2
  {
    if r == r2 && j == j2 {
    } else if j2 > 0 {
      SeenMonotone(rounds, r, j, r2, j2 - 1);
    } else {
      SeenMonotone(rounds, r, j, r2 - 1, |rounds[r2 - 1]|);
    }
  }

  function ZeroCounts(names: set<Name>): map<Name, int>
  {
    map x | x in names :: 0
  }

  /** The outcome of one pairing: the tuple with its first mover, and the counters after it. */
  datatype Decision = Decision(pairing: Pairing, counts: map<Name, int>)

  /**
   * One pairing of `assign_firsts`: a BYE pairing gives the move to the real
   * side and changes no counter; otherwise the side with the strictly lower
   * counter moves first, a tie is settled by `pickFirst` (the injected
   * `random.choice`), and the chosen side's counter rises by one.
   */
  function Step(counts: map<Name, int>, p1: Name, p2: Name, pickFirst: bool): (d: Decision)
    requires p1 != BYE ==> p1 in counts
    requires p2 != BYE ==> p2 in counts
    ensures d.pairing.p1 == p1 && d.pairing.p2 == p2
    ensures d.pairing.first == p1 || d.pairing.first == p2
    ensures (p1 == BYE || p2 == BYE) ==>
      d.pairing.first == (if p1 != BYE then p1 else p2) && d.counts == counts
    ensures p1 != BYE && p2 != BYE ==>
      (counts[p1] < counts[p2] ==> d.pairing.first == p1) &&
      (counts[p2] < counts[p1] ==> d.pairing.first == p2) &&
      d.counts == counts[d.pairing.first := counts[d.pairing.first] + 1]
    ensures d.counts.Keys == counts.Keys
  {
    if p1 == BYE || p2 == BYE then
      Decision(Pairing(p1, p2, if p1 != BYE then p1 else p2), counts)
    else
      var count1, count2 := counts[p1], counts[p2];
      var first := if count1 < count2 then p1 else if count2 < count1 then p2 else if pickFirst then p1 else p2;
      Decision(Pairing(p1, p2, first), counts[first := counts[first] + 1])
  }

  /** `first_count` just before coordinate (r, j) is processed. */
  function CountsBefore(rounds: seq<seq<(Name, Name)>>, pick: (nat, nat) -> bool, r: nat, j: nat): (c: map<Name, int>)
    requires At(rounds, r, j)
    ensures c.Keys == RealNames(rounds)
    decreases r, j
  {
    if j > 0 then
      var pr := rounds[r][j - 1];
      SeenGrows(rounds, r, j - 1);
      Step(CountsBefore(rounds, pick, r, j - 1), pr.0, pr.1, pick(r, j - 1)).counts
    else if r == 0 then ZeroCounts(RealNames(rounds))
    else CountsBefore(rounds, pick, r - 1, |rounds[r - 1]|)
  }

  /** The tuple `assign_firsts` emits at coordinate (r, j). */
  function FirstAt(rounds: seq<seq<(Name, Name)>>, pick: (nat, nat) -> bool, r: nat, j: nat): Pairing
    requires r < |rounds| && j < |rounds[r]|
  {
    SeenGrows(rounds, r, j);
    Step(CountsBefore(rounds, pick, r, j), rounds[r][j].0, rounds[r][j].1, pick(r, j)).pairing
  }

  function Assigned(rounds: seq<seq<(Name, Name)>>, pick: (nat, nat) -> bool): seq<seq<Pairing>>
  {
    seq(|rounds|, r requires 0 <= r < |rounds| =>
      seq(|rounds[r]|, j requires 0 <= j < |rounds[r]| => FirstAt(rounds, pick, r, j)))
  }

  lemma RowIsAssigned(rounds: seq<seq<(Name, Name)>>, pick: (nat, nat) -> bool, r: nat, row: seq<Pairing>)
    requires r < |rounds|
    requires |row| == |rounds[r]| && forall j :: 0 <= j < |row| ==> row[j] == FirstAt(rounds, pick, r, j)
    ensures |Assigned(rounds, pick)| == |rounds| && row == Assigned(rounds, pick)[r]
  {
  }

  /** The first pass of `assign_firsts`: `first_count[p] = first_count.get(p, 0)` for every real side. */
  method InitialCounts(rounds: seq<seq<(Name, Name)>>) returns (firstCount: map<Name, int>)
    ensures firstCount == ZeroCounts(RealNames(rounds))
  {
    firstCount := map[];
    for r := 0 to |rounds|
      invariant firstCount == ZeroCounts(SeenBefore(rounds, r, 0))
    {
      var rnd := rounds[r];
      for j := 0 to |rnd|
        invariant firstCount == ZeroCounts(SeenBefore(rounds, r, j))
      {
        var (p1, p2) := rnd[j];
        if p1 != BYE {
          firstCount := firstCount[p1 := if p1 in firstCount then firstCount[p1] else 0];
        }
        if p2 != BYE {
          firstCount := firstCount[p2 := if p2 in firstCount then firstCount[p2] else 0];
        }
        assert firstCount == ZeroCounts(SeenBefore(rounds, r, j + 1));
      }
    }
  }

  /**
   * `assign_firsts`: a first pass gives every real name a counter of zero; a
   * second pass decides each pairing in schedule order. `pick(r, j)` stands for
   * the `random.choice` made at round r, pair j when the counters are equal.
   */
  method AssignFirsts(rounds: seq<seq<(Name, Name)>>, pick: (nat, nat) -> bool) returns (scheduled: seq<seq<Pairing>>)
    ensures scheduled == Assigned(rounds, pick)
  {
    var firstCount := InitialCounts(rounds);
    scheduled := [];
    for r := 0 to |rounds|
      invariant firstCount == CountsBefore(rounds, pick, r, 0)
      invariant |scheduled| == r && RowsAssigned(rounds, pick, scheduled)
    {
      var row;
      row, firstCount := AssignRound(rounds, pick, r, firstCount);
      RowIsAssigned(rounds, pick, r, row);
      RowsSnoc(rounds, pick, scheduled, row);
      scheduled := scheduled + [row];
    }
    AllRowsAssigned(rounds, pick, scheduled);
  }

  /** The rows decided so far are the first rows of the assigned schedule. */
  ghost predicate RowsAssigned(rounds: seq<seq<(Name, Name)>>, pick: (nat, nat) -> bool, scheduled: seq<seq<Pairing>>)
  {
    |scheduled| <= |rounds| && forall rr :: 0 <= rr < |scheduled| ==> scheduled[rr] == Assigned(rounds, pick)[rr]
  }

  lemma RowsSnoc(rounds: seq<seq<(Name, Name)>>, pick: (nat, nat) -> bool, scheduled: seq<seq<Pairing>>, row: seq<Pairing>)
    requires RowsAssigned(rounds, pick, scheduled) && |scheduled| < |rounds|
    requires row == Assigned(rounds, pick)[|scheduled|]
    ensures RowsAssigned(rounds, pick, scheduled + [row])
  {
    var s := scheduled + [row];
    forall rr | 0 <= rr < |s| ensures s[rr] == Assigned(rounds, pick)[rr] {
      if rr < |scheduled| {
        assert s[rr] == scheduled[rr];
      }
    }
  }

  lemma AllRowsAssigned(rounds: seq<seq<(Name, Name)>>, pick: (nat, nat) -> bool, scheduled: seq<seq<Pairing>>)
    requires RowsAssigned(rounds, pick, scheduled) && |scheduled| == |rounds|
    ensures scheduled == Assigned(rounds, pick)
  {
  }

  /** The second pass of `assign_firsts` over round r, from the counters before it to the counters after it. */
  method AssignRound(rounds: seq<seq<(Name, Name)>>, pick: (nat, nat) -> bool, r: nat, counts: map<Name, int>)
    returns (row: seq<Pairing>, firstCount: map<Name, int>)
    requires r < |rounds| && counts == CountsBefore(rounds, pick, r, 0)
    ensures |row| == |rounds[r]| && forall j :: 0 <= j < |row| ==> row[j] == FirstAt(rounds, pick, r, j)
    ensures firstCount == CountsBefore(rounds, pick, r + 1, 0)
  {
    firstCount := counts;
    var rnd := rounds[r];
    row := [];
    for j := 0 to |rnd|
      invariant firstCount == CountsBefore(rounds, pick, r, j)
      invariant |row| == j && forall jj :: 0 <= jj < j ==> row[jj] == FirstAt(rounds, pick, r, jj)
    {
      var pairing;
      pairing, firstCount := AssignPair(rounds, pick, r, j, firstCount);
      row := row + [pairing];
    }
  }

  /** Pairing j of round r, decided from the counters before it. */
  method AssignPair(rounds: seq<seq<(Name, Name)>>, pick: (nat, nat) -> bool, r: nat, j: nat, counts: map<Name, int>)
    returns (pairing: Pairing, firstCount: map<Name, int>)
    requires r < |rounds| && j < |rounds[r]| && counts == CountsBefore(rounds, pick, r, j)
    ensures pairing == FirstAt(rounds, pick, r, j) && firstCount == CountsBefore(rounds, pick, r, j + 1)
  {
    SeenGrows(rounds, r, j);
    StepAt(rounds, pick, r, j);
    pairing, firstCount := Decide(counts, rounds[r][j].0, rounds[r][j].1, pick(r, j));
  }

  /** The body of the second pass for one pairing. */
  method Decide(counts: map<Name, int>, p1: Name, p2: Name, pickFirst: bool) returns (pairing: Pairing, firstCount: map<Name, int>)
    requires p1 != BYE ==> p1 in counts
    requires p2 != BYE ==> p2 in counts
    ensures Decision(pairing, firstCount) == Step(counts, p1, p2, pickFirst)
  {
    firstCount := counts;
    if p1 == BYE || p2 == BYE {
      pairing := Pairing(p1, p2, if p1 != BYE then p1 else p2);
    } else {
      var count1 := firstCount[p1];
      var count2 := firstCount[p2];
      var first;
      if count1 < count2 {
        first := p1;
      } else if count2 < count1 {
        first := p2;
      } else {
        first := if pickFirst then p1 else p2;
      }
      firstCount := firstCount[first := firstCount[first] + 1];
      pairing := Pairing(p1, p2, first);
    }
  }

  lemma StepAt(rounds: seq<seq<(Name, Name)>>, pick: (nat, nat) -> bool, r: nat, j: nat)
    requires r < |rounds| && j < |rounds[r]|
    ensures rounds[r][j].0 != BYE ==> rounds[r][j].0 in CountsBefore(rounds, pick, r, j)
    ensures rounds[r][j].1 != BYE ==> rounds[r][j].1 in CountsBefore(rounds, pick, r, j)
    ensures var d := Step(CountsBefore(rounds, pick, r, j), rounds[r][j].0, rounds[r][j].1, pick(r, j));
      FirstAt(rounds, pick, r, j) == d.pairing && CountsBefore(rounds, pick, r, j + 1) == d.counts
  {
    SeenGrows(rounds, r, j);
  }

  // ---------------------------------------------------------------------------
  // What assign_firsts guarantees, stated on its output
  // ---------------------------------------------------------------------------

  /**
   * The output keeps the round and pair structure, and adds as third element one
   * of the two sides: the real side when the other one is `"BYE"`.
   */
  lemma AssignedShape(rounds: seq<seq<(Name, Name)>>, pick: (nat, nat) -> bool)
    ensures var out := Assigned(rounds, pick);
      |out| == |rounds| &&
      (forall r :: 0 <= r < |out| ==> |out[r]| == |rounds[r]|) &&
      (forall r, j :: 0 <= r < |out| && 0 <= j < |out[r]| ==>
        out[r][j].p1 == rounds[r][j].0 && out[r][j].p2 == rounds[r][j].1 &&
        (out[r][j].first == rounds[r][j].0 || out[r][j].first == rounds[r][j].1) &&
        (rounds[r][j].1 == BYE ==> out[r][j].first == rounds[r][j].0) &&
        (rounds[r][j].0 == BYE ==> out[r][j].first == rounds[r][j].1))
  {
  }

  /** How often `x` was given the first move in a real (non-BYE) pairing before (r, j). */
  function FirstsBefore(out: seq<seq<Pairing>>, x: Name, r: nat, j: nat): nat
    requires At(out, r, j)
    decreases r, j
  {
    if j > 0 then
      var pg := out[r][j - 1];
      FirstsBefore(out, x, r, j - 1) + (if pg.first == x && pg.p1 != BYE && pg.p2 != BYE then 1 else 0)
    else if r == 0 then 0
    else FirstsBefore(out, x, r - 1, |out[r - 1]|)
  }

  /** The counter `first_count[x]` before (r, j) is the number of first moves `x` received so far. */
  lemma {:induction false} CountsAreFirstMoves(rounds: seq<seq<(Name, Name)>>, pick: (nat, nat) -> bool, r: nat, j: nat, x: Name)
    requires At(rounds, r, j) && x in RealNames(rounds)
    ensures At(Assigned(rounds, pick), r, j)
    ensures CountsBefore(rounds, pick, r, j)[x] == FirstsBefore(Assigned(rounds, pick), x, r, j)
    decreases r, j
  {
    var out := Assigned(rounds, pick);
    AssignedLength(rounds, pick);
    if j > 0 {
      CountsAreFirstMoves(rounds, pick, r, j - 1, x);
      CountsStep(rounds, pick, r, j - 1, x);
    } else if r > 0 {
      CountsAreFirstMoves(rounds, pick, r - 1, |rounds[r - 1]|, x);
      assert FirstsBefore(out, x, r, j) == FirstsBefore(out, x, r - 1, |out[r - 1]|);
    } else {
      assert CountsBefore(rounds, pick, r, j)[x] == 0;
    }
  }

  /** One pairing moves `first_count[x]` and the number of first moves of `x` alike. */
  lemma CountsStep(rounds: seq<seq<(Name, Name)>>, pick: (nat, nat) -> bool, r: nat, j: nat, x: Name)
    requires r < |rounds| && j < |rounds[r]| && x in RealNames(rounds)
    ensures |Assigned(rounds, pick)| == |rounds| && |Assigned(rounds, pick)[r]| == |rounds[r]|
    ensures CountsBefore(rounds, pick, r, j + 1)[x] - CountsBefore(rounds, pick, r, j)[x] ==
      FirstsBefore(Assigned(rounds, pick), x, r, j + 1) - FirstsBefore(Assigned(rounds, pick), x, r, j)
  {
    var out := Assigned(rounds, pick);
    StepAt(rounds, pick, r, j);
    var pr := rounds[r][j];
    var before := CountsBefore(rounds, pick, r, j);
    var d := Step(before, pr.0, pr.1, pick(r, j));
    assert out[r][j] == d.pairing;
    assert d.counts[x] == before[x] + (if d.pairing.first == x && pr.0 != BYE && pr.1 != BYE then 1 else 0);
  }

  lemma AssignedLength(rounds: seq<seq<(Name, Name)>>, pick: (nat, nat) -> bool)
    ensures |Assigned(rounds, pick)| == |rounds|
    ensures forall r :: 0 <= r < |rounds| ==> |Assigned(rounds, pick)[r]| == |rounds[r]|
  {
  }

  /**
   * In a real pairing the side that had received the first move strictly fewer
   * times so far moves first; the side that moves first gains exactly one first
   * move and no one else gains any. A BYE pairing changes no one's count.
   */
  lemma FewerFirstsMovesFirst(rounds: seq<seq<(Name, Name)>>, pick: (nat, nat) -> bool, r: nat, j: nat, x: Name)
    requires r < |rounds| && j < |rounds[r]|
    ensures |Assigned(rounds, pick)| == |rounds| && |Assigned(rounds, pick)[r]| == |rounds[r]|
    ensures var out := Assigned(rounds, pick);
      var pg := out[r][j];
      (pg.p1 != BYE && pg.p2 != BYE ==>
        (FirstsBefore(out, pg.p1, r, j) < FirstsBefore(out, pg.p2, r, j) ==> pg.first == pg.p1) &&
        (FirstsBefore(out, pg.p2, r, j) < FirstsBefore(out, pg.p1, r, j) ==> pg.first == pg.p2) &&
        FirstsBefore(out, x, r, j + 1) == FirstsBefore(out, x, r, j) + (if x == pg.first then 1 else 0)) &&
      (pg.p1 == BYE || pg.p2 == BYE ==> FirstsBefore(out, x, r, j + 1) == FirstsBefore(out, x, r, j))
  {
    var out := Assigned(rounds, pick);
    AssignedShape(rounds, pick);
    var pg: Pairing := out[r][j];
    if pg.p1 != BYE && pg.p2 != BYE {
      SeenGrows(rounds, r, j);
      CountsAreFirstMoves(rounds, pick, r, j, pg.p1);
      CountsAreFirstMoves(rounds, pick, r, j, pg.p2);
      StepAt(rounds, pick, r, j);
    }
  }
}
