/**
 * The round history of a general-mode tournament in main.py: the page
 * handlers `pair_round`, `unpair_round` and `submit_result` and the three
 * module globals they update, `completed_rounds`, `results_by_round` and
 * `current_round_number`. What a handler reads from a widget (the selected
 * round, the chosen system, the dialog's round count, the score entries,
 * the round and board being shown) is a parameter; messages and redraws are
 * left out, and every early `return` becomes an outcome.
 */
module MainHistory {
  import opened Types
  import opened Replay
  import opened CircleMethod
  import opened FirstMovers
  import opened Pairings
  import opened MainPairings

  /** The three globals. */
  datatype History = History(completed: Rounds, results: Results, current: int)

  datatype PairOutcome = NotNextRound | Cancelled | Paired(pairing: seq<Pairing>)

  datatype UnpairOutcome = NotPaired | NotLatest | Unpaired

  datatype SubmitOutcome = NoRounds | IndexError | ByeSkipped | InvalidScores | Stored

  /** main.py's full round-robin schedule of the players. */
  function FullSchedule(players: seq<Player>, firsts: (nat, nat) -> bool): seq<seq<Pairing>>
  {
    Assigned(Schedule(Pad(Names(players), BYE)), firsts)
  }

  /** The number of rounds in the full schedule: one fewer than the padded roster, and none for no players. */
  function RoundCount(players: seq<Player>): nat
  {
    var n := |Pad(Names(players), BYE)|;
    if n == 0 then 0 else n - 1
  }

  lemma FullScheduleLength(players: seq<Player>, firsts: (nat, nat) -> bool)
    ensures |FullSchedule(players, firsts)| == RoundCount(players)
  {
    ScheduleShape(Pad(Names(players), BYE));
  }

  /** `for r in range(1, k + 1): completed_rounds[r] = schedule[r - 1]` */
  function Commit(c: Rounds, sched: seq<seq<Pairing>>, k: nat): Rounds
    requires k <= |sched|
  {
    if k == 0 then c else Commit(c, sched, k - 1)[k := sched[k - 1]]
  }

  /** After the commit, rounds 1 .. k are the schedule's first k and every other round is as before. */
  lemma {:induction false} CommitFacts(c: Rounds, sched: seq<seq<Pairing>>, k: nat)
    requires k <= |sched|
    ensures forall r :: r in Commit(c, sched, k) <==> r in c || 1 <= r <= k
    ensures forall r :: r in Commit(c, sched, k) ==> Commit(c, sched, k)[r] == if 1 <= r <= k then sched[r - 1] else c[r]
  {
    if k > 0 {
      CommitFacts(c, sched, k - 1);
    }
  }

  /** `if r not in results_by_round: results_by_round[r] = [None] * n` */
  function WithSlots(res: Results, r: int, n: nat): (out: Results)
    ensures out.Keys == res.Keys + {r}
    ensures forall q :: q in res ==> out[q] == res[q]
    ensures r !in res ==> |out[r]| == n && forall i :: 0 <= i < n ==> out[r][i] == None
  {
    if r in res then res else res[r := Nones(n)]
  }

  /** The pairing `generate_general_pairings` draws for Random or King of the Hills, and `[]` for any other system. */
  function GeneralPairing(players: seq<Player>, system: string, shuffled: seq<Name>, coin: nat -> bool): seq<Pairing>
  {
    if system == "Random Pairing" then RandomDraw(Pad(shuffled, BYE), coin)
    else if system == "King of the Hills Pairing" then KingOfTheHillsPairings(players)
    else []
  }

  /** What the round-count dialog can return: nothing (cancelled), or a count between 1 and the schedule's length. */
  predicate DialogRange(players: seq<Player>, system: string, desired: Option<int>)
  {
    system == "Round Robin" && desired.Some? ==> 1 <= desired.value <= RoundCount(players)
  }

  /**
   * `pair_round` in general mode. Only round `current + 1` can be paired.
   * Round Robin commits the first k rounds of the full schedule, k from the
   * dialog, and makes k the current round; Random and King of the Hills
   * store the drawn round under the selected number and make it current; any
   * other system draws nothing. A selected round without result slots gets
   * one empty slot per pairing.
   */
  function PairStep(h: History, selected: int, system: string, players: seq<Player>, desired: Option<int>,
                    shuffled: seq<Name>, coin: nat -> bool, firsts: (nat, nat) -> bool): (History, PairOutcome)
    requires DialogRange(players, system, desired)
  {
    if selected != h.current + 1 then (h, NotNextRound)
    else if system == "Round Robin" then RoundRobinStep(h, selected, players, desired, firsts)
    else DrawnStep(h, selected, system, players, shuffled, coin)
  }

  /** The Round Robin branch of `PairStep`. */
  function RoundRobinStep(h: History, selected: int, players: seq<Player>, desired: Option<int>,
                          firsts: (nat, nat) -> bool): (History, PairOutcome)
    requires DialogRange(players, "Round Robin", desired)
  {
    var sched := FullSchedule(players, firsts);
    FullScheduleLength(players, firsts);
    if desired.None? then (h, Cancelled)
    else
      var k := desired.value;
      var pairing := sched[k - 1];
      (History(Commit(h.completed, sched, k), WithSlots(h.results, selected, |pairing|), k), Paired(pairing))
  }

  /** The other branches of `PairStep`. */
  function DrawnStep(h: History, selected: int, system: string, players: seq<Player>,
                     shuffled: seq<Name>, coin: nat -> bool): (History, PairOutcome)
  {
    var pairing := GeneralPairing(players, system, shuffled, coin);
    var drawn := system == "Random Pairing" || system == "King of the Hills Pairing";
    var c := if drawn then h.completed[selected := pairing] else h.completed;
    var cur := if drawn then selected else h.current;
    (History(c, WithSlots(h.results, selected, |pairing|), cur), Paired(pairing))
  }

  /** `unpair_round`: only the latest paired round can be removed, with its results. */
  function UnpairStep(h: History, selected: int): (History, UnpairOutcome)
  {
    if selected !in h.completed then (h, NotPaired)
    else if selected != h.current then (h, NotLatest)
    else (History(h.completed - {selected}, h.results - {selected}, h.current - 1), Unpaired)
  }

  /** The widget indices `submit_result` reads: a shown round exists, and the board index is not negative. */
  predicate ShownIndices(h: History, roundIndex: int, pairingIndex: int)
  {
    (h.completed != map[] ==> 0 <= roundIndex < |SortedKeys(h.completed.Keys)|) && 0 <= pairingIndex
  }

  /**
   * `submit_result` for board `pairingIndex` of the `roundIndex`-th paired
   * round in ascending order, with the two score entries parsed (`None` when
   * `int()` fails). A BYE board needs no result; the round gets its empty
   * slots if it has none, and the board's slot receives the scores.
   */
  function SubmitStep(h: History, roundIndex: int, pairingIndex: int, scores: Option<Score>): (History, SubmitOutcome)
    requires ShownIndices(h, roundIndex, pairingIndex)
  {
    if h.completed == map[] then (h, NoRounds)
    else
      var ks := SortedKeys(h.completed.Keys);
      var roundNum := ks[roundIndex];
      assert roundNum in ks;
      var currentRound := h.completed[roundNum];
      if pairingIndex >= |currentRound| then (h, IndexError)
      else if currentRound[pairingIndex].p1 == BYE || currentRound[pairingIndex].p2 == BYE then (h, ByeSkipped)
      else if scores.None? then (h, InvalidScores)
      else
        var res := WithSlots(h.results, roundNum, |currentRound|);
        if pairingIndex >= |res[roundNum]| then (History(h.completed, res, h.current), IndexError)
        else (History(h.completed, res[roundNum := res[roundNum][pairingIndex := scores]], h.current), Stored)
  }

  /** The pairing page's globals, updated in place by its handlers. */
  class RoundHistory {
    var completedRounds: Rounds
    var resultsByRound: Results
    var currentRoundNumber: int

    function State(): History
      reads this
    {
      History(completedRounds, resultsByRound, currentRoundNumber)
    }

    /** A new tournament: nothing paired, nothing scored, round 0. */
    constructor ()
      ensures State() == History(map[], map[], 0)
    {
      completedRounds := map[];
      resultsByRound := map[];
      currentRoundNumber := 0;
    }

    /** `pair_round()` */
    method PairRound(selected: int, system: string, players: seq<Player>, desired: Option<int>,
                     shuffled: seq<Name>, coin: nat -> bool, firsts: (nat, nat) -> bool)
      returns (outcome: PairOutcome)
      modifies this
      requires multiset(shuffled) == multiset(Names(players))
      requires DialogRange(players, system, desired)
      ensures (State(), outcome) == PairStep(old(State()), selected, system, players, desired, shuffled, coin, firsts)
    {
      if selected != currentRoundNumber + 1 {
        return NotNextRound;
      }
      if system == "Round Robin" {
        outcome := PairRoundRobin(selected, players, desired, shuffled, coin, firsts);
      } else {
        outcome := PairDrawn(selected, system, players, shuffled, coin, firsts);
      }
    }

    /** The Round Robin branch of `pair_round()`: commit the first k rounds of the full schedule. */
    method PairRoundRobin(selected: int, players: seq<Player>, desired: Option<int>,
                          shuffled: seq<Name>, coin: nat -> bool, firsts: (nat, nat) -> bool)
      returns (outcome: PairOutcome)
      modifies this
      requires multiset(shuffled) == multiset(Names(players))
      requires DialogRange(players, "Round Robin", desired)
      ensures (State(), outcome) == RoundRobinStep(old(State()), selected, players, desired, firsts)
    {
      var fullSchedule := DrawFullSchedule(players, shuffled, coin, firsts);
      FullScheduleLength(players, firsts);
      if desired.None? {
        return Cancelled;
      }
      var k := desired.value;
      CommitRounds(fullSchedule, k);
      currentRoundNumber := k;
      var pairing := fullSchedule[k - 1];
      AddSlots(selected, |pairing|);
      outcome := Paired(pairing);
    }

    /** `full_schedule = generate_pairings_system(players, system="Round Robin")` */
    method DrawFullSchedule(players: seq<Player>, shuffled: seq<Name>, coin: nat -> bool, firsts: (nat, nat) -> bool)
      returns (fullSchedule: seq<seq<Pairing>>)
      requires multiset(shuffled) == multiset(Names(players))
      ensures fullSchedule == FullSchedule(players, firsts)
    {
      var drawn := MainGeneratePairingsSystem(players, "Round Robin", None, [], shuffled, coin, firsts, (r: nat, j: nat) => true);
      fullSchedule := drawn.value.rounds;
    }

    /** The other branches of `pair_round()`: Random and King of the Hills store one drawn round; other systems draw nothing. */
    method PairDrawn(selected: int, system: string, players: seq<Player>,
                     shuffled: seq<Name>, coin: nat -> bool, firsts: (nat, nat) -> bool)
      returns (outcome: PairOutcome)
      modifies this
      requires multiset(shuffled) == multiset(Names(players))
      ensures (State(), outcome) == DrawnStep(old(State()), selected, system, players, shuffled, coin)
    {
      var pairing: seq<Pairing>;
      if system == "Random Pairing" || system == "King of the Hills Pairing" {
        var drawn := GenerateGeneralPairings(players, system, shuffled, coin, firsts);
        assert drawn == Ok(PlayerRound(GeneralPairing(players, system, shuffled, coin)));
        pairing := drawn.value.pairings;
        completedRounds := completedRounds[selected := pairing];
        currentRoundNumber := selected;
      } else {
        pairing := [];
      }
      AddSlots(selected, |pairing|);
      outcome := Paired(pairing);
    }

    /** A round without result slots gets `n` empty ones. */
    method AddSlots(selected: int, n: nat)
      modifies this
      ensures resultsByRound == WithSlots(old(resultsByRound), selected, n)
      ensures completedRounds == old(completedRounds) && currentRoundNumber == old(currentRoundNumber)
    {
      if selected !in resultsByRound {
        resultsByRound := resultsByRound[selected := Nones(n)];
      }
    }

    /** The loop committing rounds 1 .. k of the full schedule. */
    method CommitRounds(fullSchedule: seq<seq<Pairing>>, k: nat)
      modifies this
      requires k <= |fullSchedule|
      ensures completedRounds == Commit(old(completedRounds), fullSchedule, k)
      ensures resultsByRound == old(resultsByRound) && currentRoundNumber == old(currentRoundNumber)
    {
      ghost var c0 := completedRounds;
      var r: nat := 1;
      while r <= k
        invariant 1 <= r <= k + 1
        invariant completedRounds == Commit(c0, fullSchedule, r - 1)
        invariant resultsByRound == old(resultsByRound) && currentRoundNumber == old(currentRoundNumber)
      {
        completedRounds := completedRounds[r := fullSchedule[r - 1]];
        r := r + 1;
      }
    }

    /** `unpair_round()` */
    method UnpairRound(selected: int) returns (outcome: UnpairOutcome)
      modifies this
      ensures (State(), outcome) == UnpairStep(old(State()), selected)
    {
      if selected !in completedRounds {
        return NotPaired;
      }
      if selected != currentRoundNumber {
        return NotLatest;
      }
      completedRounds := completedRounds - {selected};
      if selected in resultsByRound {
        resultsByRound := resultsByRound - {selected};
      } else {
        assert resultsByRound - {selected} == resultsByRound;
      }
      currentRoundNumber := currentRoundNumber - 1;
      outcome := Unpaired;
    }

    /** `submit_result()` up to the recalculation it triggers */
    method SubmitResult(roundIndex: int, pairingIndex: int, scores: Option<Score>) returns (outcome: SubmitOutcome)
      modifies this
      requires ShownIndices(State(), roundIndex, pairingIndex)
      ensures (State(), outcome) == SubmitStep(old(State()), roundIndex, pairingIndex, scores)
    {
      if completedRounds == map[] {
        return NoRounds;
      }
      var roundsSorted := SortedKeys(completedRounds.Keys);
      var roundNum := roundsSorted[roundIndex];
      assert roundNum in roundsSorted;
      var currentRound := completedRounds[roundNum];
      if pairingIndex >= |currentRound| {
        return IndexError;
      }
      var pairing := currentRound[pairingIndex];
      if pairing.p1 == BYE || pairing.p2 == BYE {
        return ByeSkipped;
      }
      if scores.None? {
        return InvalidScores;
      }
      if roundNum !in resultsByRound {
        resultsByRound := resultsByRound[roundNum := Nones(|currentRound|)];
      }
      if pairingIndex >= |resultsByRound[roundNum]| {
        return IndexError;
      }
      resultsByRound := resultsByRound[roundNum := resultsByRound[roundNum][pairingIndex := scores]];
      outcome := Stored;
    }
  }

  // ---------------------------------------------------------------------------
  // What the handlers keep
  // ---------------------------------------------------------------------------

  /** The paired rounds are exactly 1 .. current. */
  ghost predicate Valid(h: History)
  {
    h.current >= 0 && forall r :: r in h.completed <==> 1 <= r <= h.current
  }

  /**
   * Pairing keeps the rounds numbered 1 .. current, unless a round robin is
   * committed with fewer rounds than are already paired.
   */
  lemma PairStepValid(h: History, selected: int, system: string, players: seq<Player>, desired: Option<int>,
                      shuffled: seq<Name>, coin: nat -> bool, firsts: (nat, nat) -> bool)
    requires DialogRange(players, system, desired)
    requires Valid(h)
    requires system == "Round Robin" && desired.Some? ==> desired.value >= h.current
    ensures Valid(PairStep(h, selected, system, players, desired, shuffled, coin, firsts).0)
  {
    if selected == h.current + 1 && system == "Round Robin" && desired.Some? {
      CommitFacts(h.completed, FullSchedule(players, firsts), desired.value);
    }
  }

  /** A round robin of k rounds committed over more than k paired rounds leaves a paired round above the current one. */
  lemma RoundRobinBelowCurrent(h: History, players: seq<Player>, desired: Option<int>,
                               shuffled: seq<Name>, coin: nat -> bool, firsts: (nat, nat) -> bool)
    requires DialogRange(players, "Round Robin", desired)
    requires Valid(h) && desired.Some? && desired.value < h.current
    ensures var h' := PairStep(h, h.current + 1, "Round Robin", players, desired, shuffled, coin, firsts).0;
      h'.current == desired.value && h.current in h'.completed && !Valid(h')
  {
    CommitFacts(h.completed, FullSchedule(players, firsts), desired.value);
  }

  /** Unpairing keeps the rounds numbered 1 .. current. */
  lemma UnpairStepValid(h: History, selected: int)
    requires Valid(h)
    ensures Valid(UnpairStep(h, selected).0)
  {
  }

  /** Only round current + 1 can be paired; any other selection changes nothing. */
  lemma PairOnlyNext(h: History, selected: int, system: string, players: seq<Player>, desired: Option<int>,
                     shuffled: seq<Name>, coin: nat -> bool, firsts: (nat, nat) -> bool)
    requires DialogRange(players, system, desired)
    ensures PairStep(h, selected, system, players, desired, shuffled, coin, firsts).1 == NotNextRound <==> selected != h.current + 1
    ensures selected != h.current + 1 ==> PairStep(h, selected, system, players, desired, shuffled, coin, firsts).0 == h
  {
  }

  /**
   * A committed round robin: rounds 1 .. k hold the schedule's first k
   * rounds, other rounds are as they were, round k is current and is the
   * pairing shown. Result slots are added only under the round that was
   * selected (current + 1), sized by round k; any other committed round
   * that had no results still has none.
   */
  lemma RoundRobinCommitted(h: History, players: seq<Player>, k: int, shuffled: seq<Name>, coin: nat -> bool,
                            firsts: (nat, nat) -> bool)
    requires DialogRange(players, "Round Robin", Some(k))
    ensures PairStep(h, h.current + 1, "Round Robin", players, Some(k), shuffled, coin, firsts).1 == Paired(FullSchedule(players, firsts)[k - 1])
    ensures Committed(h, PairStep(h, h.current + 1, "Round Robin", players, Some(k), shuffled, coin, firsts).0, FullSchedule(players, firsts), k)
    ensures PairStep(h, h.current + 1, "Round Robin", players, Some(k), shuffled, coin, firsts).0.results ==
      WithSlots(h.results, h.current + 1, |FullSchedule(players, firsts)[k - 1]|)
    ensures forall r :: r !in h.results && r != h.current + 1 ==>
      r !in PairStep(h, h.current + 1, "Round Robin", players, Some(k), shuffled, coin, firsts).0.results
  {
    var sched := FullSchedule(players, firsts);
    var p := sched[k - 1];
    var h' := History(Commit(h.completed, sched, k), WithSlots(h.results, h.current + 1, |p|), k);
    assert PairStep(h, h.current + 1, "Round Robin", players, Some(k), shuffled, coin, firsts) == (h', Paired(p));
    CommitIsCommitted(h, h', sched, k);
  }

  /** Rounds 1 .. k of `h'` are the schedule's first k, other rounds of `h` are kept, and k is current. */
  predicate Committed(h: History, h': History, sched: seq<seq<Pairing>>, k: int)
    requires 0 <= k <= |sched|
  {
    h'.current == k &&
    (forall r :: 1 <= r <= k ==> r in h'.completed && h'.completed[r] == sched[r - 1]) &&
    (forall r :: r in h.completed && !(1 <= r <= k) ==> r in h'.completed && h'.completed[r] == h.completed[r])
  }

  lemma CommitIsCommitted(h: History, h': History, sched: seq<seq<Pairing>>, k: nat)
    requires k <= |sched| && h'.completed == Commit(h.completed, sched, k) && h'.current == k
    ensures Committed(h, h', sched, k)
  {
    CommitFacts(h.completed, sched, k);
  }

  /**
   * A drawn round (Random or King of the Hills) is stored under the selected
   * number, which becomes current; every other round is untouched, and a
   * round with no result slots gets one empty slot per pairing.
   */
  lemma DrawnRoundStored(h: History, system: string, players: seq<Player>, shuffled: seq<Name>, coin: nat -> bool,
                         firsts: (nat, nat) -> bool)
    requires system == "Random Pairing" || system == "King of the Hills Pairing"
    ensures var s := h.current + 1; var (h', o) := PairStep(h, s, system, players, None, shuffled, coin, firsts);
      var p := GeneralPairing(players, system, shuffled, coin);
      o == Paired(p) && h'.current == s && s in h'.completed && h'.completed[s] == p &&
      (forall r :: r != s ==> (r in h'.completed <==> r in h.completed)) &&
      (forall r :: r != s && r in h.completed ==> h'.completed[r] == h.completed[r]) &&
      (s !in h.results ==> s in h'.results && h'.results[s] == Nones(|p|)) &&
      (s in h.results ==> h'.results == h.results)
  {
  }

  /** Pairing a new round by draw and then unpairing it restores the history exactly. */
  lemma PairThenUnpair(h: History, system: string, players: seq<Player>, shuffled: seq<Name>, coin: nat -> bool,
                       firsts: (nat, nat) -> bool)
    requires Valid(h) && h.current + 1 !in h.results
    requires system == "Random Pairing" || system == "King of the Hills Pairing"
    ensures var s := h.current + 1; var h' := PairStep(h, s, system, players, None, shuffled, coin, firsts).0;
      UnpairStep(h', s) == (h, Unpaired)
  {
    var s := h.current + 1;
    var h' := PairStep(h, s, system, players, None, shuffled, coin, firsts).0;
    assert s !in h.completed;
    assert h'.completed - {s} == h.completed;
    assert h'.results - {s} == h.results;
  }

  /** Unpairing succeeds exactly for the current round when it is paired, and removes only that round. */
  lemma UnpairOnlyLatest(h: History, selected: int)
    ensures UnpairStep(h, selected).1 == Unpaired <==> selected in h.completed && selected == h.current
    ensures UnpairStep(h, selected).1 != Unpaired ==> UnpairStep(h, selected).0 == h
    ensures UnpairStep(h, selected).1 == Unpaired ==>
      UnpairStep(h, selected).0 == History(h.completed - {selected}, h.results - {selected}, h.current - 1)
    ensures var h' := UnpairStep(h, selected).0;
      forall r :: r != selected ==> (r in h'.completed <==> r in h.completed) && (r in h'.results <==> r in h.results)
  {
  }

  /** Submitting never changes the paired rounds or the current round. */
  lemma SubmitKeepsRounds(h: History, roundIndex: int, pairingIndex: int, scores: Option<Score>)
    requires ShownIndices(h, roundIndex, pairingIndex)
    ensures SubmitStep(h, roundIndex, pairingIndex, scores).0.completed == h.completed
    ensures SubmitStep(h, roundIndex, pairingIndex, scores).0.current == h.current
    ensures Valid(h) ==> Valid(SubmitStep(h, roundIndex, pairingIndex, scores).0)
  {
    if h.completed != map[] {
      var ks := SortedKeys(h.completed.Keys);
      assert ks[roundIndex] in ks;
    }
  }

  /** The slots of a round after a submission, from the slots before it. */
  predicate OneSlotSet(before: seq<Option<Score>>, after: seq<Option<Score>>, j: nat, s: Score)
  {
    |after| == |before| && j < |after| && after[j] == Some(s) &&
    forall i :: 0 <= i < |after| && i != j ==> after[i] == before[i]
  }

  /**
   * A stored result: the `roundIndex`-th paired round is neither empty at
   * that board nor a BYE, and only its slot at `pairingIndex` changes, to the
   * submitted scores (on top of fresh empty slots if the round had none);
   * every other round's results are untouched.
   */
  lemma SubmitStored(h: History, roundIndex: int, pairingIndex: int, scores: Option<Score>)
    requires ShownIndices(h, roundIndex, pairingIndex)
    requires SubmitStep(h, roundIndex, pairingIndex, scores).1 == Stored
    ensures h.completed != map[] && scores.Some?
    ensures var rn := SortedKeys(h.completed.Keys)[roundIndex]; var h' := SubmitStep(h, roundIndex, pairingIndex, scores).0;
      rn in h.completed && pairingIndex < |h.completed[rn]| &&
      h.completed[rn][pairingIndex].p1 != BYE && h.completed[rn][pairingIndex].p2 != BYE &&
      h'.results.Keys == h.results.Keys + {rn} &&
      OneSlotSet(if rn in h.results then h.results[rn] else Nones(|h.completed[rn]|), h'.results[rn], pairingIndex, scores.value) &&
      forall r :: r in h.results && r != rn ==> h'.results[r] == h.results[r]
  {
    assert h.completed != map[];
    var ks := SortedKeys(h.completed.Keys);
    var rn := ks[roundIndex];
    assert rn in ks;
    var cr := h.completed[rn];
    assert pairingIndex < |cr| && cr[pairingIndex].p1 != BYE && cr[pairingIndex].p2 != BYE && scores.Some?;
    var res := WithSlots(h.results, rn, |cr|);
    assert pairingIndex < |res[rn]|;
    var h' := History(h.completed, res[rn := res[rn][pairingIndex := scores]], h.current);
    assert SubmitStep(h, roundIndex, pairingIndex, scores) == (h', Stored);
    assert res[rn] == if rn in h.results then h.results[rn] else Nones(|cr|);
    SetSlot(res[rn], pairingIndex, scores.value);
  }

  lemma SetSlot(before: seq<Option<Score>>, j: nat, s: Score)
    requires j < |before|
    ensures OneSlotSet(before, before[j := Some(s)], j, s)
  {
  }

  /** A BYE board, an unparsable score and a board past the round's end change nothing. */
  lemma SubmitRejects(h: History, roundIndex: int, pairingIndex: int, scores: Option<Score>)
    requires ShownIndices(h, roundIndex, pairingIndex) && h.completed != map[]
    ensures var rn := SortedKeys(h.completed.Keys)[roundIndex];
      rn in h.completed &&
      (pairingIndex >= |h.completed[rn]| ==> SubmitStep(h, roundIndex, pairingIndex, scores) == (h, IndexError)) &&
      (pairingIndex < |h.completed[rn]| && (h.completed[rn][pairingIndex].p1 == BYE || h.completed[rn][pairingIndex].p2 == BYE) ==>
        SubmitStep(h, roundIndex, pairingIndex, scores) == (h, ByeSkipped)) &&
      (pairingIndex < |h.completed[rn]| && h.completed[rn][pairingIndex].p1 != BYE && h.completed[rn][pairingIndex].p2 != BYE && scores.None? ==>
        SubmitStep(h, roundIndex, pairingIndex, scores) == (h, InvalidScores))
  {
    var ks := SortedKeys(h.completed.Keys);
    assert ks[roundIndex] in ks;
  }
}
