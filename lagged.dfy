/**
 * pairings.py `compute_lagged_standings` and `lagged_australian_pairings`:
 * standings built only from the rounds up to a limit, and the Australian
 * draw over them from round 3 on.
 */
module Lagged {
  import opened Types
  import opened Ranking
  import opened Replay
  import opened Pairings
  import opened Draws

  /** `{"wins": ..., "spread": ...}`; wins in half-points. */
  datatype Tally = Tally(wins: int, spread: int)

  /**
   * One position of the lagged replay. Unlike `recalculate_player_stats` it
   * does not skip BYE pairings. The winner is looked up first (p1 on a tie):
   * the winner gains two half-points and the margin, the loser loses the
   * margin, and a tie gives each side one half-point.
   */
  function LagStep(acc: Result<map<Name, Tally>>, e: Event): Result<map<Name, Tally>>
  {
    if acc.Err? || e.result.None? then acc
    else
      var m := acc.value;
      var (s1, s2) := e.result.value;
      var p1, p2 := e.pairing.p1, e.pairing.p2;
      if s1 > s2 then
        if p1 !in m then Err(KeyError(p1))
        else
          var m1 := m[p1 := Tally(m[p1].wins + 2, m[p1].spread + (s1 - s2))];
          if p2 !in m1 then Err(KeyError(p2))
          else Ok(m1[p2 := Tally(m1[p2].wins, m1[p2].spread - (s1 - s2))])
      else if s2 > s1 then
        if p2 !in m then Err(KeyError(p2))
        else
          var m1 := m[p2 := Tally(m[p2].wins + 2, m[p2].spread + (s2 - s1))];
          if p1 !in m1 then Err(KeyError(p1))
          else Ok(m1[p1 := Tally(m1[p1].wins, m1[p1].spread - (s2 - s1))])
      else
        if p1 !in m then Err(KeyError(p1))
        else
          var m1 := m[p1 := Tally(m[p1].wins + 1, m[p1].spread)];
          if p2 !in m1 then Err(KeyError(p2))
          else Ok(m1[p2 := Tally(m1[p2].wins + 1, m1[p2].spread)])
  }

  /** Every name mapped to a zero tally. */
  function InitTallies(names: seq<Name>): (m: map<Name, Tally>)
    ensures forall n :: n in m <==> n in names
    ensures forall n :: n in m ==> m[n] == Tally(0, 0)
    decreases |names|
  {
    if names == [] then map[]
    else
      var front := names[..|names| - 1];
      assert names == front + [names[|names| - 1]];
      InitTallies(front)[names[|names| - 1] := Tally(0, 0)]
  }

  /** The tallies after the rounds up to `limit`, or the exception raised. */
  function LaggedTallies(players: seq<Player>, res: Results, c: Rounds, limit: int): Result<map<Name, Tally>>
  {
    Fold(Ok(InitTallies(Names(players))), EventsOver(c, res, KeysUpTo(SortedKeys(res.Keys), limit)), LagStep)
  }

  /** The sort key `(stats[p[1]]["wins"], stats[p[1]]["spread"])`. */
  function LagKey(m: map<Name, Tally>): Player -> Key
  {
    (p: Player) => if p.name in m then (m[p.name].wins, m[p.name].spread) else (0, 0)
  }

  /** What `compute_lagged_standings` returns, or the exception it raises. */
  function LaggedStandings(players: seq<Player>, res: Results, c: Rounds, limit: int): Result<seq<Player>>
  {
    match LaggedTallies(players, res, c, limit)
    case Err(e) => Err(e)
    case Ok(m) => Ok(SortDesc(players, LagKey(m)))
  }

  // ---------------------------------------------------------------------------
  // The loops
  // ---------------------------------------------------------------------------

  /** `compute_lagged_standings(players, results_by_round, completed_rounds, round_limit)` */
  method ComputeLaggedStandings(players: seq<Player>, res: Results, c: Rounds, limit: int) returns (r: Result<seq<Player>>)
    ensures r == LaggedStandings(players, res, c, limit)
  {
    var stats := ResetTallies(players);
    var out := ReplayUpTo(c, res, limit, stats);
    if out.Err? {
      return Err(out.error);
    }
    var sortedPlayers := SortDesc(players, LagKey(out.value));
    r := Ok(sortedPlayers);
  }

  /** `for p in players: stats[p[1]] = {"wins": 0, "spread": 0}` */
  method ResetTallies(players: seq<Player>) returns (stats: map<Name, Tally>)
    ensures stats == InitTallies(Names(players))
  {
    ghost var names := Names(players);
    stats := map[];
    for i := 0 to |players|
      invariant stats == InitTallies(names[..i])
    {
      var p := names[..i + 1];
      assert p[..i] == names[..i] && p[i] == players[i].name;
      assert InitTallies(p) == InitTallies(names[..i])[players[i].name := Tally(0, 0)];
      stats := stats[players[i].name := Tally(0, 0)];
    }
    assert names[..|players|] == names;
  }

  /** `for r in sorted(results_by_round.keys()): if r > round_limit: break ...` */
  method ReplayUpTo(c: Rounds, res: Results, limit: int, init: map<Name, Tally>) returns (out: Result<map<Name, Tally>>)
    ensures out == Fold(Ok(init), EventsOver(c, res, KeysUpTo(SortedKeys(res.Keys), limit)), LagStep)
  {
    var stats := init;
    var ks := SortedKeys(res.Keys);
    var k := 0;
    while k < |ks|
      invariant 0 <= k <= |ks| && forall m :: 0 <= m < k ==> ks[m] <= limit
      invariant Ok(stats) == Fold(Ok(init), EventsOver(c, res, ks[..k]), LagStep)
    {
      if ks[k] > limit {
        break;
      }
      out := ReplayKey(c, res, ks, k, stats, init);
      if out.Err? {
        PrefixFold(c, res, ks, k, limit, init, out);
        return;
      }
      stats := out.value;
      k := k + 1;
    }
    PrefixIsKeysUpTo(ks, limit, k);
    out := Ok(stats);
  }

  /** The body of the loop over the sorted keys, for the key at position k. */
  method ReplayKey(c: Rounds, res: Results, ks: seq<int>, k: nat, stats: map<Name, Tally>, ghost init: map<Name, Tally>)
    returns (out: Result<map<Name, Tally>>)
    requires k < |ks| && Ok(stats) == Fold(Ok(init), EventsOver(c, res, ks[..k]), LagStep)
    ensures out == Fold(Ok(init), EventsOver(c, res, ks[..k + 1]), LagStep)
  {
    EventsOverStep(c, res, ks, k);
    out := LagRound(c, res, ks[k], stats, init, EventsOver(c, res, ks[..k]));
  }

  /** An exception in round ks[k], a round within the limit, is the outcome of the lagged replay. */
  lemma PrefixFold(c: Rounds, res: Results, ks: seq<int>, k: nat, limit: int, init: map<Name, Tally>, out: Result<map<Name, Tally>>)
    requires ks == SortedKeys(res.Keys) && k < |ks|
    requires forall m :: 0 <= m <= k ==> ks[m] <= limit
    requires Fold(Ok(init), EventsOver(c, res, ks[..k + 1]), LagStep) == out && out.Err?
    ensures out == Fold(Ok(init), EventsOver(c, res, KeysUpTo(ks, limit)), LagStep)
  {
    var j := CutPoint(ks, limit);
    assert k < j;
    PrefixOfPrefix(ks, j, k + 1);
    LagErrorIsFinal(out);
    FoldRoundsAbsorb(c, res, ks[..j], k, Ok(init), LagStep, out);
  }

  /** Where `break` leaves the ascending keys: the keys before it are those within the limit. */
  lemma CutPoint(ks: seq<int>, limit: int) returns (j: nat)
    requires Increasing(ks)
    ensures j <= |ks| && ks[..j] == KeysUpTo(ks, limit)
    ensures forall m :: 0 <= m < j ==> ks[m] <= limit
    ensures j < |ks| ==> ks[j] > limit
  {
    j := 0;
    while j < |ks| && ks[j] <= limit
      invariant 0 <= j <= |ks| && forall m :: 0 <= m < j ==> ks[m] <= limit
    {
      j := j + 1;
    }
    PrefixIsKeysUpTo(ks, limit, j);
  }

  lemma LagErrorIsFinal(out: Result<map<Name, Tally>>)
    requires out.Err?
    ensures forall e :: LagStep(out, e) == out
  {
  }

  /** The inner loop of `compute_lagged_standings` over round `roundNum`. */
  method LagRound(c: Rounds, res: Results, roundNum: int, stats0: map<Name, Tally>,
                  ghost init: map<Name, Tally>, ghost done: seq<Event>)
    returns (out: Result<map<Name, Tally>>)
    requires Ok(stats0) == Fold(Ok(init), done, LagStep)
    ensures out == Fold(Ok(init), done + RoundEvents(c, res, roundNum), LagStep)
  {
    var stats := stats0;
    var pairings := PairingsOf(c, roundNum);
    var roundResults := ResultsOf(res, roundNum);
    ghost var re := RoundEvents(c, res, roundNum);
    assert done + re[..0] == done;
    for i := 0 to |pairings|
      invariant Ok(stats) == Fold(Ok(init), done + re[..if i < |re| then i else |re|], LagStep)
    {
      if i < |roundResults| && roundResults[i].Some? {
        FoldRoundStep(Ok(init), done, re, i, LagStep);
        var e := Event(roundNum, i, pairings[i], roundResults[i]);
        assert e == re[i];
        out := LagPosition(stats, e);
        if out.Err? {
          LagErrorIsFinal(out);
          FoldRoundAbsorbs(Ok(init), done, re, i + 1, LagStep, out);
          return;
        }
        stats := out.value;
      } else {
        LagSkip(init, done, re, i, stats, roundResults);
      }
    }
    assert re[..|re|] == re;
    out := Ok(stats);
  }

  /** The body of the inner loop for one recorded result. */
  method LagPosition(stats0: map<Name, Tally>, e: Event) returns (out: Result<map<Name, Tally>>)
    requires e.result.Some?
    ensures out == LagStep(Ok(stats0), e)
  {
    var stats := stats0;
    var (score1, score2) := e.result.value;
    var p1, p2 := e.pairing.p1, e.pairing.p2;
    if score1 > score2 {
      if p1 !in stats { return Err(KeyError(p1)); }
      stats := stats[p1 := Tally(stats[p1].wins + 2, stats[p1].spread + (score1 - score2))];
      if p2 !in stats { return Err(KeyError(p2)); }
      stats := stats[p2 := Tally(stats[p2].wins, stats[p2].spread - (score1 - score2))];
    } else if score2 > score1 {
      if p2 !in stats { return Err(KeyError(p2)); }
      stats := stats[p2 := Tally(stats[p2].wins + 2, stats[p2].spread + (score2 - score1))];
      if p1 !in stats { return Err(KeyError(p1)); }
      stats := stats[p1 := Tally(stats[p1].wins, stats[p1].spread - (score2 - score1))];
    } else {
      if p1 !in stats { return Err(KeyError(p1)); }
      stats := stats[p1 := Tally(stats[p1].wins + 1, stats[p1].spread)];
      if p2 !in stats { return Err(KeyError(p2)); }
      stats := stats[p2 := Tally(stats[p2].wins + 1, stats[p2].spread)];
    }
    out := Ok(stats);
  }

  /** A position without a recorded result leaves the tallies as they are. */
  lemma LagSkip(init: map<Name, Tally>, done: seq<Event>, re: seq<Event>, i: nat,
                stats: map<Name, Tally>, roundResults: seq<Option<Score>>)
    requires |re| <= |roundResults| || |re| <= i
    requires !(i < |roundResults| && roundResults[i].Some?)
    requires i < |re| ==> re[i].result == roundResults[i]
    requires Ok(stats) == Fold(Ok(init), done + re[..if i < |re| then i else |re|], LagStep)
    ensures Ok(stats) == Fold(Ok(init), done + re[..if i + 1 < |re| then i + 1 else |re|], LagStep)
  {
    if i < |re| {
      FoldRoundStep(Ok(init), done, re, i, LagStep);
    }
  }

  /**
   * `lagged_australian_pairings` from round 3 on: the greedy draw over the
   * standings through the previous round.
   */
  function LaggedDraw(players: seq<Player>, currentRound: int, res: Results, c: Rounds, coin: nat -> bool): Result<seq<Pairing>>
  {
    match LaggedStandings(players, res, c, currentRound - 1)
    case Err(e) => Err(e)
    case Ok(standings) => Ok(GreedyDraw(Names(standings), c, coin))
  }

  /**
   * `lagged_australian_pairings`: random pairings before round 3, otherwise
   * the greedy draw over the standings that ignore the current round.
   */
  method LaggedAustralianPairings(players: seq<Player>, currentRound: int, res: Results, c: Rounds,
                                  shuffled: seq<Name>, randomCoin: nat -> bool, drawCoin: nat -> bool)
    returns (r: Result<seq<Pairing>>)
    requires multiset(shuffled) == multiset(Names(players))
    ensures currentRound < 3 ==> r == Ok(RandomDraw(Pad(shuffled, BYE), randomCoin))
    ensures currentRound >= 3 ==> r == LaggedDraw(players, currentRound, res, c, drawCoin)
  {
    if currentRound < 3 {
      var ps := RandomPairings(players, shuffled, randomCoin);
      return Ok(ps);
    }
    var standings := ComputeLaggedStandings(players, res, c, currentRound - 1);
    if standings.Err? {
      return Err(standings.error);
    }
    var ps := Greedy(Names(standings.value), c, drawCoin);
    r := Ok(ps);
  }

  // ---------------------------------------------------------------------------
  // What the lagged standings guarantee
  // ---------------------------------------------------------------------------

  /** A position without a recorded result changes no tally. */
  lemma LagSkipsOpenBoards(m: map<Name, Tally>, e: Event)
    requires e.result.None?
    ensures LagStep(Ok(m), e) == Ok(m)
  {
  }

  /** Results of rounds above the limit cannot change the lagged standings. */
  lemma LaggedIgnoresLaterRounds(players: seq<Player>, res: Results, res2: Results, c: Rounds, limit: int)
    requires Restrict(res, limit) == Restrict(res2, limit)
    ensures LaggedStandings(players, res, c, limit) == LaggedStandings(players, res2, c, limit)
  {
    EventsUpToIsRestricted(c, res, limit);
    EventsUpToIsRestricted(c, res2, limit);
  }

  /**
   * A decisive game credits the winner with two half-points and the margin
   * and debits the loser the margin; the spreads still sum to what they did.
   */
  lemma LagDecisive(m: map<Name, Tally>, e: Event, winner: Name, loser: Name, margin: int)
    requires e.result.Some? && e.result.value.0 != e.result.value.1
    requires e.pairing.p1 in m && e.pairing.p2 in m && e.pairing.p1 != e.pairing.p2
    requires winner == (if e.result.value.0 > e.result.value.1 then e.pairing.p1 else e.pairing.p2)
    requires loser == (if e.result.value.0 > e.result.value.1 then e.pairing.p2 else e.pairing.p1)
    requires margin == (if e.result.value.0 > e.result.value.1 then e.result.value.0 - e.result.value.1 else e.result.value.1 - e.result.value.0)
    ensures LagStep(Ok(m), e).Ok?
    ensures LagStep(Ok(m), e).value ==
      m[winner := Tally(m[winner].wins + 2, m[winner].spread + margin)][loser := Tally(m[loser].wins, m[loser].spread - margin)]
    ensures margin > 0
    ensures LagStep(Ok(m), e).value[winner].spread + LagStep(Ok(m), e).value[loser].spread == m[winner].spread + m[loser].spread
  {
  }

  /** A tie gives each side one half-point and leaves both spreads alone. */
  lemma LagTie(m: map<Name, Tally>, e: Event)
    requires e.result.Some? && e.result.value.0 == e.result.value.1
    requires e.pairing.p1 in m && e.pairing.p2 in m && e.pairing.p1 != e.pairing.p2
    ensures LagStep(Ok(m), e) == Ok(m[e.pairing.p1 := Tally(m[e.pairing.p1].wins + 1, m[e.pairing.p1].spread)]
                                     [e.pairing.p2 := Tally(m[e.pairing.p2].wins + 1, m[e.pairing.p2].spread)])
  {
  }

  /** The lagged standings are the players, reordered descending by (lagged wins, lagged spread), ties kept in input order. */
  lemma LaggedStandingsRank(players: seq<Player>, res: Results, c: Rounds, limit: int, k: Key)
    requires LaggedStandings(players, res, c, limit).Ok?
    ensures multiset(LaggedStandings(players, res, c, limit).value) == multiset(players)
    ensures Descending(LaggedStandings(players, res, c, limit).value, LagKey(LaggedTallies(players, res, c, limit).value))
    ensures WithKey(LaggedStandings(players, res, c, limit).value, LagKey(LaggedTallies(players, res, c, limit).value), k) ==
      WithKey(players, LagKey(LaggedTallies(players, res, c, limit).value), k)
  {
    var key := LagKey(LaggedTallies(players, res, c, limit).value);
    SortDescFacts(players, key);
    SortDescStable(players, key, k);
  }

  /**
   * The lagged replay raises `KeyError` exactly when some recorded result
   * within the limit names a side that is not a player (a BYE included).
   */
  lemma {:induction false} LagFoldOkIff(init: map<Name, Tally>, es: seq<Event>)
    ensures Fold(Ok(init), es, LagStep).Ok? <==>
      forall i :: 0 <= i < |es| && es[i].result.Some? ==> es[i].pairing.p1 in init && es[i].pairing.p2 in init
    ensures Fold(Ok(init), es, LagStep).Ok? ==> forall n :: n in Fold(Ok(init), es, LagStep).value <==> n in init
    decreases |es|
  {
    if es != [] {
      var front := es[..|es| - 1];
      LagFoldOkIff(init, front);
      assert forall i :: 0 <= i < |front| ==> front[i] == es[i];
    }
  }
}
