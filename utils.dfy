/**
 * utils.py: `recalculate_player_stats` rebuilds every player's wins, losses,
 * spread, last result and scorecard from the recorded rounds;
 * `sanitize_filename` and `generate_match_id` are the two string helpers.
 */
module Utils {
  import opened Types
  import opened Text
  import opened Replay

  // ---------------------------------------------------------------------------
  // recalculate_player_stats
  // ---------------------------------------------------------------------------

  /** A `player_stats` record; wins and losses in half-points. */
  datatype Stat = Stat(wins: int, losses: int, spread: int, lastResult: string, scorecard: seq<Entry>)

  const Fresh: Stat := Stat(0, 0, 0, "", [])

  /** `f"{letter} {own}-{opp}"` */
  function ScoreText(letter: char, own: int, opp: int): string
  {
    [letter, ' '] + IntToString(own) + "-" + IntToString(opp)
  }

  /**
   * One side's credit for a game with scores `own` against `opp`: a win is two
   * half-points and `own - opp` of spread, a loss two half-points of loss and
   * the opposite spread, a tie one half-point of each; a scorecard line records
   * the round, the opponent, the result and the new spread.
   */
  function Credit(st: Stat, own: int, opp: int, oppName: Name, round: int): Stat
  {
    if own > opp then
      var text := ScoreText('W', own, opp);
      var spread := st.spread + (own - opp);
      Stat(st.wins + 2, st.losses, spread, text, st.scorecard + [Entry(round, Some(oppName), text, spread)])
    else if own < opp then
      var text := ScoreText('L', own, opp);
      var spread := st.spread - (opp - own);
      Stat(st.wins, st.losses + 2, spread, text, st.scorecard + [Entry(round, Some(oppName), text, spread)])
    else
      var text := ScoreText('T', own, opp);
      Stat(st.wins + 1, st.losses + 1, st.spread, text, st.scorecard + [Entry(round, Some(oppName), text, st.spread)])
  }

  /**
   * One position of the replay: an empty result slot and a BYE pairing are
   * skipped, an unknown name raises `KeyError` (p1 is looked up first),
   * otherwise both sides are credited, p1 first.
   */
  function Step(acc: Result<map<Name, Stat>>, e: Event): Result<map<Name, Stat>>
  {
    if acc.Err? || e.result.None? || e.pairing.p1 == BYE || e.pairing.p2 == BYE then acc
    else
      var m := acc.value;
      var (s1, s2) := e.result.value;
      var p1, p2 := e.pairing.p1, e.pairing.p2;
      if p1 !in m then Err(KeyError(p1))
      else
        var m1 := m[p1 := Credit(m[p1], s1, s2, p2, e.round)];
        if p2 !in m1 then Err(KeyError(p2))
        else Ok(m1[p2 := Credit(m1[p2], s2, s1, p1, e.round)])
  }

  /** The reset: every name mapped to a fresh record. */
  function InitStats(names: seq<Name>): (m: map<Name, Stat>)
    ensures forall n :: n in m <==> n in names
    ensures forall n :: n in m ==> m[n] == Fresh
    decreases |names|
  {
    if names == [] then map[]
    else
      var front := names[..|names| - 1];
      assert names == front + [names[|names| - 1]];
      InitStats(front)[names[|names| - 1] := Fresh]
  }

  /** The records after replaying every recorded position, or the exception raised. */
  function Standings(players: seq<Player>, c: Rounds, res: Results): Result<map<Name, Stat>>
  {
    Fold(Ok(InitStats(Names(players))), Events(c, res), Step)
  }

  /** The player tuple rebuilt from its record; id, name, rating, team, number and country are kept. */
  function Rebuild(p: Player, m: map<Name, Stat>): Player
  {
    var st := if p.name in m then m[p.name] else Fresh;
    p.(wins := st.wins, losses := st.losses, spread := st.spread, lastResult := st.lastResult, scorecard := st.scorecard)
  }

  /** What `recalculate_player_stats` returns, or the exception it raises. */
  function Recalculated(players: seq<Player>, c: Rounds, res: Results): Result<seq<Player>>
  {
    match Standings(players, c, res)
    case Err(e) => Err(e)
    case Ok(m) => Ok(seq(|players|, i requires 0 <= i < |players| => Rebuild(players[i], m)))
  }

  /** `recalculate_player_stats(players, completed_rounds, results_by_round)` */
  method RecalculatePlayerStats(players: seq<Player>, c: Rounds, res: Results) returns (r: Result<seq<Player>>)
    ensures r == Recalculated(players, c, res)
  {
    var stats := ResetStats(players);
    var out := ReplayRounds(c, res, stats);
    if out.Err? {
      return Err(out.error);
    }
    var updated := RebuildAll(players, out.value);
    r := Ok(updated);
  }

  /** The loop over `sorted(results_by_round.keys())`, stopped by the first exception. */
  method ReplayRounds(c: Rounds, res: Results, init: map<Name, Stat>) returns (out: Result<map<Name, Stat>>)
    ensures out == Fold(Ok(init), Events(c, res), Step)
  {
    var stats := init;
    var ks := SortedKeys(res.Keys);
    for k := 0 to |ks|
      invariant Ok(stats) == Fold(Ok(init), EventsOver(c, res, ks[..k]), Step)
    {
      EventsOverStep(c, res, ks, k);
      out := ReplayRound(c, res, ks[k], stats, init, EventsOver(c, res, ks[..k]));
      if out.Err? {
        ErrorIsFinal(out);
        FoldRoundsAbsorb(c, res, ks, k, Ok(init), Step, out);
        return;
      }
      stats := out.value;
    }
    assert ks[..|ks|] == ks;
    out := Ok(stats);
  }

  /** The last loop of `recalculate_player_stats`: one rebuilt tuple per input player, in order. */
  method RebuildAll(players: seq<Player>, stats: map<Name, Stat>) returns (updated: seq<Player>)
    ensures updated == seq(|players|, i requires 0 <= i < |players| => Rebuild(players[i], stats))
  {
    updated := [];
    for i := 0 to |players|
      invariant |updated| == i && forall j :: 0 <= j < i ==> updated[j] == Rebuild(players[j], stats)
    {
      updated := updated + [Rebuild(players[i], stats)];
    }
  }

  /** The first loop of `recalculate_player_stats`: a fresh record per player name. */
  method ResetStats(players: seq<Player>) returns (stats: map<Name, Stat>)
    ensures stats == InitStats(Names(players))
  {
    ghost var names := Names(players);
    stats := map[];
    for i := 0 to |players|
      invariant stats == InitStats(names[..i])
    {
      var p := names[..i + 1];
      assert p[..i] == names[..i] && p[i] == players[i].name;
      assert InitStats(p) == InitStats(names[..i])[players[i].name := Fresh];
      stats := stats[players[i].name := Fresh];
    }
    assert names[..|players|] == names;
  }

  lemma ErrorIsFinal(out: Result<map<Name, Stat>>)
    requires out.Err?
    ensures forall e :: Step(out, e) == out
  {
  }

  /**
   * The inner loop of `recalculate_player_stats` over round `roundNum`: from the
   * records before the round to the records after it, or the exception raised.
   */
  method ReplayRound(c: Rounds, res: Results, roundNum: int, stats0: map<Name, Stat>,
                     ghost init: map<Name, Stat>, ghost done: seq<Event>)
    returns (out: Result<map<Name, Stat>>)
    requires Ok(stats0) == Fold(Ok(init), done, Step)
    ensures out == Fold(Ok(init), done + RoundEvents(c, res, roundNum), Step)
  {
    var stats := stats0;
    var roundPairings := PairingsOf(c, roundNum);
    var roundResults := ResultsOf(res, roundNum);
    ghost var re := RoundEvents(c, res, roundNum);
    assert done + re[..0] == done;
    for i := 0 to |roundPairings|
      invariant Ok(stats) == Fold(Ok(init), done + re[..if i < |re| then i else |re|], Step)
    {
      if i >= |roundResults| || roundResults[i].None? {
        FoldRoundStepWhenPresent(init, done, re, i, stats, roundResults);
        continue;
      }
      out := ReplaySlot(roundNum, i, roundPairings[i], roundResults[i].value, stats, init, done, re);
      if out.Err? {
        return;
      }
      stats := out.value;
    }
    assert re[..|re|] == re;
    out := Ok(stats);
  }

  /** One scored position of a round: a BYE pairing is skipped, otherwise p1 then p2 is looked up and credited. */
  method ReplaySlot(roundNum: int, i: nat, pairing: Pairing, score: Score, stats0: map<Name, Stat>,
                    ghost init: map<Name, Stat>, ghost done: seq<Event>, ghost re: seq<Event>)
    returns (out: Result<map<Name, Stat>>)
    requires i < |re| && re[i] == Event(roundNum, i, pairing, Some(score))
    requires Ok(stats0) == Fold(Ok(init), done + re[..i], Step)
    ensures out.Ok? ==> out == Fold(Ok(init), done + re[..i + 1], Step)
    ensures out.Err? ==> out == Fold(Ok(init), done + re, Step)
  {
    FoldRoundStep(Ok(init), done, re, i, Step);
    var stats := stats0;
    var p1, p2 := pairing.p1, pairing.p2;
    var (score1, score2) := score;
    if p1 == BYE || p2 == BYE {
      return Ok(stats);
    }
    if p1 !in stats {
      out := Err(KeyError(p1));
      ErrorIsFinal(out);
      FoldRoundAbsorbs(Ok(init), done, re, i + 1, Step, out);
      return;
    }
    stats := stats[p1 := Credit(stats[p1], score1, score2, p2, roundNum)];
    if p2 !in stats {
      out := Err(KeyError(p2));
      ErrorIsFinal(out);
      FoldRoundAbsorbs(Ok(init), done, re, i + 1, Step, out);
      return;
    }
    stats := stats[p2 := Credit(stats[p2], score2, score1, p1, roundNum)];
    out := Ok(stats);
  }

  /** A skipped position leaves the replay state as it is. */
  lemma FoldRoundStepWhenPresent(init: map<Name, Stat>, done: seq<Event>, re: seq<Event>, i: nat,
                                 stats: map<Name, Stat>, roundResults: seq<Option<Score>>)
    requires |re| <= |roundResults| || |re| <= i
    requires (i >= |roundResults| || roundResults[i].None?)
    requires i < |re| ==> re[i].result == roundResults[i]
    requires Ok(stats) == Fold(Ok(init), done + re[..if i < |re| then i else |re|], Step)
    ensures Ok(stats) == Fold(Ok(init), done + re[..if i + 1 < |re| then i + 1 else |re|], Step)
  {
    if i < |re| {
      FoldRoundStep(Ok(init), done, re, i, Step);
    }
  }

  // ---------------------------------------------------------------------------
  // What the replay guarantees
  // ---------------------------------------------------------------------------

  /** An empty result slot and a BYE pairing leave every record as it is. */
  lemma SkipsOpenAndByeBoards(m: map<Name, Stat>, e: Event)
    requires e.result.None? || e.pairing.p1 == BYE || e.pairing.p2 == BYE
    ensures Step(Ok(m), e) == Ok(m)
  {
  }

  /**
   * Winner w (score sw) and loser l (score sl) after the game, from their
   * records before it: the counters, the `last_result` text and one new
   * scorecard line each, carrying the opponent and the spread after the game,
   * behind the unchanged earlier lines.
   */
  predicate DecisiveRecords(m: map<Name, Stat>, m': map<Name, Stat>, round: int, w: Name, l: Name, sw: int, sl: int)
    requires w in m && l in m && w in m' && l in m'
  {
    m'[w] == Stat(m[w].wins + 2, m[w].losses, m[w].spread + (sw - sl), ScoreText('W', sw, sl),
                  m[w].scorecard + [Entry(round, Some(l), ScoreText('W', sw, sl), m[w].spread + (sw - sl))]) &&
    m'[l] == Stat(m[l].wins, m[l].losses + 2, m[l].spread - (sw - sl), ScoreText('L', sl, sw),
                  m[l].scorecard + [Entry(round, Some(w), ScoreText('L', sl, sw), m[l].spread - (sw - sl))])
  }

  /**
   * A decisive game between two known players: the winner gains one win (two
   * half-points) and the score difference in spread, the loser one loss and
   * minus that difference; the spreads of the two sides still sum to what
   * they did, each side gets its `W`/`L` result and one scorecard line with
   * the new spread after its earlier lines, and nobody else's record changes.
   */
  lemma DecisiveGame(m: map<Name, Stat>, e: Event)
    requires e.result.Some? && e.result.value.0 != e.result.value.1
    requires e.pairing.p1 != BYE && e.pairing.p2 != BYE && e.pairing.p1 != e.pairing.p2
    requires e.pairing.p1 in m && e.pairing.p2 in m
    ensures Step(Ok(m), e).Ok?
    ensures forall n :: n in Step(Ok(m), e).value <==> n in m
    ensures forall n :: n in m && n != e.pairing.p1 && n != e.pairing.p2 ==> Step(Ok(m), e).value[n] == m[n]
    ensures
      var s1, s2 := e.result.value.0, e.result.value.1;
      var w := if s1 > s2 then e.pairing.p1 else e.pairing.p2;
      var l := if s1 > s2 then e.pairing.p2 else e.pairing.p1;
      var d := if s1 > s2 then s1 - s2 else s2 - s1;
      var m' := Step(Ok(m), e).value;
      m'[w].wins == m[w].wins + 2 && m'[w].losses == m[w].losses && m'[w].spread == m[w].spread + d &&
      m'[l].wins == m[l].wins && m'[l].losses == m[l].losses + 2 && m'[l].spread == m[l].spread - d &&
      m'[w].spread + m'[l].spread == m[w].spread + m[l].spread
    ensures
      var s1, s2 := e.result.value.0, e.result.value.1;
      var w := if s1 > s2 then e.pairing.p1 else e.pairing.p2;
      var l := if s1 > s2 then e.pairing.p2 else e.pairing.p1;
      DecisiveRecords(m, Step(Ok(m), e).value, e.round, w, l, if s1 > s2 then s1 else s2, if s1 > s2 then s2 else s1)
  {
    var s1, s2 := e.result.value.0, e.result.value.1;
    var p1, p2 := e.pairing.p1, e.pairing.p2;
    var m1 := m[p1 := Credit(m[p1], s1, s2, p2, e.round)];
    var m' := m1[p2 := Credit(m[p2], s2, s1, p1, e.round)];
    assert Step(Ok(m), e) == Ok(m');
    assert m'[p1] == Credit(m[p1], s1, s2, p2, e.round) && m'[p2] == Credit(m[p2], s2, s1, p1, e.round);
    if s1 > s2 {
      assert DecisiveRecords(m, m', e.round, p1, p2, s1, s2);
    } else {
      assert DecisiveRecords(m, m', e.round, p2, p1, s2, s1);
    }
  }

  /**
   * A tie between two known players: half a win and half a loss each, spreads
   * unchanged, and each side gets the `T` result and one scorecard line with
   * its unchanged spread after its earlier lines.
   */
  lemma TieGame(m: map<Name, Stat>, e: Event)
    requires e.result.Some? && e.result.value.0 == e.result.value.1
    requires e.pairing.p1 != BYE && e.pairing.p2 != BYE && e.pairing.p1 != e.pairing.p2
    requires e.pairing.p1 in m && e.pairing.p2 in m
    ensures Step(Ok(m), e).Ok?
    ensures forall n :: n in Step(Ok(m), e).value <==> n in m
    ensures forall n :: n in m && n != e.pairing.p1 && n != e.pairing.p2 ==> Step(Ok(m), e).value[n] == m[n]
    ensures forall p :: p == e.pairing.p1 || p == e.pairing.p2 ==>
      Step(Ok(m), e).value[p].wins == m[p].wins + 1 && Step(Ok(m), e).value[p].losses == m[p].losses + 1 &&
      Step(Ok(m), e).value[p].spread == m[p].spread
    ensures var p1, p2, sc := e.pairing.p1, e.pairing.p2, e.result.value.0;
      Step(Ok(m), e).value[p1] == Stat(m[p1].wins + 1, m[p1].losses + 1, m[p1].spread, ScoreText('T', sc, sc),
                                       m[p1].scorecard + [Entry(e.round, Some(p2), ScoreText('T', sc, sc), m[p1].spread)]) &&
      Step(Ok(m), e).value[p2] == Stat(m[p2].wins + 1, m[p2].losses + 1, m[p2].spread, ScoreText('T', sc, sc),
                                       m[p2].scorecard + [Entry(e.round, Some(p1), ScoreText('T', sc, sc), m[p2].spread)])
  {
  }

  /**
   * The record invariant: wins plus losses is one game (two half-points) per
   * scorecard line; with no line the spread is 0 and the last result is empty,
   * otherwise the last line's cumulative is the spread and its result is the
   * last result; no line is against `"BYE"`.
   */
  predicate Consistent(st: Stat)
  {
    var sc := st.scorecard;
    st.wins + st.losses == 2 * |sc| &&
    (sc == [] ==> st.spread == 0 && st.lastResult == "") &&
    (sc != [] ==> sc[|sc| - 1].cumulative == st.spread && sc[|sc| - 1].result == st.lastResult) &&
    forall i :: 0 <= i < |sc| ==> sc[i].opponent.Some? && sc[i].opponent.value != BYE
  }

  lemma CreditConsistent(st: Stat, own: int, opp: int, oppName: Name, round: int)
    requires Consistent(st) && oppName != BYE
    ensures Consistent(Credit(st, own, opp, oppName, round))
  {
    var r := Credit(st, own, opp, oppName, round);
    assert r.scorecard[..|st.scorecard|] == st.scorecard;
    forall i | 0 <= i < |r.scorecard| ensures r.scorecard[i].opponent.Some? && r.scorecard[i].opponent.value != BYE {
      if i < |st.scorecard| {
        assert r.scorecard[i] == st.scorecard[i];
      }
    }
  }

  /** Every record of a table is consistent. */
  predicate AllConsistent(m: map<Name, Stat>)
  {
    forall n :: n in m ==> Consistent(m[n])
  }

  /** One replay step keeps the names and every record consistent. */
  lemma StepConsistent(acc: Result<map<Name, Stat>>, e: Event)
    requires acc.Ok? ==> AllConsistent(acc.value)
    ensures Step(acc, e).Ok? ==> acc.Ok? && Step(acc, e).value.Keys == acc.value.Keys && AllConsistent(Step(acc, e).value)
  {
    if acc.Err? || e.result.None? || e.pairing.p1 == BYE || e.pairing.p2 == BYE {
      assert Step(acc, e) == acc;
    } else if e.pairing.p1 in acc.value && e.pairing.p2 in acc.value {
      var (s1, s2) := e.result.value;
      CreditBothConsistent(acc.value, e.pairing.p1, e.pairing.p2, s1, s2, e.round);
    } else {
      assert Step(acc, e).Err?;
    }
  }

  /** Crediting both sides of a game between two known names keeps the names and the table consistent. */
  lemma CreditBothConsistent(m: map<Name, Stat>, p1: Name, p2: Name, s1: int, s2: int, round: int)
    requires AllConsistent(m) && p1 in m && p2 in m && p1 != BYE && p2 != BYE
    ensures var m1 := m[p1 := Credit(m[p1], s1, s2, p2, round)];
      var m2 := m1[p2 := Credit(m1[p2], s2, s1, p1, round)];
      m2.Keys == m.Keys && AllConsistent(m2)
  {
    var m1 := m[p1 := Credit(m[p1], s1, s2, p2, round)];
    CreditConsistent(m[p1], s1, s2, p2, round);
    UpdateConsistent(m, p1, Credit(m[p1], s1, s2, p2, round));
    CreditConsistent(m1[p2], s2, s1, p1, round);
    UpdateConsistent(m1, p2, Credit(m1[p2], s2, s1, p1, round));
  }

  /** Replacing one known name's record by a consistent one keeps the names and the table consistent. */
  lemma UpdateConsistent(m: map<Name, Stat>, k: Name, v: Stat)
    requires AllConsistent(m) && k in m && Consistent(v)
    ensures m[k := v].Keys == m.Keys && AllConsistent(m[k := v])
  {
    var m' := m[k := v];
    forall n | n in m' ensures Consistent(m'[n]) {
      if n != k {
        assert m'[n] == m[n];
      }
    }
  }

  /** Every record stays consistent, and the set of names never changes, along the replay. */
  lemma {:induction false} FoldConsistent(init: map<Name, Stat>, es: seq<Event>)
    requires AllConsistent(init)
    ensures Fold(Ok(init), es, Step).Ok? ==>
      Fold(Ok(init), es, Step).value.Keys == init.Keys && AllConsistent(Fold(Ok(init), es, Step).value)
    decreases |es|
  {
    if es != [] {
      var front := es[..|es| - 1];
      var e := es[|es| - 1];
      FoldConsistent(init, front);
      var acc := Fold(Ok(init), front, Step);
      assert Fold(Ok(init), es, Step) == Step(acc, e);
      StepConsistent(acc, e);
    }
  }

  /** A scorecard whose lines are in non-decreasing round order, none after round `bound`. */
  predicate RoundsUpTo(sc: seq<Entry>, bound: int)
  {
    (forall i, j :: 0 <= i < j < |sc| ==> sc[i].round <= sc[j].round) &&
    forall i :: 0 <= i < |sc| ==> sc[i].round <= bound
  }

  lemma CreditOrdered(st: Stat, own: int, opp: int, oppName: Name, round: int, bound: int)
    requires RoundsUpTo(st.scorecard, bound) && bound <= round
    ensures RoundsUpTo(Credit(st, own, opp, oppName, round).scorecard, round)
  {
    var sc := Credit(st, own, opp, oppName, round).scorecard;
    forall i | 0 <= i < |st.scorecard| ensures sc[i] == st.scorecard[i] {
    }
  }

  /** Every scorecard of a table is empty or in round order, none after round `bound`. */
  predicate OrderedUpTo(m: map<Name, Stat>, bound: int)
  {
    forall n :: n in m ==> m[n].scorecard == [] || RoundsUpTo(m[n].scorecard, bound)
  }

  /** One replay step of round `e.round`, after rounds up to `bound <= e.round`, keeps the scorecards in order. */
  lemma StepOrdered(acc: Result<map<Name, Stat>>, e: Event, bound: int)
    requires bound <= e.round
    requires acc.Ok? ==> OrderedUpTo(acc.value, bound)
    ensures Step(acc, e).Ok? ==> OrderedUpTo(Step(acc, e).value, e.round)
  {
    if acc.Ok? {
      var m := acc.value;
      forall n | n in m ensures m[n].scorecard == [] || RoundsUpTo(m[n].scorecard, e.round) {
      }
      if e.result.Some? && e.pairing.p1 != BYE && e.pairing.p2 != BYE && e.pairing.p1 in m {
        var (s1, s2) := e.result.value;
        var p1, p2 := e.pairing.p1, e.pairing.p2;
        CreditOrdered(m[p1], s1, s2, p2, e.round, e.round);
        var m1 := m[p1 := Credit(m[p1], s1, s2, p2, e.round)];
        if p2 in m1 {
          CreditOrdered(m1[p2], s2, s1, p1, e.round, e.round);
          var m2 := m1[p2 := Credit(m1[p2], s2, s1, p1, e.round)];
          assert Step(acc, e) == Ok(m2);
          forall n | n in m2 ensures m2[n].scorecard == [] || RoundsUpTo(m2[n].scorecard, e.round) {
            if n != p1 && n != p2 {
              assert m2[n] == m[n];
            }
          }
        }
      }
    }
  }

  /** Over events in non-decreasing round order, every scorecard is built in non-decreasing round order. */
  lemma {:induction false} FoldOrdered(init: map<Name, Stat>, es: seq<Event>)
    requires forall n :: n in init ==> init[n].scorecard == []
    requires forall i, j :: 0 <= i < j < |es| ==> es[i].round <= es[j].round
    ensures Fold(Ok(init), es, Step).Ok? ==> OrderedUpTo(Fold(Ok(init), es, Step).value, if es == [] then 0 else es[|es| - 1].round)
    decreases |es|
  {
    if es != [] {
      var front := es[..|es| - 1];
      var e := es[|es| - 1];
      FoldOrdered(init, front);
      var acc := Fold(Ok(init), front, Step);
      var bound := if front == [] then e.round else front[|front| - 1].round;
      assert bound <= e.round;
      assert acc.Ok? ==> OrderedUpTo(acc.value, bound);
      assert Fold(Ok(init), es, Step) == Step(acc, e);
      StepOrdered(acc, e, bound);
    }
  }

  lemma FreshInit(players: seq<Player>)
    ensures forall n :: n in InitStats(Names(players)) ==>
      Consistent(InitStats(Names(players))[n]) && InitStats(Names(players))[n].scorecard == []
  {
  }

  /** The rebuilt tuple of a player: its identity fields kept, its record consistent and in round order. */
  predicate RebuiltFrom(out: Player, p: Player)
  {
    out.id == p.id && out.name == p.name && out.rating == p.rating &&
    out.team == p.team && out.number == p.number && out.country == p.country &&
    Consistent(Stat(out.wins, out.losses, out.spread, out.lastResult, out.scorecard)) &&
    forall i, j :: 0 <= i < j < |out.scorecard| ==> out.scorecard[i].round <= out.scorecard[j].round
  }

  /**
   * `recalculate_player_stats` returns one tuple per input player, in input
   * order, each keeping id, name, rating, team, number and country, with wins
   * plus losses equal to one game per scorecard line, the last line's
   * cumulative equal to the spread, the last line's result as last result, and
   * the lines in ascending round order.
   */
  lemma RecalculatedFacts(players: seq<Player>, c: Rounds, res: Results)
    ensures Recalculated(players, c, res).Ok? ==>
      |Recalculated(players, c, res).value| == |players| &&
      forall i :: 0 <= i < |players| ==> RebuiltFrom(Recalculated(players, c, res).value[i], players[i])
  {
    StandingsFacts(players, c, res);
    if Standings(players, c, res).Ok? {
      var m := Standings(players, c, res).value;
      RebuildAllFacts(players, m);
    }
  }

  lemma RebuildAllFacts(players: seq<Player>, m: map<Name, Stat>)
    requires forall n :: n in Names(players) ==> Kept(m, n)
    ensures forall i :: 0 <= i < |players| ==>
      RebuiltFrom(seq(|players|, i requires 0 <= i < |players| => Rebuild(players[i], m))[i], players[i])
  {
    var rebuilt := seq(|players|, i requires 0 <= i < |players| => Rebuild(players[i], m));
    forall i | 0 <= i < |players| ensures RebuiltFrom(rebuilt[i], players[i]) {
      assert Names(players)[i] == players[i].name;
      RebuildFacts(players[i], m);
    }
  }

  /** After the whole replay every player still has a record, consistent and in round order. */
  lemma StandingsFacts(players: seq<Player>, c: Rounds, res: Results)
    ensures Standings(players, c, res).Ok? ==>
      forall n :: n in Names(players) ==> Kept(Standings(players, c, res).value, n)
  {
    var init := InitStats(Names(players));
    var es := Events(c, res);
    FreshInit(players);
    EventsOrdered(c, res);
    FoldRecords(Names(players), init, es);
  }

  /** Name `n` has a record in `m` that is consistent and whose lines are in round order. */
  ghost predicate Kept(m: map<Name, Stat>, n: Name)
  {
    n in m && Consistent(m[n]) && (m[n].scorecard == [] || exists b :: RoundsUpTo(m[n].scorecard, b))
  }

  /** The replay from fresh records of `names`, over events in round order, leaves each name a consistent, ordered record. */
  lemma FoldRecords(names: seq<Name>, init: map<Name, Stat>, es: seq<Event>)
    requires forall n :: n in init <==> n in names
    requires forall n :: n in init ==> Consistent(init[n]) && init[n].scorecard == []
    requires forall i, j :: 0 <= i < j < |es| ==> es[i].round <= es[j].round
    ensures Fold(Ok(init), es, Step).Ok? ==>
      forall n :: n in names ==> Kept(Fold(Ok(init), es, Step).value, n)
  {
    var bound := if es == [] then 0 else es[|es| - 1].round;
    FoldConsistent(init, es);
    FoldOrdered(init, es);
    var r := Fold(Ok(init), es, Step);
    if r.Ok? {
      RecordsFromFold(names, init, r.value, bound);
    }
  }

  lemma RecordsFromFold(names: seq<Name>, init: map<Name, Stat>, m: map<Name, Stat>, bound: int)
    requires forall n :: n in init <==> n in names
    requires m.Keys == init.Keys && AllConsistent(m) && OrderedUpTo(m, bound)
    ensures forall n :: n in names ==> Kept(m, n)
  {
    forall n | n in names ensures Kept(m, n) {
      assert n in init;
      assert m[n].scorecard == [] || RoundsUpTo(m[n].scorecard, bound);
    }
  }

  lemma RebuildFacts(p: Player, m: map<Name, Stat>)
    requires Kept(m, p.name)
    ensures RebuiltFrom(Rebuild(p, m), p)
  {
  }

  /** Recalculating from its own output changes nothing: the stats depend only on the names and the history. */
  lemma RecalculateIdempotent(players: seq<Player>, c: Rounds, res: Results)
    requires Recalculated(players, c, res).Ok?
    ensures Recalculated(Recalculated(players, c, res).value, c, res) == Recalculated(players, c, res)
  {
    var out := Recalculated(players, c, res).value;
    var m := Standings(players, c, res).value;
    assert Names(out) == Names(players);
    assert Standings(out, c, res) == Ok(m);
    var again := seq(|out|, i requires 0 <= i < |out| => Rebuild(out[i], m));
    assert again == out;
  }

  /** A position the replay credits: a recorded result and no BYE side. */
  predicate Counted(e: Event)
  {
    e.result.Some? && e.pairing.p1 != BYE && e.pairing.p2 != BYE
  }

  /**
   * The replay raises `KeyError` exactly when some recorded, non-BYE result
   * names a side that is not a player.
   */
  lemma {:induction false} FoldOkIff(init: map<Name, Stat>, es: seq<Event>)
    ensures Fold(Ok(init), es, Step).Ok? <==>
      forall i :: 0 <= i < |es| && Counted(es[i]) ==> es[i].pairing.p1 in init && es[i].pairing.p2 in init
    ensures Fold(Ok(init), es, Step).Ok? ==> forall n :: n in Fold(Ok(init), es, Step).value <==> n in init
    decreases |es|
  {
    if es != [] {
      var front := es[..|es| - 1];
      var e := es[|es| - 1];
      FoldOkIff(init, front);
      assert forall i :: 0 <= i < |front| ==> front[i] == es[i];
    }
  }

  lemma StandingsOkIff(players: seq<Player>, c: Rounds, res: Results)
    ensures Standings(players, c, res).Ok? <==>
      forall e :: e in Events(c, res) && Counted(e) ==> e.pairing.p1 in Names(players) && e.pairing.p2 in Names(players)
  {
    var es := Events(c, res);
    FoldOkIff(InitStats(Names(players)), es);
    forall e | e in es && Counted(e) && Standings(players, c, res).Ok?
      ensures e.pairing.p1 in Names(players) && e.pairing.p2 in Names(players)
    {
      var i :| 0 <= i < |es| && es[i] == e;
    }
  }

  // ---------------------------------------------------------------------------
  // File names and match identifiers

  /** The characters `sanitize_filename` removes: backslash, slash, star, question mark, colon, double quote, angle brackets and bar. */
  predicate Forbidden(c: char)
  {
    c == '\\' || c == '/' || c == '*' || c == '?' || c == ':' || c == '"' || c == '<' || c == '>' || c == '|'
  }

  /** The regular-expression substitution: every forbidden character dropped, the rest kept in order. */
  function StripForbidden(s: string): (r: string)
    ensures |r| <= |s|
    ensures forall k :: 0 <= k < |r| ==> !Forbidden(r[k])
    ensures (forall k :: 0 <= k < |s| ==> !Forbidden(s[k])) ==> r == s
  {
    if s == [] then [] else (if Forbidden(s[0]) then [] else [s[0]]) + StripForbidden(s[1..])
  }

  /** `.replace(" ", "_")` */
  function Underscores(s: string): (r: string)
    ensures |r| == |s|
    ensures forall k :: 0 <= k < |s| ==> r[k] == (if s[k] == ' ' then '_' else s[k])
  {
    if s == [] then [] else [if s[0] == ' ' then '_' else s[0]] + Underscores(s[1..])
  }

  /** `sanitize_filename` */
  function SanitizeFilename(name: string): string
  {
    Underscores(StripForbidden(name))
  }

  /** A character a sanitized name can hold. */
  predicate SafeChar(c: char)
  {
    !Forbidden(c) && c != ' '
  }

  /**
   * The sanitized name holds no forbidden character and no space, is no
   * longer than the original, and a name that is already safe comes back unchanged.
   */
  lemma SanitizeFilenameSafe(name: string)
    ensures forall k :: 0 <= k < |SanitizeFilename(name)| ==> SafeChar(SanitizeFilename(name)[k])
    ensures |SanitizeFilename(name)| <= |name|
    ensures (forall k :: 0 <= k < |name| ==> SafeChar(name[k])) ==> SanitizeFilename(name) == name
  {
    var r := SanitizeFilename(name);
    var st := StripForbidden(name);
    forall k | 0 <= k < |r| ensures SafeChar(r[k]) {
      assert !Forbidden(st[k]);
    }
  }

  /** Sanitizing twice is sanitizing once. */
  lemma SanitizeFilenameIdempotent(name: string)
    ensures SanitizeFilename(SanitizeFilename(name)) == SanitizeFilename(name)
  {
    SanitizeFilenameSafe(name);
    SanitizeFilenameSafe(SanitizeFilename(name));
  }

  lemma {:induction false} StripForbiddenAppend(a: string, b: string)
    ensures StripForbidden(a + b) == StripForbidden(a) + StripForbidden(b)
  {
    if a == [] {
      assert a + b == b;
    } else {
      assert (a + b)[0] == a[0] && (a + b)[1..] == a[1..] + b;
      StripForbiddenAppend(a[1..], b);
    }
  }

  /** Sanitizing works character by character: the name of a concatenation is the concatenation of the names. */
  lemma SanitizeFilenameAppend(a: string, b: string)
    ensures SanitizeFilename(a + b) == SanitizeFilename(a) + SanitizeFilename(b)
  {
    StripForbiddenAppend(a, b);
    UnderscoresAppend(StripForbidden(a), StripForbidden(b));
  }

  lemma {:induction false} UnderscoresAppend(a: string, b: string)
    ensures Underscores(a + b) == Underscores(a) + Underscores(b)
  {
    if a == [] {
      assert a + b == b;
    } else {
      assert (a + b)[0] == a[0] && (a + b)[1..] == a[1..] + b;
      UnderscoresAppend(a[1..], b);
    }
  }

  /** `f"R{round_number}-M{match_number}"` */
  function GenerateMatchId(roundNumber: int, matchNumber: int): string
  {
    "R" + IntToString(roundNumber) + "-M" + IntToString(matchNumber)
  }

  /** In a match id the first `M` stands right after the rendered round number and its dash. */
  lemma MatchIdFirstM(roundNumber: int, matchNumber: int)
    ensures var id := GenerateMatchId(roundNumber, matchNumber); var p := |IntToString(roundNumber)| + 2;
      p < |id| && id[p] == 'M' && id[p - 1] == '-' && forall k :: 0 <= k < p ==> id[k] != 'M'
  {
  }

  /** Different (round, match) numbers get different ids, and the id shows both numbers. */
  lemma GenerateMatchIdInjective(r1: int, m1: int, r2: int, m2: int)
    requires GenerateMatchId(r1, m1) == GenerateMatchId(r2, m2)
    ensures r1 == r2 && m1 == m2
  {
    var id := GenerateMatchId(r1, m1);
    var a1, a2 := IntToString(r1), IntToString(r2);
    assert |a1| == |a2| by {
      MatchIdFirstM(r1, m1);
      MatchIdFirstM(r2, m2);
    }
    MatchIdParts(r1, m1);
    MatchIdParts(r2, m2);
    IntToStringInjective(r1, r2);
    IntToStringInjective(m1, m2);
  }

  /** A match id is `R`, the round number, `-M` and the match number. */
  lemma MatchIdParts(roundNumber: int, matchNumber: int)
    ensures var id, a := GenerateMatchId(roundNumber, matchNumber), IntToString(roundNumber);
      |a| + 3 <= |id| && id[1..|a| + 1] == a && id[|a| + 3..] == IntToString(matchNumber)
  {
    var id, a := GenerateMatchId(roundNumber, matchNumber), IntToString(roundNumber);
    assert id == "R" + a + "-M" + IntToString(matchNumber);
    assert id[1..|a| + 1] == a;
    assert id[|a| + 3..] == IntToString(matchNumber);
  }
}
