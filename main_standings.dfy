/**
 * main.py `recalc_player_stats`: the application's own rebuild of every
 * player's wins, losses, spread, last result and scorecard. Unlike the
 * utils.py replay it has no guard for an empty result slot or a BYE
 * pairing, scores a tie as half a win and no loss, writes result texts of
 * the form `Win (400-350) vs (B)` and records no opponent in a scorecard
 * line. Wins and losses are in half-points.
 */
module MainStandings {
  import opened Types
  import opened Text
  import opened Replay
  import Utils

  /** A `stats[name]` record. */
  datatype MStat = MStat(wins: int, losses: int, spread: int, scorecard: seq<Entry>)

  const MFresh: MStat := MStat(0, 0, 0, [])

  /** `f"Win ({own}-{opp}) vs ({oppName})"`, with `Loss` or `Tie` as the scores say. */
  function ResultText(own: int, opp: int, oppName: Name): string
  {
    var word := if own == opp then "Tie" else if own > opp then "Win" else "Loss";
    word + " (" + IntToString(own) + "-" + IntToString(opp) + ") vs (" + oppName + ")"
  }

  /** `stats[x][...] += ...`: a missing name raises `KeyError`. */
  function Bump(m: map<Name, MStat>, x: Name, dw: int, dl: int, ds: int): (r: Result<map<Name, MStat>>)
    ensures r.Ok? <==> x in m
    ensures r.Err? ==> r == Err(KeyError(x))
    ensures r.Ok? ==> r.value.Keys == m.Keys
  {
    if x !in m then Err(KeyError(x))
    else Ok(m[x := m[x].(wins := m[x].wins + dw, losses := m[x].losses + dl, spread := m[x].spread + ds)])
  }

  /** The second lookup of a board, after the first succeeded. */
  function Then(first: Result<map<Name, MStat>>, x: Name, dw: int, dl: int, ds: int): (r: Result<map<Name, MStat>>)
    ensures r.Ok? <==> first.Ok? && x in first.value
    ensures r.Err? ==> r == first || r == Err(KeyError(x))
    ensures r.Ok? ==> r.value.Keys == first.value.Keys
  {
    if first.Err? then first else Bump(first.value, x, dw, dl, ds)
  }

  /** The two scorecard appends, each line carrying its side's spread after the game. */
  function Card(m: map<Name, MStat>, round: int, p1: Name, p2: Name, s1: int, s2: int): (r: map<Name, MStat>)
    requires p1 in m && p2 in m
    ensures r.Keys == m.Keys
    ensures forall n :: n in m && n != p1 && n != p2 ==> r[n] == m[n]
  {
    var cum1, cum2 := m[p1].spread, m[p2].spread;
    var m1 := m[p1 := m[p1].(scorecard := m[p1].scorecard + [Line(round, s1, s2, p2, cum1)])];
    m1[p2 := m1[p2].(scorecard := m1[p2].scorecard + [Line(round, s2, s1, p1, cum2)])]
  }

  /**
   * One scored board: a tie is half a win each (p1 looked up first); a
   * decisive game is a win and the difference for the winner, a loss and
   * minus the difference for the loser, the side with the higher score
   * looked up first when p2 won and p1 first otherwise.
   */
  function Board(m: map<Name, MStat>, round: int, p1: Name, p2: Name, s1: int, s2: int): (r: Result<map<Name, MStat>>)
    ensures r.Ok? <==> p1 in m && p2 in m
    ensures r.Err? ==> r.error.KeyError?
    ensures r.Ok? ==> r.value.Keys == m.Keys
  {
    var m2 :=
      if s1 == s2 then Then(Bump(m, p1, 1, 0, 0), p2, 1, 0, 0)
      else if s1 > s2 then Then(Bump(m, p1, 2, 0, s1 - s2), p2, 0, 2, -(s1 - s2))
      else Then(Bump(m, p2, 2, 0, s2 - s1), p1, 0, 2, -(s2 - s1));
    if m2.Err? then m2
    else
      assert p1 in m2.value && p2 in m2.value;
      Ok(Card(m2.value, round, p1, p2, s1, s2))
  }

  /**
   * One position of the replay, as written: an empty result slot cannot be
   * unpacked into two scores and raises `TypeError`; a BYE side is looked up
   * like any name.
   */
  function MainStep(acc: Result<map<Name, MStat>>, e: Event): Result<map<Name, MStat>>
  {
    if acc.Err? then acc
    else if e.result.None? then Err(TypeError)
    else Board(acc.value, e.round, e.pairing.p1, e.pairing.p2, e.result.value.0, e.result.value.1)
  }

  /** `stats = {p[1]: {...} for p in players}` */
  function InitMain(names: seq<Name>): (m: map<Name, MStat>)
    ensures forall n :: n in m <==> n in names
    ensures forall n :: n in m ==> m[n] == MFresh
    decreases |names|
  {
    if names == [] then map[]
    else
      var front := names[..|names| - 1];
      assert names == front + [names[|names| - 1]];
      InitMain(front)[names[|names| - 1] := MFresh]
  }

  /** The records after the replay, or the exception raised. */
  function MainStandingsOf(players: seq<Player>, c: Rounds, res: Results): Result<map<Name, MStat>>
  {
    Fold(Ok(InitMain(Names(players))), Events(c, res), MainStep)
  }

  /** `stats[name]["scorecard"][-1]["result"] if stats[name]["scorecard"] else ""` */
  function LastResult(sc: seq<Entry>): string
  {
    if sc == [] then "" else sc[|sc| - 1].result
  }

  /** The row written back for a player. */
  function MRebuild(p: Player, m: map<Name, MStat>): Player
  {
    var st := if p.name in m then m[p.name] else MFresh;
    p.(wins := st.wins, losses := st.losses, spread := st.spread, lastResult := LastResult(st.scorecard), scorecard := st.scorecard)
  }

  /** The rows `recalc_player_stats` writes, or the exception it raises. */
  function MainRecalculated(players: seq<Player>, c: Rounds, res: Results): Result<seq<Player>>
  {
    match MainStandingsOf(players, c, res)
    case Err(e) => Err(e)
    case Ok(m) => Ok(seq(|players|, i requires 0 <= i < |players| => MRebuild(players[i], m)))
  }

  // ---------------------------------------------------------------------------
  // The loops of recalc_player_stats
  // ---------------------------------------------------------------------------

  /** `recalc_player_stats()` over the tournament's players and the two round dictionaries. */
  method MainRecalcPlayerStats(players: seq<Player>, c: Rounds, res: Results) returns (r: Result<seq<Player>>)
    ensures r == MainRecalculated(players, c, res)
  {
    var stats := MResetStats(players);
    var out := MReplayRounds(c, res, stats);
    if out.Err? {
      return Err(out.error);
    }
    var updated := MRebuildAll(players, out.value);
    r := Ok(updated);
  }

  method MResetStats(players: seq<Player>) returns (stats: map<Name, MStat>)
    ensures stats == InitMain(Names(players))
  {
    ghost var names := Names(players);
    stats := map[];
    for i := 0 to |players|
      invariant stats == InitMain(names[..i])
    {
      var p := names[..i + 1];
      assert p[..i] == names[..i] && p[i] == players[i].name;
      stats := stats[players[i].name := MFresh];
    }
    assert names[..|players|] == names;
  }

  method MRebuildAll(players: seq<Player>, stats: map<Name, MStat>) returns (updated: seq<Player>)
    ensures updated == seq(|players|, i requires 0 <= i < |players| => MRebuild(players[i], stats))
  {
    updated := [];
    for i := 0 to |players|
      invariant |updated| == i && forall j :: 0 <= j < i ==> updated[j] == MRebuild(players[j], stats)
    {
      var name := players[i].name;
      var st := if name in stats then stats[name] else MFresh;
      var lastResult := if st.scorecard != [] then st.scorecard[|st.scorecard| - 1].result else "";
      updated := updated + [players[i].(wins := st.wins, losses := st.losses, spread := st.spread,
                                        lastResult := lastResult, scorecard := st.scorecard)];
    }
  }

  lemma MainErrorIsFinal(out: Result<map<Name, MStat>>)
    requires out.Err?
    ensures forall e :: MainStep(out, e) == out
  {
  }

  /** `for r in sorted(results_by_round.keys())`, stopped by the first exception. */
  method MReplayRounds(c: Rounds, res: Results, init: map<Name, MStat>) returns (out: Result<map<Name, MStat>>)
    ensures out == Fold(Ok(init), Events(c, res), MainStep)
  {
    var stats := init;
    var ks := SortedKeys(res.Keys);
    for k := 0 to |ks|
      invariant Ok(stats) == Fold(Ok(init), EventsOver(c, res, ks[..k]), MainStep)
    {
      EventsOverStep(c, res, ks, k);
      out := MReplayRound(c, res, ks[k], stats, init, EventsOver(c, res, ks[..k]));
      if out.Err? {
        MainErrorIsFinal(out);
        FoldRoundsAbsorb(c, res, ks, k, Ok(init), MainStep, out);
        return;
      }
      stats := out.value;
    }
    assert ks[..|ks|] == ks;
    out := Ok(stats);
  }

  /** The inner loop over the pairings of round `r`. */
  method MReplayRound(c: Rounds, res: Results, r: int, stats0: map<Name, MStat>,
                      ghost init: map<Name, MStat>, ghost done: seq<Event>)
    returns (out: Result<map<Name, MStat>>)
    requires Ok(stats0) == Fold(Ok(init), done, MainStep)
    ensures out == Fold(Ok(init), done + RoundEvents(c, res, r), MainStep)
  {
    var stats := stats0;
    var pairings := PairingsOf(c, r);
    var roundResults := ResultsOf(res, r);
    ghost var re := RoundEvents(c, res, r);
    assert done + re[..0] == done;
    assert |re| <= |pairings| && |re| <= |roundResults|;
    for i := 0 to |pairings|
      invariant i <= |re| ==> Ok(stats) == Fold(Ok(init), done + re[..i], MainStep)
      invariant i > |re| ==> Ok(stats) == Fold(Ok(init), done + re, MainStep)
    {
      if i < |roundResults| {
        assert i < |re|;
        out := MReplaySlot(r, i, pairings[i], roundResults[i], stats, init, done, re);
        if out.Err? {
          return;
        }
        stats := out.value;
      } else if i == |re| {
        assert re[..i] == re;
      }
    }
    assert re[..|re|] == re;
    out := Ok(stats);
  }

  /** One position of round `r`; an exception ends the replay of the round, and of every later one. */
  method MReplaySlot(r: int, i: nat, pairing: Pairing, result: Option<Score>, stats: map<Name, MStat>,
                     ghost init: map<Name, MStat>, ghost done: seq<Event>, ghost re: seq<Event>)
    returns (out: Result<map<Name, MStat>>)
    requires i < |re| && re[i] == Event(r, i, pairing, result)
    requires Ok(stats) == Fold(Ok(init), done + re[..i], MainStep)
    ensures out.Ok? ==> out == Fold(Ok(init), done + re[..i + 1], MainStep)
    ensures out.Err? ==> out == Fold(Ok(init), done + re, MainStep)
  {
    FoldRoundStep(Ok(init), done, re, i, MainStep);
    out := MReplayPosition(stats, Event(r, i, pairing, result));
    if out.Err? {
      MainErrorIsFinal(out);
      FoldRoundAbsorbs(Ok(init), done, re, i + 1, MainStep, out);
    }
  }

  /** The body of the inner loop: unpack the two scores (an empty slot raises `TypeError`), then score the board. */
  method MReplayPosition(stats: map<Name, MStat>, e: Event) returns (out: Result<map<Name, MStat>>)
    ensures out == MainStep(Ok(stats), e)
  {
    if e.result.None? {
      return Err(TypeError);
    }
    var (score1, score2) := e.result.value;
    out := ScoreBoard(stats, e.round, e.pairing.p1, e.pairing.p2, score1, score2);
  }

  /** The scoring of one board, statement by statement. */
  method ScoreBoard(stats0: map<Name, MStat>, r: int, p1: Name, p2: Name, score1: int, score2: int)
    returns (out: Result<map<Name, MStat>>)
    ensures out == Board(stats0, r, p1, p2, score1, score2)
  {
    var stats := stats0;
    if score1 == score2 {
      if p1 !in stats { return Err(KeyError(p1)); }
      stats := stats[p1 := stats[p1].(wins := stats[p1].wins + 1)];
      if p2 !in stats { return Err(KeyError(p2)); }
      stats := stats[p2 := stats[p2].(wins := stats[p2].wins + 1)];
    } else if score1 > score2 {
      if p1 !in stats { return Err(KeyError(p1)); }
      var diff := score1 - score2;
      stats := stats[p1 := stats[p1].(wins := stats[p1].wins + 2, spread := stats[p1].spread + diff)];
      if p2 !in stats { return Err(KeyError(p2)); }
      stats := stats[p2 := stats[p2].(losses := stats[p2].losses + 2, spread := stats[p2].spread - diff)];
    } else {
      if p2 !in stats { return Err(KeyError(p2)); }
      var diff := score2 - score1;
      stats := stats[p2 := stats[p2].(wins := stats[p2].wins + 2, spread := stats[p2].spread + diff)];
      if p1 !in stats { return Err(KeyError(p1)); }
      stats := stats[p1 := stats[p1].(losses := stats[p1].losses + 2, spread := stats[p1].spread - diff)];
    }
    var resultP1 := ResultText(score1, score2, p2);
    var resultP2 := ResultText(score2, score1, p1);
    var cum1 := stats[p1].spread;
    var cum2 := stats[p2].spread;
    stats := stats[p1 := stats[p1].(scorecard := stats[p1].scorecard + [Entry(r, None, resultP1, cum1)])];
    stats := stats[p2 := stats[p2].(scorecard := stats[p2].scorecard + [Entry(r, None, resultP2, cum2)])];
    out := Ok(stats);
  }

  // ---------------------------------------------------------------------------
  // What the replay does
  // ---------------------------------------------------------------------------

  /**
   * The result text opens with `Win `, `Loss ` or `Tie ` as the side's own
   * score is above, below or equal to the opponent's, and ends with the
   * opponent's name in parentheses.
   */
  lemma ResultTextWords(own: int, opp: int, oppName: Name)
    ensures var t := ResultText(own, opp, oppName);
      (own > opp ==> |t| > 4 && t[..4] == "Win ") &&
      (own < opp ==> |t| > 5 && t[..5] == "Loss ") &&
      (own == opp ==> |t| > 4 && t[..4] == "Tie ")
  {
    var word := if own == opp then "Tie" else if own > opp then "Win" else "Loss";
    var t := ResultText(own, opp, oppName);
    assert t[..|word| + 1] == word + " " by {
      assert forall k :: 0 <= k < |word| ==> t[k] == word[k];
      assert t[|word|] == ' ';
    }
  }

  /** The score line a side gets: its own score first. */
  function Line(round: int, own: int, opp: int, oppName: Name, cumulative: int): Entry
  {
    Entry(round, None, ResultText(own, opp, oppName), cumulative)
  }

  /**
   * A decisive game between two distinct known players: the winner gains a
   * win (two half-points) and the difference, the loser a loss and minus the
   * difference; each gets one scorecard line with no opponent, its own score
   * first, and its new spread; nobody else changes. `ResultTextWords` says
   * the winner's line reads `Win (...)` and the loser's `Loss (...)`.
   */
  lemma MainDecisiveGame(m: map<Name, MStat>, round: int, p1: Name, p2: Name, s1: int, s2: int)
    requires s1 != s2 && p1 != p2 && p1 in m && p2 in m
    ensures Board(m, round, p1, p2, s1, s2).Ok?
    ensures Board(m, round, p1, p2, s1, s2).value.Keys == m.Keys
    ensures forall n :: n in m && n != p1 && n != p2 ==> Board(m, round, p1, p2, s1, s2).value[n] == m[n]
    ensures DecisiveRecords(m, Board(m, round, p1, p2, s1, s2).value, round,
                            if s1 > s2 then p1 else p2, if s1 > s2 then p2 else p1,
                            if s1 > s2 then s1 else s2, if s1 > s2 then s2 else s1)
  {
  }

  /** Winner w (score sw) and loser l (score sl) after the game, from their records before it. */
  predicate DecisiveRecords(m: map<Name, MStat>, m': map<Name, MStat>, round: int, w: Name, l: Name, sw: int, sl: int)
    requires w in m && l in m && w in m' && l in m'
  {
    m'[w] == MStat(m[w].wins + 2, m[w].losses, m[w].spread + (sw - sl),
                   m[w].scorecard + [Line(round, sw, sl, l, m[w].spread + (sw - sl))]) &&
    m'[l] == MStat(m[l].wins, m[l].losses + 2, m[l].spread - (sw - sl),
                   m[l].scorecard + [Line(round, sl, sw, w, m[l].spread - (sw - sl))])
  }

  /** A tie between two distinct known players: half a win each, no loss, spreads unchanged, a `Tie` line each. */
  lemma MainTieGame(m: map<Name, MStat>, round: int, p1: Name, p2: Name, s: int)
    requires p1 != p2 && p1 in m && p2 in m
    ensures Board(m, round, p1, p2, s, s).Ok?
    ensures Board(m, round, p1, p2, s, s).value.Keys == m.Keys
    ensures forall n :: n in m && n != p1 && n != p2 ==> Board(m, round, p1, p2, s, s).value[n] == m[n]
    ensures Board(m, round, p1, p2, s, s).value[p1] ==
      MStat(m[p1].wins + 1, m[p1].losses, m[p1].spread, m[p1].scorecard + [Line(round, s, s, p2, m[p1].spread)])
    ensures Board(m, round, p1, p2, s, s).value[p2] ==
      MStat(m[p2].wins + 1, m[p2].losses, m[p2].spread, m[p2].scorecard + [Line(round, s, s, p1, m[p2].spread)])
  {
  }

  /**
   * The record invariant of this replay: one or two half-points of wins and
   * losses per scorecard line (a tie gives one, other games two); with no
   * line the spread is 0, otherwise the last line's cumulative is the spread.
   */
  predicate MConsistent(st: MStat)
  {
    var sc := st.scorecard;
    |sc| <= st.wins + st.losses <= 2 * |sc| && 0 <= st.wins && 0 <= st.losses &&
    (sc == [] ==> st.spread == 0) &&
    (sc != [] ==> sc[|sc| - 1].cumulative == st.spread)
  }

  lemma BoardConsistent(m: map<Name, MStat>, round: int, p1: Name, p2: Name, s1: int, s2: int)
    requires forall n :: n in m ==> MConsistent(m[n])
    ensures Board(m, round, p1, p2, s1, s2).Ok? ==>
      Board(m, round, p1, p2, s1, s2).value.Keys == m.Keys &&
      AllConsistent(Board(m, round, p1, p2, s1, s2).value)
  {
    if p1 in m && p2 in m {
      if p1 == p2 {
        SelfConsistent(m, round, p1, s1, s2);
      } else if s1 == s2 {
        TieConsistent(m, round, p1, p2, s1);
      } else if s1 > s2 {
        DecisiveConsistent(m, round, p1, p2, s1, s2);
      } else {
        DecisiveConsistent(m, round, p1, p2, s1, s2);
      }
    }
  }

  /** Every record of a table is consistent. */
  predicate AllConsistent(m: map<Name, MStat>)
  {
    forall n :: n in m ==> MConsistent(m[n])
  }

  lemma SelfConsistent(m: map<Name, MStat>, round: int, p: Name, s1: int, s2: int)
    requires p in m && AllConsistent(m)
    ensures Board(m, round, p, p, s1, s2).Ok? && AllConsistent(Board(m, round, p, p, s1, s2).value)
  {
    var m' := Board(m, round, p, p, s1, s2).value;
    MainSelfGame(m, round, p, s1, s2);
    AddedConsistent(m[p], 2, if s1 == s2 then 0 else 2, 0,
                    [Line(round, s1, s2, p, m[p].spread), Line(round, s2, s1, p, m[p].spread)]);
    forall n | n in m' ensures MConsistent(m'[n]) {
      if n != p {
        assert m'[n] == m[n];
      }
    }
  }

  lemma TieConsistent(m: map<Name, MStat>, round: int, p1: Name, p2: Name, s: int)
    requires p1 != p2 && p1 in m && p2 in m && AllConsistent(m)
    ensures Board(m, round, p1, p2, s, s).Ok? && AllConsistent(Board(m, round, p1, p2, s, s).value)
  {
    var m' := Board(m, round, p1, p2, s, s).value;
    MainTieGame(m, round, p1, p2, s);
    AddedConsistent(m[p1], 1, 0, 0, [Line(round, s, s, p2, m[p1].spread)]);
    AddedConsistent(m[p2], 1, 0, 0, [Line(round, s, s, p1, m[p2].spread)]);
    forall n | n in m' ensures MConsistent(m'[n]) {
      if n != p1 && n != p2 {
        assert m'[n] == m[n];
      }
    }
  }

  lemma DecisiveConsistent(m: map<Name, MStat>, round: int, p1: Name, p2: Name, s1: int, s2: int)
    requires s1 != s2 && p1 != p2 && p1 in m && p2 in m && AllConsistent(m)
    ensures Board(m, round, p1, p2, s1, s2).Ok? && AllConsistent(Board(m, round, p1, p2, s1, s2).value)
  {
    var m' := Board(m, round, p1, p2, s1, s2).value;
    MainDecisiveGame(m, round, p1, p2, s1, s2);
    var w, l := if s1 > s2 then p1 else p2, if s1 > s2 then p2 else p1;
    var sw, sl := if s1 > s2 then s1 else s2, if s1 > s2 then s2 else s1;
    assert DecisiveRecords(m, m', round, w, l, sw, sl);
    AddedConsistent(m[w], 2, 0, sw - sl, [Line(round, sw, sl, l, m[w].spread + (sw - sl))]);
    AddedConsistent(m[l], 0, 2, -(sw - sl), [Line(round, sl, sw, w, m[l].spread - (sw - sl))]);
    forall n | n in m' ensures MConsistent(m'[n]) {
      if n != p1 && n != p2 {
        assert m'[n] == m[n];
      }
    }
  }

  /** A player paired against themself: both lines land on the one record, and the spread nets to zero. */
  lemma MainSelfGame(m: map<Name, MStat>, round: int, p: Name, s1: int, s2: int)
    requires p in m
    ensures Board(m, round, p, p, s1, s2).Ok?
    ensures Board(m, round, p, p, s1, s2).value[p] ==
      MStat(m[p].wins + 2, m[p].losses + (if s1 == s2 then 0 else 2), m[p].spread + 0,
            m[p].scorecard + [Line(round, s1, s2, p, m[p].spread), Line(round, s2, s1, p, m[p].spread)])
  {
    assert m[p].scorecard + [Line(round, s1, s2, p, m[p].spread)] + [Line(round, s2, s1, p, m[p].spread)] ==
      m[p].scorecard + [Line(round, s1, s2, p, m[p].spread), Line(round, s2, s1, p, m[p].spread)];
  }

  /** Adding one game's half-points and its lines (one or two, the last with the new spread) keeps a record consistent. */
  lemma AddedConsistent(st: MStat, dw: int, dl: int, ds: int, lines: seq<Entry>)
    requires MConsistent(st) && 0 <= dw && 0 <= dl
    requires 1 <= |lines| <= 2 && |lines| <= dw + dl <= 2 * |lines|
    requires lines[|lines| - 1].cumulative == st.spread + ds
    ensures MConsistent(MStat(st.wins + dw, st.losses + dl, st.spread + ds, st.scorecard + lines))
  {
    var sc := st.scorecard + lines;
    assert sc[|sc| - 1] == lines[|lines| - 1];
  }

  /** Every record stays consistent, and the names never change, along the replay. */
  lemma {:induction false} MainFoldConsistent(init: map<Name, MStat>, es: seq<Event>)
    requires AllConsistent(init)
    ensures Fold(Ok(init), es, MainStep).Ok? ==>
      Fold(Ok(init), es, MainStep).value.Keys == init.Keys && AllConsistent(Fold(Ok(init), es, MainStep).value)
    decreases |es|
  {
    if es != [] {
      var front := es[..|es| - 1];
      var e := es[|es| - 1];
      MainFoldConsistent(init, front);
      var acc := Fold(Ok(init), front, MainStep);
      assert Fold(Ok(init), es, MainStep) == MainStep(acc, e);
      if acc.Ok? && e.result.Some? {
        BoardConsistent(acc.value, e.round, e.pairing.p1, e.pairing.p2, e.result.value.0, e.result.value.1);
      }
    }
  }

  /** The row written for a player: identity fields kept, the record consistent, the last result the last line's. */
  predicate MRebuiltFrom(out: Player, p: Player)
  {
    out.id == p.id && out.name == p.name && out.rating == p.rating &&
    out.team == p.team && out.number == p.number && out.country == p.country &&
    MConsistent(MStat(out.wins, out.losses, out.spread, out.scorecard)) &&
    out.lastResult == LastResult(out.scorecard)
  }

  /** One row per player, in order, each rebuilt from a consistent record. */
  lemma MainRecalculatedFacts(players: seq<Player>, c: Rounds, res: Results)
    ensures MainRecalculated(players, c, res).Ok? ==>
      |MainRecalculated(players, c, res).value| == |players| &&
      forall i :: 0 <= i < |players| ==> MRebuiltFrom(MainRecalculated(players, c, res).value[i], players[i])
  {
    var init := InitMain(Names(players));
    MainFoldConsistent(init, Events(c, res));
    if MainStandingsOf(players, c, res).Ok? {
      var m := MainStandingsOf(players, c, res).value;
      forall i | 0 <= i < |players| ensures MRebuiltFrom(MRebuild(players[i], m), players[i]) {
        assert players[i].name in Names(players);
      }
    }
  }

  /** A board the as-written replay can score: a result in the slot and both sides known. */
  predicate Scorable(e: Event, names: set<Name>)
  {
    e.result.Some? && e.pairing.p1 in names && e.pairing.p2 in names
  }

  /** Every position of a replay can be scored. */
  predicate AllScorable(es: seq<Event>, names: set<Name>)
  {
    forall i :: 0 <= i < |es| ==> Scorable(es[i], names)
  }

  /**
   * The as-written replay succeeds exactly when every replayed position has a
   * result and names two players; an empty slot raises `TypeError`.
   */
  lemma {:induction false} MainFoldOkIff(init: map<Name, MStat>, es: seq<Event>)
    ensures Fold(Ok(init), es, MainStep).Ok? <==> AllScorable(es, init.Keys)
    ensures Fold(Ok(init), es, MainStep).Ok? ==> Fold(Ok(init), es, MainStep).value.Keys == init.Keys
    decreases |es|
  {
    if es != [] {
      var front, e := es[..|es| - 1], es[|es| - 1];
      MainFoldOkIff(init, front);
      var acc := Fold(Ok(init), front, MainStep);
      assert Fold(Ok(init), es, MainStep) == MainStep(acc, e);
      MainStepOkIff(acc, e, init.Keys);
      AllScorableSnoc(front, e, init.Keys);
      assert es == front + [e];
    }
  }

  /** One step of the as-written replay: it goes on exactly when the position can be scored. */
  lemma MainStepOkIff(acc: Result<map<Name, MStat>>, e: Event, names: set<Name>)
    requires acc.Ok? ==> acc.value.Keys == names
    ensures MainStep(acc, e).Ok? <==> acc.Ok? && Scorable(e, names)
    ensures MainStep(acc, e).Ok? ==> MainStep(acc, e).value.Keys == names
  {
  }

  lemma AllScorableSnoc(es: seq<Event>, e: Event, names: set<Name>)
    ensures AllScorable(es + [e], names) <==> AllScorable(es, names) && Scorable(e, names)
  {
    assert (es + [e])[|es|] == e;
    assert forall i :: 0 <= i < |es| ==> (es + [e])[i] == es[i];
  }

  /**
   * Finding, as written: in a round with a board still awaiting its result
   * (every round `pair_round` creates starts as `[None] * len(pairing)`, and a
   * BYE board never receives one), the recalculation raises `TypeError`.
   */
  lemma OpenBoardRaises(players: seq<Player>, c: Rounds, res: Results, e: Event)
    requires e in Events(c, res) && e.result.None?
    ensures MainRecalculated(players, c, res).Err?
  {
    var es := Events(c, res);
    MainFoldOkIff(InitMain(Names(players)), es);
    var i :| 0 <= i < |es| && es[i] == e;
    assert !Scorable(es[i], InitMain(Names(players)).Keys);
    assert !AllScorable(es, InitMain(Names(players)).Keys);
  }

  /** Four players, the first board of round 1 scored 400-350 and the second still open. */
  function ExamplePlayers(): seq<Player>
  {
    [Player(1, "A", 0, 0, 0, 0, "", [], "", 0, ""), Player(2, "B", 0, 0, 0, 0, "", [], "", 0, ""),
     Player(3, "C", 0, 0, 0, 0, "", [], "", 0, ""), Player(4, "D", 0, 0, 0, 0, "", [], "", 0, "")]
  }

  function ExampleRounds(): Rounds
  {
    map[1 := [Pairing("A", "B", "A"), Pairing("C", "D", "C")]]
  }

  function ExampleResults(): Results
  {
    map[1 := [Some((400, 350)), None]]
  }

  /** The example's replay: board 1 scored, board 2 open. */
  lemma ExampleEvents()
    ensures Events(ExampleRounds(), ExampleResults()) ==
      [Event(1, 0, Pairing("A", "B", "A"), Some((400, 350))), Event(1, 1, Pairing("C", "D", "C"), None)]
  {
    var c, res := ExampleRounds(), ExampleResults();
    assert SortedKeys(res.Keys) == [1] by {
      assert res.Keys == {1};
      IncreasingUnique(SortedKeys(res.Keys), [1]);
    }
    assert EventsOver(c, res, [1]) == RoundEvents(c, res, 1) by {
      assert [1][..0] == [];
    }
  }

  /** The as-written replay rejects the example: a `TypeError`, and no standings at all. */
  lemma ExampleRaisesTypeError()
    ensures MainRecalculated(ExamplePlayers(), ExampleRounds(), ExampleResults()) == Err(TypeError)
  {
    ExampleEvents();
    ExampleInit();
    ExampleMainFold(InitMain(Names(ExamplePlayers())), Events(ExampleRounds(), ExampleResults()));
  }

  lemma ExampleMainFold(init: map<Name, MStat>, re: seq<Event>)
    requires forall n :: n in init <==> n in ["A", "B", "C", "D"]
    requires forall n :: n in init ==> init[n] == MFresh
    requires re == [Event(1, 0, Pairing("A", "B", "A"), Some((400, 350))), Event(1, 1, Pairing("C", "D", "C"), None)]
    ensures Fold(Ok(init), re, MainStep) == Err(TypeError)
  {
    ExampleBoard(init);
    var after := Board(init, 1, "A", "B", 400, 350);
    assert MainStep(Ok(init), re[0]) == after;
    assert MainStep(after, re[1]) == Err(TypeError);
    FoldTwo(Ok(init), re[0], re[1], MainStep);
  }

  // ---------------------------------------------------------------------------
  // The replay as intended: empty slots and BYE boards skipped
  // ---------------------------------------------------------------------------

  /** The corrected step: a position without a result or with a BYE side contributes nothing. */
  function GuardedStep(acc: Result<map<Name, MStat>>, e: Event): Result<map<Name, MStat>>
  {
    if e.result.None? || e.pairing.p1 == BYE || e.pairing.p2 == BYE then acc else MainStep(acc, e)
  }

  /** The corrected standings. */
  function GuardedStandings(players: seq<Player>, c: Rounds, res: Results): Result<map<Name, MStat>>
  {
    Fold(Ok(InitMain(Names(players))), Events(c, res), GuardedStep)
  }

  /**
   * The corrected replay succeeds exactly when every scored, non-BYE board
   * names two players: open boards and BYE boards never raise.
   */
  lemma {:induction false} GuardedFoldOkIff(init: map<Name, MStat>, es: seq<Event>)
    ensures Fold(Ok(init), es, GuardedStep).Ok? <==>
      forall i :: 0 <= i < |es| && Utils.Counted(es[i]) ==> es[i].pairing.p1 in init && es[i].pairing.p2 in init
    ensures Fold(Ok(init), es, GuardedStep).Ok? ==> Fold(Ok(init), es, GuardedStep).value.Keys == init.Keys
    decreases |es|
  {
    if es != [] {
      var front := es[..|es| - 1];
      GuardedFoldOkIff(init, front);
      assert forall i :: 0 <= i < |front| ==> front[i] == es[i];
    }
  }

  /** Where every position is scored and BYE-free, the corrected replay is the as-written one. */
  lemma {:induction false} GuardedAgrees(init: map<Name, MStat>, es: seq<Event>)
    requires forall i :: 0 <= i < |es| ==> Utils.Counted(es[i])
    ensures Fold(Ok(init), es, GuardedStep) == Fold(Ok(init), es, MainStep)
    decreases |es|
  {
    if es != [] {
      var front := es[..|es| - 1];
      assert forall i :: 0 <= i < |front| ==> front[i] == es[i];
      GuardedAgrees(init, front);
    }
  }

  /** The corrected replay keeps every record consistent. */
  lemma {:induction false} GuardedConsistent(init: map<Name, MStat>, es: seq<Event>)
    requires forall n :: n in init ==> MConsistent(init[n])
    ensures Fold(Ok(init), es, GuardedStep).Ok? ==>
      forall n :: n in Fold(Ok(init), es, GuardedStep).value ==> MConsistent(Fold(Ok(init), es, GuardedStep).value[n])
    decreases |es|
  {
    if es != [] {
      var front := es[..|es| - 1];
      var e := es[|es| - 1];
      GuardedConsistent(init, front);
      var acc := Fold(Ok(init), front, GuardedStep);
      if acc.Ok? && e.result.Some? {
        BoardConsistent(acc.value, e.round, e.pairing.p1, e.pairing.p2, e.result.value.0, e.result.value.1);
      }
    }
  }

  /** The standings the example should give: A won 400-350, C and D are still at zero. */
  predicate ExampleScored(m: map<Name, MStat>)
  {
    "A" in m && "B" in m && "C" in m && "D" in m &&
    m["A"].wins == 2 && m["A"].spread == 50 && m["B"].losses == 2 && m["B"].spread == -50 &&
    m["C"] == MFresh && m["D"] == MFresh
  }

  /** The corrected replay scores the example as intended. */
  lemma ExampleGuarded()
    ensures GuardedStandings(ExamplePlayers(), ExampleRounds(), ExampleResults()).Ok?
    ensures ExampleScored(GuardedStandings(ExamplePlayers(), ExampleRounds(), ExampleResults()).value)
  {
    ExampleEvents();
    ExampleInit();
    ExampleFold(InitMain(Names(ExamplePlayers())), Events(ExampleRounds(), ExampleResults()));
  }

  lemma ExampleFold(init: map<Name, MStat>, re: seq<Event>)
    requires forall n :: n in init <==> n in ["A", "B", "C", "D"]
    requires forall n :: n in init ==> init[n] == MFresh
    requires re == [Event(1, 0, Pairing("A", "B", "A"), Some((400, 350))), Event(1, 1, Pairing("C", "D", "C"), None)]
    ensures Fold(Ok(init), re, GuardedStep).Ok? && ExampleScored(Fold(Ok(init), re, GuardedStep).value)
  {
    ExampleBoard(init);
    var e0, e1 := re[0], re[1];
    assert e0.pairing.p1 != BYE && e0.pairing.p2 != BYE && e0.result.Some?;
    var after := Board(init, 1, "A", "B", 400, 350);
    assert GuardedStep(Ok(init), e0) == after;
    assert GuardedStep(after, e1) == after;
    FoldTwo(Ok(init), e0, e1, GuardedStep);
  }

  lemma FoldTwo<S>(init: S, e0: Event, e1: Event, f: (S, Event) -> S)
    ensures Fold(init, [e0, e1], f) == f(f(init, e0), e1)
  {
    assert [e0, e1][..1] == [e0];
    assert [e0][..0] == [];
    assert Fold(init, [e0], f) == f(init, e0);
  }

  lemma ExampleInit()
    ensures forall n :: n in InitMain(Names(ExamplePlayers())) <==> n in ["A", "B", "C", "D"]
    ensures forall n :: n in InitMain(Names(ExamplePlayers())) ==> InitMain(Names(ExamplePlayers()))[n] == MFresh
  {
    assert Names(ExamplePlayers()) == ["A", "B", "C", "D"];
  }

  lemma ExampleBoard(init: map<Name, MStat>)
    requires forall n :: n in init <==> n in ["A", "B", "C", "D"]
    requires forall n :: n in init ==> init[n] == MFresh
    ensures Board(init, 1, "A", "B", 400, 350).Ok? && ExampleScored(Board(init, 1, "A", "B", 400, 350).value)
  {
    assert "A" in ["A", "B", "C", "D"] && "B" in ["A", "B", "C", "D"];
    assert "C" in ["A", "B", "C", "D"] && "D" in ["A", "B", "C", "D"];
    MainDecisiveGame(init, 1, "A", "B", 400, 350);
  }
}
