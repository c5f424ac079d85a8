/**
 * pairings.py `generate_pairings_system`: the string dispatcher over the
 * five pairing systems. Round Robin yields the whole schedule, the others a
 * single round.
 */
module PairingSystems {
  import opened Types
  import opened Replay
  import opened CircleMethod
  import opened FirstMovers
  import opened Pairings
  import opened Draws
  import opened Lagged

  /** A full round-robin schedule, or the pairings of one round. */
  datatype Drawn = FullSchedule(rounds: seq<seq<Pairing>>) | OneRound(pairings: seq<Pairing>)

  /** The systems the dispatcher knows. */
  predicate KnownSystem(system: string)
  {
    system == "Round Robin" || system == "Random Pairing" || system == "King of the Hills Pairing" ||
    system == "Australian Draw" || system == "Lagged Australian"
  }

  const InvalidSystem: Error := ValueError("Invalid pairing system specified.")

  /**
   * What `generate_pairings_system` returns or raises; a missing
   * `completed_rounds` or `results_by_round` stands for an empty dictionary.
   */
  function SystemDraw(players: seq<Player>, system: string, completed: Option<Rounds>, currentRound: int,
                      results: Option<Results>, shuffled: seq<Name>, coin: nat -> bool,
                      firsts: (nat, nat) -> bool, drawCoin: nat -> bool): Result<Drawn>
  {
    var c := if completed.Some? then completed.value else map[];
    var res := if results.Some? then results.value else map[];
    if system == "Round Robin" then Ok(FullSchedule(Assigned(Schedule(Pad(Names(players), BYE)), firsts)))
    else if system == "Random Pairing" then Ok(OneRound(RandomDraw(Pad(shuffled, BYE), coin)))
    else if system == "King of the Hills Pairing" then Ok(OneRound(KingOfTheHillsPairings(players)))
    else if system == "Australian Draw" then Ok(OneRound(GreedyDraw(Names(Ranking.Ranked(players)), c, drawCoin)))
    else if system == "Lagged Australian" then
      if currentRound < 3 then Ok(OneRound(RandomDraw(Pad(shuffled, BYE), coin)))
      else
        match LaggedDraw(players, currentRound, res, c, drawCoin)
        case Err(e) => Err(e)
        case Ok(ps) => Ok(OneRound(ps))
    else Err(InvalidSystem)
  }

  /** `generate_pairings_system(players, system, completed_rounds, current_round_number, results_by_round)` */
  method GeneratePairingsSystem(players: seq<Player>, system: string, completed: Option<Rounds>, currentRound: int,
                                results: Option<Results>, shuffled: seq<Name>, coin: nat -> bool,
                                firsts: (nat, nat) -> bool, drawCoin: nat -> bool)
    returns (r: Result<Drawn>)
    requires multiset(shuffled) == multiset(Names(players))
    ensures r == SystemDraw(players, system, completed, currentRound, results, shuffled, coin, firsts, drawCoin)
  {
    var c := if completed.Some? then completed.value else map[];
    var res := if results.Some? then results.value else map[];
    if system == "Round Robin" {
      var names := Names(players);
      var rounds := RoundRobinRounds(names, BYE);
      var schedule := AssignFirsts(rounds, firsts);
      r := Ok(FullSchedule(schedule));
    } else if system == "Random Pairing" {
      var ps := RandomPairings(players, shuffled, coin);
      r := Ok(OneRound(ps));
    } else if system == "King of the Hills Pairing" {
      r := Ok(OneRound(KingOfTheHillsPairings(players)));
    } else if system == "Australian Draw" {
      var ps := AustralianDrawPairings(players, c, drawCoin);
      r := Ok(OneRound(ps));
    } else if system == "Lagged Australian" {
      var ps := LaggedAustralianPairings(players, currentRound, res, c, shuffled, coin, drawCoin);
      r := if ps.Err? then Err(ps.error) else Ok(OneRound(ps.value));
    } else {
      r := Err(InvalidSystem);
    }
  }

  lemma {:induction false} LagFoldErrors(init: map<Name, Tally>, es: seq<Event>)
    ensures Fold(Ok(init), es, LagStep).Err? ==> Fold(Ok(init), es, LagStep).error.KeyError?
    decreases |es|
  {
    if es != [] {
      LagFoldErrors(init, es[..|es| - 1]);
    }
  }

  /** The lagged draw can only fail with the standings' `KeyError`. */
  lemma LaggedDrawErrors(players: seq<Player>, currentRound: int, res: Results, c: Rounds, coin: nat -> bool)
    ensures LaggedDraw(players, currentRound, res, c, coin).Err? ==> LaggedDraw(players, currentRound, res, c, coin).error.KeyError?
  {
    LagFoldErrors(InitTallies(Names(players)), EventsOver(c, res, KeysUpTo(SortedKeys(res.Keys), currentRound - 1)));
    assert LaggedTallies(players, res, c, currentRound - 1) ==
      Fold(Ok(InitTallies(Names(players))), EventsOver(c, res, KeysUpTo(SortedKeys(res.Keys), currentRound - 1)), LagStep);
  }

  /**
   * The dispatcher raises `ValueError` exactly for an unknown system name;
   * the only other exception is a lagged standings `KeyError`.
   */
  lemma SystemDrawErrors(players: seq<Player>, system: string, completed: Option<Rounds>, currentRound: int,
                         results: Option<Results>, shuffled: seq<Name>, coin: nat -> bool,
                         firsts: (nat, nat) -> bool, drawCoin: nat -> bool)
    ensures SystemDraw(players, system, completed, currentRound, results, shuffled, coin, firsts, drawCoin) == Err(InvalidSystem)
      <==> !KnownSystem(system)
    ensures SystemDraw(players, system, completed, currentRound, results, shuffled, coin, firsts, drawCoin).Err? && KnownSystem(system) ==>
      system == "Lagged Australian" && currentRound >= 3 &&
      SystemDraw(players, system, completed, currentRound, results, shuffled, coin, firsts, drawCoin).error.KeyError?
  {
    var r := SystemDraw(players, system, completed, currentRound, results, shuffled, coin, firsts, drawCoin);
    if system == "Round Robin" || system == "Random Pairing" || system == "King of the Hills Pairing" || system == "Australian Draw" {
      assert r.Ok?;
    } else if system == "Lagged Australian" {
      var c := if completed.Some? then completed.value else map[];
      var res := if results.Some? then results.value else map[];
      if currentRound >= 3 {
        LaggedDrawErrors(players, currentRound, res, c, drawCoin);
        assert r.Err? ==> r == Err(LaggedDraw(players, currentRound, res, c, drawCoin).error);
      }
    } else {
      assert r == Err(InvalidSystem);
    }
  }
}
