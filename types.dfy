/**
 * Shared data of the pairing and standings engine of the tournament manager:
 * player rows, pairing tuples, the round-keyed history dictionaries and the
 * exceptions the Python code can raise.
 */
module Types {

  /** Players are identified by their name string. */
  type Name = string

  /** The sentinel opponent used to pad an odd roster. */
  const BYE: Name := "BYE"

  datatype Option<T> = None | Some(value: T)

  /** A pairing tuple `(p1, p2, first)`: the two sides and the side that moves first. */
  datatype Pairing = Pairing(p1: Name, p2: Name, first: Name)

  /** One scorecard line; the `opponent` key is present in utils.py's scorecards only. */
  datatype Entry = Entry(round: int, opponent: Option<Name>, result: string, cumulative: int)

  /**
   * A player row `(id, name, rating, wins, losses, spread, last_result, scorecard,
   * team, player_number, country)`. Wins and losses are counted in half-points,
   * so that a tie's 0.5 is the integer 1.
   */
  datatype Player = Player(id: int, name: Name, rating: int, wins: int, losses: int, spread: int,
                           lastResult: string, scorecard: seq<Entry>, team: string,
                           number: int, country: string)

  /** A submitted result `(score1, score2)`. */
  type Score = (int, int)

  /** `completed_rounds`: round number to the pairings of that round. */
  type Rounds = map<int, seq<Pairing>>

  /** `results_by_round`: round number to one optional result per pairing position. */
  type Results = map<int, seq<Option<Score>>>

  /** The Python exceptions the core can raise. */
  datatype Error = KeyError(key: Name) | TypeError | ValueError(message: string)

  datatype Result<T> = Ok(value: T) | Err(error: Error)

  /** `[p[1] for p in players]` */
  function Names(players: seq<Player>): (r: seq<Name>)
    ensures |r| == |players|
    ensures forall i :: 0 <= i < |r| ==> r[i] == players[i].name
  {
    if players == [] then [] else [players[0].name] + Names(players[1..])
  }

  /** The roster with `"BYE"` appended exactly when its length is odd. */
  function Pad<T>(s: seq<T>, bye: T): (r: seq<T>)
    ensures |r| % 2 == 0
    ensures |r| == if |s| % 2 == 1 then |s| + 1 else |s|
    ensures r[..|s|] == s
    ensures |s| % 2 == 1 ==> r[|s|] == bye
  {
    if |s| % 2 == 1 then s + [bye] else s
  }

  /** `[None] * n` */
  function Nones(n: nat): (r: seq<Option<Score>>)
    ensures |r| == n && forall i :: 0 <= i < n ==> r[i] == None
  {
    seq(n, _ => None)
  }

  /** The sides of a list of pairings, in order: p1, p2, p1, p2, ... */
  function Sides(ps: seq<Pairing>): seq<Name>
  {
    if ps == [] then [] else [ps[0].p1, ps[0].p2] + Sides(ps[1..])
  }

  lemma {:induction false} SidesAppend(a: seq<Pairing>, b: seq<Pairing>)
    ensures Sides(a + b) == Sides(a) + Sides(b)
  {
    if a != [] {
      assert (a + b)[0] == a[0];
      assert (a + b)[1..] == a[1..] + b;
      SidesAppend(a[1..], b);
    } else {
      assert a + b == b;
    }
  }
}
