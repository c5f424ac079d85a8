/**
 * main.py's pairing functions. `round_robin_rounds`, `assign_firsts`,
 * `random_pairings` and `king_of_the_hills_pairings` there behave as the
 * pairings.py ones modelled in CircleMethod, FirstMovers and Pairings;
 * what is new here is `team_round_robin_pairings` and the two dispatchers
 * `generate_general_pairings` and `generate_pairings_system`.
 */
module MainPairings {
  import opened Types
  import opened CircleMethod
  import opened FirstMovers
  import opened Pairings

  // ---------------------------------------------------------------------------
  // team_round_robin_pairings
  // ---------------------------------------------------------------------------

  /** A side of a team schedule: a roster of names, or the `"BYE"` the circle method pads with. */
  datatype Side = Roster(members: seq<Name>) | ByeSide

  /** `(teamA, teamB, starting)` */
  datatype TeamPairing = TeamPairing(a: Side, b: Side, starting: string)

  /** The names of the players of team `t`, in player order. */
  function TeamMembers(players: seq<Player>, t: string): (r: seq<Name>)
    ensures |r| <= |players|
  {
    if players == [] then []
    else TeamMembers(players[..|players| - 1], t) + (if players[|players| - 1].team == t then [players[|players| - 1].name] else [])
  }

  /** Some player is on team `t`. */
  predicate HasTeam(players: seq<Player>, t: string)
  {
    exists i :: 0 <= i < |players| && players[i].team == t
  }

  /** The `teams` dictionary: every team of a player, mapped to its members in player order. */
  method GroupTeams(players: seq<Player>) returns (teams: map<string, seq<Name>>)
    ensures forall t :: t in teams <==> HasTeam(players, t)
    ensures forall t :: t in teams ==> teams[t] == TeamMembers(players, t)
  {
    teams := map[];
    for i := 0 to |players|
      invariant forall t :: t in teams <==> HasTeam(players[..i], t)
      invariant forall t :: t in teams ==> teams[t] == TeamMembers(players[..i], t)
    {
      var p := players[i];
      var team := p.team;
      if team !in teams {
        NoTeamNoMembers(players[..i], team);
        teams := teams[team := []];
      }
      teams := teams[team := teams[team] + [p.name]];
      GroupStep(players, i);
    }
    assert players[..|players|] == players;
  }

  lemma GroupStep(players: seq<Player>, i: nat)
    requires i < |players|
    ensures forall t :: HasTeam(players[..i + 1], t) <==> HasTeam(players[..i], t) || t == players[i].team
    ensures forall t ::
              TeamMembers(players[..i + 1], t) == TeamMembers(players[..i], t) + (if players[i].team == t then [players[i].name] else [])
  {
    var q := players[..i + 1];
    assert q[..i] == players[..i] && q[i] == players[i];
    forall t ensures HasTeam(q, t) <==> HasTeam(players[..i], t) || t == players[i].team {
      if HasTeam(q, t) && t != players[i].team {
        var j :| 0 <= j < |q| && q[j].team == t;
        assert players[..i][j] == q[j];
      }
      if HasTeam(players[..i], t) {
        var j :| 0 <= j < i && players[..i][j].team == t;
        assert q[j] == players[..i][j];
      }
    }
  }

  /** Python's `members[:size]`: a negative size counts from the end. */
  function PySlice(s: seq<Name>, size: int): (r: seq<Name>)
    ensures size >= 0 && size <= |s| ==> r == s[..size]
    ensures size < 0 ==> r == s[..if |s| + size < 0 then 0 else |s| + size]
  {
    if size >= 0 then s[..if size <= |s| then size else |s|]
    else s[..if |s| + size < 0 then 0 else |s| + size]
  }

  /** The rosters of the listed teams with at least `size` members, truncated, in `teamsList` order. */
  function Qualified(players: seq<Player>, teamsList: seq<string>, size: int): seq<seq<Name>>
  {
    if teamsList == [] then []
    else
      var front := Qualified(players, teamsList[..|teamsList| - 1], size);
      var members := TeamMembers(players, teamsList[|teamsList| - 1]);
      if |members| >= size then front + [PySlice(members, size)] else front
  }

  /** `random.choice(["first", "second"])` */
  function Starting(b: bool): string
  {
    if b then "first" else "second"
  }

  /** The qualifying rosters as schedule sides, padded with the BYE side to an even count. */
  function Padded(rosters: seq<seq<Name>>): (p: seq<Side>)
    ensures |p| == |Pad(rosters, [])| && |p| % 2 == 0
    ensures forall x :: 0 <= x < |p| ==> p[x] == if x < |rosters| then Roster(rosters[x]) else ByeSide
  {
    Pad(seq(|rosters|, i requires 0 <= i < |rosters| => Roster(rosters[i])), ByeSide)
  }

  /** The circle-method schedule of the qualifying rosters, each pairing with its starting flag. */
  function TeamSchedule(rosters: seq<seq<Name>>, starts: (nat, nat) -> bool): seq<seq<TeamPairing>>
  {
    var sched: seq<seq<(Side, Side)>> := Schedule(Padded(rosters));
    seq(|sched|, r requires 0 <= r < |sched| =>
      seq(|sched[r]|, j requires 0 <= j < |sched[r]| => TeamPairing(sched[r][j].0, sched[r][j].1, Starting(starts(r, j)))))
  }

  /** What `team_round_robin_pairings` returns; `teams_list` is the tournament's list of team names. */
  function TeamRoundRobin(players: seq<Player>, teamSize: int, teamsList: seq<string>, starts: (nat, nat) -> bool): seq<seq<TeamPairing>>
  {
    var rosters := Qualified(players, teamsList, teamSize);
    if |rosters| < 2 then [] else TeamSchedule(rosters, starts)
  }

  /** `team_round_robin_pairings(players, team_size)` */
  method TeamRoundRobinPairings(players: seq<Player>, teamSize: int, teamsList: seq<string>, starts: (nat, nat) -> bool)
    returns (teamRounds: seq<seq<TeamPairing>>)
    ensures teamRounds == TeamRoundRobin(players, teamSize, teamsList, starts)
  {
    var teams := GroupTeams(players);
    var teamsOrdered := QualifyTeams(players, teams, teamsList, teamSize);
    if |teamsOrdered| < 2 {
      return [];
    }
    teamRounds := ScheduleTeams(teamsOrdered, starts);
  }

  /** The loop over `teams_list` keeping the teams with at least `team_size` members, truncated. */
  method QualifyTeams(players: seq<Player>, teams: map<string, seq<Name>>, teamsList: seq<string>, teamSize: int)
    returns (teamsOrdered: seq<seq<Name>>)
    requires forall t :: t in teams <==> HasTeam(players, t)
    requires forall t :: t in teams ==> teams[t] == TeamMembers(players, t)
    ensures teamsOrdered == Qualified(players, teamsList, teamSize)
  {
    teamsOrdered := [];
    for k := 0 to |teamsList|
      invariant teamsOrdered == Qualified(players, teamsList[..k], teamSize)
    {
      var teamName := teamsList[k];
      var members := if teamName in teams then teams[teamName] else [];
      if teamName !in teams {
        NoTeamNoMembers(players, teamName);
      }
      if |members| >= teamSize {
        teamsOrdered := teamsOrdered + [PySlice(members, teamSize)];
      }
      assert teamsList[..k + 1][..k] == teamsList[..k];
    }
    assert teamsList[..|teamsList|] == teamsList;
  }

  /** The circle method over the rosters, then a starting flag per pairing. */
  method ScheduleTeams(rosters: seq<seq<Name>>, starts: (nat, nat) -> bool) returns (teamRounds: seq<seq<TeamPairing>>)
    ensures teamRounds == TeamSchedule(rosters, starts)
  {
    var sides: seq<Side> := seq(|rosters|, i requires 0 <= i < |rosters| => Roster(rosters[i]));
    var rounds: seq<seq<(Side, Side)>> := RoundRobinRounds(sides, ByeSide);
    assert Pad(sides, ByeSide) == Padded(rosters);
    ghost var want := TeamSchedule(rosters, starts);
    assert |want| == |rounds|;
    teamRounds := [];
    for r := 0 to |rounds|
      invariant |teamRounds| == r
      invariant forall rr :: 0 <= rr < r ==> teamRounds[rr] == want[rr]
    {
      var roundInfo := FlagRound(rounds[r], r, starts);
      teamRounds := teamRounds + [roundInfo];
    }
  }

  /** One round of team pairings, each with `random.choice(["first", "second"])`. */
  method FlagRound(round: seq<(Side, Side)>, r: nat, starts: (nat, nat) -> bool) returns (roundInfo: seq<TeamPairing>)
    ensures roundInfo == seq(|round|, j requires 0 <= j < |round| => TeamPairing(round[j].0, round[j].1, Starting(starts(r, j))))
  {
    roundInfo := [];
    for j := 0 to |round|
      invariant roundInfo == seq(j, jj requires 0 <= jj < j => TeamPairing(round[jj].0, round[jj].1, Starting(starts(r, jj))))
    {
      roundInfo := roundInfo + [TeamPairing(round[j].0, round[j].1, Starting(starts(r, j)))];
    }
  }

  lemma {:induction false} NoTeamNoMembers(players: seq<Player>, t: string)
    requires !HasTeam(players, t)
    ensures TeamMembers(players, t) == []
  {
    if players != [] {
      var front := players[..|players| - 1];
      assert !HasTeam(front, t);
      NoTeamNoMembers(front, t);
    }
  }

  /** Every member `TeamMembers` lists is a player of that team. */
  lemma {:induction false} TeamMembersAreOnTeam(players: seq<Player>, t: string)
    ensures forall n :: n in TeamMembers(players, t) ==> exists i :: 0 <= i < |players| && players[i].team == t && players[i].name == n
  {
    if players != [] {
      var front := players[..|players| - 1];
      TeamMembersAreOnTeam(front, t);
      forall n | n in TeamMembers(players, t)
        ensures exists i :: 0 <= i < |players| && players[i].team == t && players[i].name == n
      {
        if n in TeamMembers(front, t) {
          var i :| 0 <= i < |front| && front[i].team == t && front[i].name == n;
          assert players[i] == front[i];
        } else {
          assert players[|players| - 1].team == t && players[|players| - 1].name == n;
        }
      }
    }
  }

  /**
   * The qualifying rosters: each comes from a listed team with at least
   * `size` members and, for a non-negative size, holds exactly that team's
   * first `size` members in player order. `QualifiedOrder` states the order.
   */
  lemma {:induction false} QualifiedRosters(players: seq<Player>, teamsList: seq<string>, size: int)
    ensures |Qualified(players, teamsList, size)| <= |teamsList|
    ensures forall q :: q in Qualified(players, teamsList, size) ==>
      exists t :: t in teamsList && |TeamMembers(players, t)| >= size && q == PySlice(TeamMembers(players, t), size)
    ensures size >= 0 ==> forall q :: q in Qualified(players, teamsList, size) ==> |q| == size
  {
    if teamsList != [] {
      var front := teamsList[..|teamsList| - 1];
      QualifiedRosters(players, front, size);
      var last := teamsList[|teamsList| - 1];
      forall q | q in Qualified(players, teamsList, size)
        ensures exists t :: t in teamsList && |TeamMembers(players, t)| >= size && q == PySlice(TeamMembers(players, t), size)
      {
        if q in Qualified(players, front, size) {
          var t :| t in front && |TeamMembers(players, t)| >= size && q == PySlice(TeamMembers(players, t), size);
          assert t in teamsList;
        } else {
          assert q == PySlice(TeamMembers(players, last), size);
        }
      }
    }
  }

  /** The positions in `teamsList` of the teams with at least `size` members, in increasing order. */
  function QualifiedIndices(players: seq<Player>, teamsList: seq<string>, size: int): seq<nat>
  {
    if teamsList == [] then []
    else
      QualifiedIndices(players, teamsList[..|teamsList| - 1], size) +
        (if |TeamMembers(players, teamsList[|teamsList| - 1])| >= size then [|teamsList| - 1] else [])
  }

  /**
   * The rosters follow `teamsList`: roster k is the truncated team at
   * position ix[k], the positions strictly increase, and every position
   * whose team has enough members is one of them (so a team listed twice
   * gets two rosters).
   */
  lemma {:induction false} QualifiedOrder(players: seq<Player>, teamsList: seq<string>, size: int)
    ensures |QualifiedIndices(players, teamsList, size)| == |Qualified(players, teamsList, size)|
    ensures forall k :: 0 <= k < |QualifiedIndices(players, teamsList, size)| ==>
      QualifiedIndices(players, teamsList, size)[k] < |teamsList| &&
      Qualified(players, teamsList, size)[k] ==
        PySlice(TeamMembers(players, teamsList[QualifiedIndices(players, teamsList, size)[k]]), size)
    ensures forall k, l :: 0 <= k < l < |QualifiedIndices(players, teamsList, size)| ==>
      QualifiedIndices(players, teamsList, size)[k] < QualifiedIndices(players, teamsList, size)[l]
    ensures forall i :: 0 <= i < |teamsList| && |TeamMembers(players, teamsList[i])| >= size ==>
      i in QualifiedIndices(players, teamsList, size)
  {
    if teamsList != [] {
      var n := |teamsList|;
      var front := teamsList[..n - 1];
      QualifiedOrder(players, front, size);
      var ixf := QualifiedIndices(players, front, size);
      var ix := QualifiedIndices(players, teamsList, size);
      var q := Qualified(players, teamsList, size);
      var qf := Qualified(players, front, size);
      forall k | 0 <= k < |ix|
        ensures ix[k] < n && q[k] == PySlice(TeamMembers(players, teamsList[ix[k]]), size)
      {
        if k < |ixf| {
          assert ix[k] == ixf[k] && q[k] == qf[k];
          assert teamsList[ix[k]] == front[ixf[k]];
        }
      }
      forall i | 0 <= i < n && |TeamMembers(players, teamsList[i])| >= size
        ensures i in ix
      {
        if i < n - 1 {
          assert teamsList[i] == front[i];
          assert i in ixf;
        }
      }
    }
  }

  /** A team listed with at least `size` members always gets a roster. */
  lemma {:induction false} QualifiedIncludes(players: seq<Player>, teamsList: seq<string>, size: int, t: string)
    requires t in teamsList && |TeamMembers(players, t)| >= size
    ensures PySlice(TeamMembers(players, t), size) in Qualified(players, teamsList, size)
  {
    var front := teamsList[..|teamsList| - 1];
    var last := teamsList[|teamsList| - 1];
    if t != last {
      assert t in front by {
        var i :| 0 <= i < |teamsList| && teamsList[i] == t;
        assert i < |teamsList| - 1 && front[i] == t;
      }
      QualifiedIncludes(players, front, size, t);
    }
  }

  /** Every pairing has a `"first"`/`"second"` flag, and each side is one of the rosters `q` or the BYE. */
  predicate FromRosters(out: seq<seq<TeamPairing>>, q: seq<seq<Name>>)
  {
    forall r, j :: 0 <= r < |out| && 0 <= j < |out[r]| ==>
      (out[r][j].starting == "first" || out[r][j].starting == "second") &&
      (out[r][j].a == ByeSide || out[r][j].a.members in q) &&
      (out[r][j].b == ByeSide || out[r][j].b.members in q)
  }

  /** Round r, pair j of the team schedule: padded positions Slot(j) and Slot(n-1-j), flag from `starts(r, j)`. */
  lemma TeamScheduleAt(q: seq<seq<Name>>, starts: (nat, nat) -> bool, r: nat, j: nat)
    requires 2 <= |q| && r < |Padded(q)| - 1 && j < |Padded(q)| / 2
    ensures var n := |Padded(q)|; var out := TeamSchedule(q, starts);
      |out| == n - 1 && |out[r]| == n / 2 &&
      out[r][j] == TeamPairing(Padded(q)[Slot(n, r, j)], Padded(q)[Slot(n, r, n - 1 - j)], Starting(starts(r, j)))
  {
    ScheduleShape(Padded(q));
  }

  /**
   * The team schedule over at least two rosters: n-1 rounds for a padded
   * count n (the rosters, plus a BYE side when odd), and every pairing is
   * flagged and played between rosters or against the BYE.
   */
  lemma TeamScheduleShape(q: seq<seq<Name>>, starts: (nat, nat) -> bool)
    requires 2 <= |q|
    ensures |TeamSchedule(q, starts)| == (if |q| % 2 == 1 then |q| else |q| - 1)
    ensures forall r :: 0 <= r < |TeamSchedule(q, starts)| ==> |TeamSchedule(q, starts)[r]| == (|q| + 1) / 2
    ensures FromRosters(TeamSchedule(q, starts), q)
  {
    var p := Padded(q);
    var n := |p|;
    var out: seq<seq<TeamPairing>> := TeamSchedule(q, starts);
    ScheduleShape(p);
    forall r: int, j: int | 0 <= r < |out| && 0 <= j < |out[r]|
      ensures (out[r][j].starting == "first" || out[r][j].starting == "second") &&
              (out[r][j].a == ByeSide || out[r][j].a.members in q) &&
              (out[r][j].b == ByeSide || out[r][j].b.members in q)
    {
      TeamScheduleAt(q, starts, r, j);
    }
  }

  /** Any two of the qualifying teams face each other in some round. */
  lemma TeamsMeet(q: seq<seq<Name>>, starts: (nat, nat) -> bool, a: nat, b: nat) returns (r: nat, j: nat)
    requires 2 <= |q| && a < |q| && b < |q| && a != b
    ensures r < |TeamSchedule(q, starts)| && j < |TeamSchedule(q, starts)[r]|
    ensures var t := TeamSchedule(q, starts)[r][j];
      (t.a == Roster(q[a]) && t.b == Roster(q[b])) || (t.a == Roster(q[b]) && t.b == Roster(q[a]))
  {
    var n := |Padded(q)|;
    var lo, hi := if a < b then a else b, if a < b then b else a;
    r, j := PairMeets(n, lo, hi);
    TeamScheduleAt(q, starts, r, j);
  }

  /**
   * `team_round_robin_pairings`: no pairings when fewer than two listed teams
   * have enough members; otherwise the team schedule over the qualifying
   * rosters.
   */
  lemma TeamRoundRobinShape(players: seq<Player>, teamSize: int, teamsList: seq<string>, starts: (nat, nat) -> bool)
    ensures |Qualified(players, teamsList, teamSize)| < 2 <==> TeamRoundRobin(players, teamSize, teamsList, starts) == []
    ensures FromRosters(TeamRoundRobin(players, teamSize, teamsList, starts), Qualified(players, teamsList, teamSize))
  {
    var q := Qualified(players, teamsList, teamSize);
    if |q| >= 2 {
      TeamScheduleShape(q, starts);
    }
  }

  // ---------------------------------------------------------------------------
  // The dispatchers
  // ---------------------------------------------------------------------------

  /** What main.py's pairing functions return: a player schedule, one round, or a team schedule. */
  datatype MainDrawn = PlayerSchedule(rounds: seq<seq<Pairing>>) | PlayerRound(pairings: seq<Pairing>)
                     | TeamRounds(teamRounds: seq<seq<TeamPairing>>)

  const NoTeamSize: Error := ValueError("Team size must be specified for team round robin.")
  const InvalidMainSystem: Error := ValueError("Invalid pairing system specified.")
  const InvalidGeneralSystem: Error := ValueError("Invalid general pairing system choice.")

  /** The three player systems main.py offers, or the error `invalid` for any other name. */
  function GeneralDraw(players: seq<Player>, system: string, shuffled: seq<Name>, coin: nat -> bool,
                       firsts: (nat, nat) -> bool, invalid: Error): Result<MainDrawn>
  {
    if system == "Round Robin" then Ok(PlayerSchedule(Assigned(Schedule(Pad(Names(players), BYE)), firsts)))
    else if system == "Random Pairing" then Ok(PlayerRound(RandomDraw(Pad(shuffled, BYE), coin)))
    else if system == "King of the Hills Pairing" then Ok(PlayerRound(KingOfTheHillsPairings(players)))
    else Err(invalid)
  }

  /** What main.py's `generate_pairings_system` returns or raises. */
  function MainSystemDraw(players: seq<Player>, system: string, teamSize: Option<int>, teamsList: seq<string>,
                          shuffled: seq<Name>, coin: nat -> bool, firsts: (nat, nat) -> bool,
                          starts: (nat, nat) -> bool): Result<MainDrawn>
  {
    if system == "Team Round Robin" then
      if teamSize.None? then Err(NoTeamSize)
      else Ok(TeamRounds(TeamRoundRobin(players, teamSize.value, teamsList, starts)))
    else GeneralDraw(players, system, shuffled, coin, firsts, InvalidMainSystem)
  }

  /** The player branches shared by both dispatchers. */
  method GeneralBranches(players: seq<Player>, system: string, shuffled: seq<Name>, coin: nat -> bool,
                         firsts: (nat, nat) -> bool, invalid: Error)
    returns (r: Result<MainDrawn>)
    requires multiset(shuffled) == multiset(Names(players))
    ensures r == GeneralDraw(players, system, shuffled, coin, firsts, invalid)
  {
    if system == "Round Robin" {
      var names := Names(players);
      var rounds := RoundRobinRounds(names, BYE);
      var schedule := AssignFirsts(rounds, firsts);
      r := Ok(PlayerSchedule(schedule));
    } else if system == "Random Pairing" {
      var ps := RandomPairings(players, shuffled, coin);
      r := Ok(PlayerRound(ps));
    } else if system == "King of the Hills Pairing" {
      r := Ok(PlayerRound(KingOfTheHillsPairings(players)));
    } else {
      r := Err(invalid);
    }
  }

  /** `generate_general_pairings(players, system_choice)` */
  method GenerateGeneralPairings(players: seq<Player>, system: string, shuffled: seq<Name>, coin: nat -> bool,
                                 firsts: (nat, nat) -> bool)
    returns (r: Result<MainDrawn>)
    requires multiset(shuffled) == multiset(Names(players))
    ensures r == GeneralDraw(players, system, shuffled, coin, firsts, InvalidGeneralSystem)
  {
    r := GeneralBranches(players, system, shuffled, coin, firsts, InvalidGeneralSystem);
  }

  /** main.py `generate_pairings_system(players, system, team_size)` */
  method MainGeneratePairingsSystem(players: seq<Player>, system: string, teamSize: Option<int>, teamsList: seq<string>,
                                    shuffled: seq<Name>, coin: nat -> bool, firsts: (nat, nat) -> bool,
                                    starts: (nat, nat) -> bool)
    returns (r: Result<MainDrawn>)
    requires multiset(shuffled) == multiset(Names(players))
    ensures r == MainSystemDraw(players, system, teamSize, teamsList, shuffled, coin, firsts, starts)
  {
    if system == "Team Round Robin" {
      if teamSize.None? {
        return Err(NoTeamSize);
      }
      var teamRounds := TeamRoundRobinPairings(players, teamSize.value, teamsList, starts);
      return Ok(TeamRounds(teamRounds));
    }
    r := GeneralBranches(players, system, shuffled, coin, firsts, InvalidMainSystem);
  }

  /**
   * main.py's dispatcher raises `ValueError` exactly for Team Round Robin
   * without a team size and for a name other than the four systems it knows.
   */
  lemma MainSystemDrawErrors(players: seq<Player>, system: string, teamSize: Option<int>, teamsList: seq<string>,
                             shuffled: seq<Name>, coin: nat -> bool, firsts: (nat, nat) -> bool,
                             starts: (nat, nat) -> bool)
    ensures MainSystemDraw(players, system, teamSize, teamsList, shuffled, coin, firsts, starts) == Err(NoTeamSize)
      <==> system == "Team Round Robin" && teamSize.None?
    ensures MainSystemDraw(players, system, teamSize, teamsList, shuffled, coin, firsts, starts) == Err(InvalidMainSystem)
      <==> system != "Team Round Robin" && system != "Round Robin" && system != "Random Pairing" && system != "King of the Hills Pairing"
    ensures MainSystemDraw(players, system, teamSize, teamsList, shuffled, coin, firsts, starts).Err? ==>
      MainSystemDraw(players, system, teamSize, teamsList, shuffled, coin, firsts, starts) in {Err(NoTeamSize), Err(InvalidMainSystem)}
  {
    assert NoTeamSize != InvalidMainSystem;
  }
}
