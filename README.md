# Pairing and standings engine of a Scrabble tournament manager, in Dafny

This project models the algorithmic core of a desktop tournament manager
for Scrabble (Python). It covers how each round's opponents are chosen
and how every player's record is rebuilt from the results entered so far.
The parts modelled are:

- the schedulers: all pairs of a list, the circle-method round robin and
  the first-move balancing;
- the pairing systems: Random, King of the Hills, Australian Draw,
  Lagged Australian and Team Round Robin, plus the two dispatchers that
  pick a system by name;
- the repeat-opponent query `has_played`;
- the two standings replays: the library's `recalculate_player_stats`
  and the application's own `recalc_player_stats`;
- the history of the pairing page, a class. It holds the paired rounds,
  the entered results and the current round number, and its three
  handlers pair, unpair and submit;
- the two string helpers `sanitize_filename` and `generate_match_id`.

Modelling conventions:

- Wins and losses count half-points, so a win is 2 and a tie is 1.
- Scores, spreads and round numbers are unbounded integers, as in
  Python.
- Randomness is a parameter:
  - `random.shuffle` is a `shuffled` list that must be a permutation of
    the names;
  - each `random.choice` is a boolean function of the position it is made
    at (`coin`, `firsts`, `starts`).
  Every contract therefore holds for every outcome of the random
  generator.
- An exception the Python code raises is a `Result` error: `KeyError`
  with the name, `TypeError` or `ValueError` with the message.
- Dictionaries keyed by round are `map<int, _>`. "Processing in
  ascending key order" is the sequence `Replay.SortedKeys`, specified by
  being increasing and having exactly the keys.
- The replays are a fold over the events of the rounds (`Replay.Fold`).
  Each loop of the source is a method proved equal to that fold.

Modules:

- `Types`: shared data.
- `Text`: integer rendering and parsing it back.
- `Ranking`: Python's stable `sorted(..., reverse=True)`.
- `Replay`: sorted keys and round events.
- `LogicPairings`: `round_robin`, the all-pairs list. It appears in
  logic/pairings.py:7-12 and again, with the same code, in
  pairings.py:11-27; `LogicPairings.RoundRobin` and its lemmas model both.
- `CircleMethod` and `FirstMovers`: `round_robin_rounds` and
  `assign_firsts`.
- `Pairings`, `Draws`, `Lagged` and `PairingSystems`: the other
  pairing systems of pairings.py and its dispatcher.
- `Utils`: utils.py.
- `MainPairings`, `MainStandings` and `MainHistory`: main.py.

main.py also holds copies of `round_robin_rounds`, `assign_firsts`,
`random_pairings` and `king_of_the_hills_pairings`. The copies compute
the same results as the pairings.py versions, so main.py's dispatchers
reuse the same members. The copies carry no docstrings, and some
variables have other names (`lambda x` for `lambda p`, and no `first`
variable in `king_of_the_hills_pairings`). The one change to the code
itself is at main.py:381, where `random_pairings` picks the first mover
in a single conditional expression.

Behaviours of the code worth knowing:

- **Australian Draw with an odd roster.** Australian Draw and Lagged
  Australian add no BYE sentinel. With an odd number of players, one
  player is left without a pairing (`Draws.GreedyDrawShape`,
  `Draws.DrawCoverage`).
- **Lagged standings and BYE pairings.** The lagged standings do not skip
  a BYE pairing. A BYE board that had a result would raise `KeyError`
  (`Lagged.LagFoldOkIff`).
- **A tie in main.py.** main.py's recalculation scores a tie as half a
  win for each side and no loss. utils.py scores it as half a win and
  half a loss (`MainStandings.MainTieGame`, `Utils.TieGame`).
- **A Round Robin commit below the current round.** A Round Robin commit
  of k rounds when more than k rounds are already paired leaves a paired
  round above the new current round. After that, the paired rounds are no
  longer 1..current (`MainHistory.RoundRobinBelowCurrent`).
- **Result slots after a Round Robin commit.** A Round Robin commit of k
  rounds adds empty result slots only under the selected round
  (current + 1), sized by round k's pairings. Rounds 2..k that had no
  results get no slots (`MainHistory.RoundRobinCommitted`).
- **Very small rosters.** The circle method accepts any roster size. No
  players gives no rounds; one player gives one round against the BYE.

## Model

| member | source | states |
|---|---|---|
| Types.Names | pairings.py:102 | `[p[1] for p in players]`: one name per player, in order |
| Types.Pad | pairings.py:41-42 | padding appends the BYE exactly when the length is odd, leaves the original prefix unchanged, and the result has even length |
| Types.Nones | main.py:1318-1319 | `[None] * n`: n empty result slots |
| Text.NatToString | utils.py:72 | a rendered natural number is a nonempty string of digits with no leading zero |
| Text.IntToString | utils.py:72 | a rendered integer is digits with an optional leading minus sign, and never starts with `M` |
| Text.ParseNatToString | utils.py:72 | parsing the rendering of n gives back n |
| Text.ParseIntToString | utils.py:72 | parsing the rendering of i gives back i, negative numbers included |
| Text.IntToStringInjective | utils.py:72 | two integers with the same rendering are equal |
| Ranking.InsertFacts | pairings.py:127 | inserting into a descending sequence keeps it descending, adds exactly that element to the multiset, and places the element before any others with an equal key |
| Ranking.HeadRanksFirst | pairings.py:127 | no element of a descending sequence has a larger key than its head |
| Ranking.DescendingTail | pairings.py:127 | the tail of a descending sequence is descending |
| Ranking.ConsDescending | pairings.py:127 | an element whose key is no smaller than every key of a descending sequence can be put in front of it |
| Ranking.SortDescFacts | pairings.py:127 | `sorted(..., reverse=True)` returns a permutation of its input, ordered descending by key |
| Ranking.WithKeyAppend | pairings.py:127 | selecting the elements with key k distributes over concatenation |
| Ranking.InsertStable | pairings.py:127 | inserting x puts it ahead of the existing elements that have its key and changes nothing else among them |
| Ranking.SortDescStable | pairings.py:127 | the sort is stable: for every key, the players with that key keep their input order |
| Replay.MinExists | pairings.py:215 | a nonempty finite set of round numbers has a least element |
| Replay.SortedKeys | utils.py:163 | `sorted(results_by_round.keys())` is strictly increasing and holds exactly the dictionary's keys |
| Replay.PrependMin | utils.py:163 | the least key in front of the sorted rest is the sorted whole |
| Replay.IncreasingUnique | utils.py:163 | two strictly increasing sequences with the same members are equal, so the sorted key order is unique |
| Replay.IncreasingTail | utils.py:163 | the tail of an increasing sequence is increasing |
| Replay.SameHeads | utils.py:163 | two increasing sequences with the same members start with the same key |
| Replay.SameTails | utils.py:163 | after equal heads, two increasing sequences with the same members have tails with the same members |
| Replay.TailMember | utils.py:163 | a member of one tail is a member of the other |
| Replay.RoundEvents | utils.py:164-169 | a round contributes positions 0 .. min(#pairings, #result slots) - 1, each carrying its pairing and its slot, with missing dictionary entries read as `[]` |
| Replay.FoldSnoc | utils.py:163-167 | replaying one more event is one more step |
| Replay.FoldRoundStep | utils.py:167 | the replay through position i+1 of a round is one step after the replay through position i |
| Replay.EventsOverStep | utils.py:163-167 | the events through the key at position k are those of the earlier keys followed by round k's events |
| Replay.FoldAbsorbs | utils.py:163-167 | once the replay is in a state that every step keeps, the state never changes: the first exception is the result |
| Replay.FoldRoundsAbsorb | utils.py:163-167 | an exception raised in round k ends the replay of every later round |
| Replay.EventsOverSplit | utils.py:163-167 | the events of a key list are the events of a prefix followed by those of the rest |
| Replay.FoldRoundAbsorbs | utils.py:167 | an exception at a position of a round ends the replay of the rest of the round and of every later round |
| Replay.EventsOverAppend | utils.py:163-167 | the events of two concatenated key lists are concatenated |
| Replay.EventsOverSnoc | utils.py:163-167 | one more key appends that round's events |
| Replay.EventsOverMembers | utils.py:163-169 | an event is replayed exactly when its round is a listed key, its index is below both the pairing count and the slot count, and it carries that pairing and that slot |
| Replay.EventsMembers | utils.py:163-169 | the full replay visits exactly the (round, index) positions that have both a pairing and a result slot, for rounds that are keys of `results_by_round` |
| Replay.EventsOverRounds | utils.py:163-167 | every replayed event belongs to one of the listed rounds |
| Replay.EventsOverOrdered | utils.py:163-167 | over increasing keys, the events come in non-decreasing round order |
| Replay.EventsOrdered | utils.py:163 | the full replay processes rounds in ascending numeric order, whatever order the dictionary was filled in |
| Replay.KeysUpTo | pairings.py:215-217 | the keys kept before the `break` are exactly the keys up to the limit, still in increasing order |
| Replay.PrefixIsKeysUpTo | pairings.py:215-217 | in increasing keys, the prefix before the first key above the limit is exactly the keys up to the limit |
| Replay.Restrict | pairings.py:216 | the results restricted to rounds up to the limit keep exactly those keys |
| Replay.EventsOverAgree | pairings.py:215-221 | two result dictionaries that agree on the listed rounds give the same events |
| Replay.EventsUpToIsRestricted | pairings.py:215-221 | the lagged loop, stopped at the first key above the limit, replays exactly the events of the results restricted to the limit, and none of them is from a later round |
| LogicPairings.RoundRobin | logic/pairings.py:7-12 | the nested loop returns one pair (players[i], players[j]) for each index pair (i, j) with i < j, in the order the loops generate them. The same loop is pairings.py:22-27 |
| LogicPairings.RowFacts | logic/pairings.py:10-11 | the inner loop for i adds the pairs (i, i+1) .. (i, n-1) |
| LogicPairings.PairsBeforeCount | logic/pairings.py:9-11 | after the first i outer iterations there are i(2n-i-1)/2 pairs |
| LogicPairings.RoundRobinCount | pairings.py:11-27 | `round_robin` returns exactly n(n-1)/2 pairs, in both copies (logic/pairings.py:7-12 as well) |
| LogicPairings.RowMembers | logic/pairings.py:10-11 | the inner loop for i adds exactly the pairs (i, y) with i < y < n |
| LogicPairings.PairsBeforeMembers | logic/pairings.py:9-11 | after i outer iterations the pairs are exactly the (a, b) with a < b < n and a < i |
| LogicPairings.PairsBeforeSorted | logic/pairings.py:9-11 | the pairs so far are in strictly increasing lexicographic order, and all their first indices are below i |
| LogicPairings.EachPairOnce | pairings.py:11-27 | every unordered pair of distinct positions appears exactly once, as the docstring promises, and the list is ordered lexicographically by (i, j). This holds for both copies (logic/pairings.py:7-12 as well) |
| CircleMethod.Slot | pairings.py:49 | the player at position k in round r is a valid index of the padded list |
| CircleMethod.Pos | pairings.py:49 | the position of player a in round r is a valid position |
| CircleMethod.ScheduleShape | pairings.py:45-50 | the schedule of a padded list of n players has n-1 rounds of n/2 pairs, and pair j of round r matches position j with position n-1-j of that round's rotation |
| CircleMethod.ScheduleIs | pairings.py:45-50 | rounds that each equal the r-th rotation's pairing make up the whole schedule |
| CircleMethod.RoundOfIs | pairings.py:46-48 | pairing j with n-1-j of the current working list gives round i |
| CircleMethod.RotationAdvances | pairings.py:49 | `players.insert(1, players.pop())` turns the working list of round i into that of round i+1 |
| CircleMethod.PairOpposite | pairings.py:46-48 | the inner loop returns n/2 pairs (work[j], work[n-1-j]) |
| CircleMethod.RoundRobinRounds | pairings.py:40-51 | `round_robin_rounds` returns the circle-method schedule of the BYE-padded roster: n'-1 rounds of n'/2 pairs for padded length n', and no rounds for an empty roster. The input sequence is a value, so it is never modified |
| CircleMethod.PlayRound | pairings.py:46-49 | one outer iteration produces round i and leaves the list rotated for round i+1 |
| CircleMethod.SlotPosInverse | pairings.py:49 | position and player are inverse maps in every round, so each round's rotation is a permutation |
| CircleMethod.MeetsByPos | pairings.py:48 | players a and b meet in pair j of round r exactly when their positions are j and n-1-j |
| CircleMethod.RoundIsPerfectMatching | pairings.py:45-50 | in every round each padded player is in exactly one pair, and no pair matches a player with themself |
| CircleMethod.InOnePair | pairings.py:45-50 | a player is never in two different pairs of one round |
| CircleMethod.PairMeets | pairings.py:45-50 | any two positions a < b meet in some round |
| CircleMethod.MeetsAtMostOnce | pairings.py:45-50 | two positions meet in at most one (round, pair) |
| CircleMethod.SumFixesRound | pairings.py:45-50 | the round in which two positions sit opposite each other is unique |
| CircleMethod.EveryPairMeetsOnce | pairings.py:31-32 | across the schedule every unordered pair of distinct padded positions meets exactly once |
| FirstMovers.SeenGrows | pairings.py:64-70 | every real side of a pairing gets a counter in the first pass |
| FirstMovers.SeenMonotone | pairings.py:64-70 | the names seen by the first pass only grow as it moves on |
| FirstMovers.Step | pairings.py:76-88 | one pairing keeps both sides, picks one of them to move first, picks the real side against a BYE without counting it, picks the side with the strictly lower counter, and adds 1 to the chosen side's counter only |
| FirstMovers.CountsBefore | pairings.py:64-88 | the counters before any pairing cover exactly the real names of the schedule |
| FirstMovers.RowIsAssigned | pairings.py:73-89 | a row built pairing by pairing is the assigned round |
| FirstMovers.InitialCounts | pairings.py:64-70 | the first pass maps every real name in any pairing to 0 |
| FirstMovers.AssignFirsts | pairings.py:53-90 | `assign_firsts` returns the assigned schedule, for every outcome of `random.choice` |
| FirstMovers.RowsSnoc | pairings.py:73-89 | appending the next assigned round keeps the rounds done so far equal to the assigned ones |
| FirstMovers.AllRowsAssigned | pairings.py:72-90 | once every round is done, the output is the whole assigned schedule |
| FirstMovers.AssignRound | pairings.py:74-89 | one round of the second pass yields that round's assigned pairings and the counters after it |
| FirstMovers.AssignPair | pairings.py:75-88 | one pairing of the second pass yields its assigned pairing and the counters after it |
| FirstMovers.Decide | pairings.py:76-88 | the loop body computes the first mover and counters of `Step` |
| FirstMovers.StepAt | pairings.py:76-88 | both real sides have counters when their pairing is reached, and each assigned pairing comes from one `Step` on the counters before it |
| FirstMovers.AssignedShape | pairings.py:72-89 | the output keeps the round and pair structure. The added first mover is always one of the two sides, and it is the real side when the other is `"BYE"` |
| FirstMovers.CountsAreFirstMoves | pairings.py:79-87 | a player's counter before a pairing is the number of earlier non-BYE pairings in which that player was given the first move |
| FirstMovers.CountsStep | pairings.py:79-87 | the counter rises between two pairings exactly as the first-move tally does |
| FirstMovers.AssignedLength | pairings.py:72-89 | the output has as many rounds, and as many pairings per round, as the input |
| FirstMovers.FewerFirstsMovesFirst | pairings.py:79-88 | a side that has moved first strictly fewer times moves first. The chosen side's tally rises by exactly 1 and nobody else's changes. A BYE pairing changes no tally |
| Pairings.CoinFirst | pairings.py:110-113 | the first mover is one of the two sides, and it is the real side when the other is `"BYE"` |
| Pairings.ConsecutiveSides | pairings.py:107-114 | pairing consecutive names lists every name once, in order |
| Pairings.PaddedPairing | pairings.py:104-115 | pairing the padded list gives ⌈n/2⌉ pairs holding every name once, plus a BYE exactly when n is odd |
| Pairings.RandomDraw | pairings.py:107-114 | pair k is names 2k and 2k+1 of the shuffled list, and its first mover comes from `random.choice` |
| Pairings.RandomPairings | pairings.py:92-115 | `random_pairings` returns ⌈n/2⌉ pairs. Every player's name appears once, and `"BYE"` appears exactly when n is odd |
| Pairings.PairWithCoin | pairings.py:107-114 | the step-2 loop over the padded list builds the consecutive pairing |
| Pairings.SameLength | pairings.py:103 | a shuffle has the roster's length |
| Pairings.TopFirst | pairings.py:132-136 | consecutive pairs with the first of each pair moving first |
| Pairings.KingOfTheHillsRanks | pairings.py:127-137 | King of the Hills orders the players descending by (wins, spread). Pair k is ranks 2k and 2k+1, the higher-ranked side moves first, and an odd roster ends with a BYE |
| Pairings.KingOfTheHillsSides | pairings.py:127-137 | King of the Hills returns ⌈n/2⌉ pairs with every name once, plus a BYE exactly when n is odd |
| Pairings.InsertNames | pairings.py:128 | insertion keeps the multiset of names |
| Pairings.SortDescNames | pairings.py:127-128 | the ranked roster has the same names as the input |
| Pairings.SameSidesIff | pairings.py:153 | `set(pairing[:2]) == {a, b}` holds exactly when the pairing is (a, b) or (b, a) |
| Pairings.PlayedSymmetric | pairings.py:139-155 | `has_played` is symmetric in its two players |
| Pairings.HasPlayed | pairings.py:139-155 | `has_played(a, b, h)` is true exactly when some pairing of some recorded round has sides {a, b} |
| Draws.Nearest | pairings.py:178-186 | the search from j finds the first eligible rank at or after j, and none when no rank is eligible |
| Draws.DrawFrom | pairings.py:172-195 | every pair of the pass is two distinct unused ranks, the higher-ranked first |
| Draws.Lift | pairings.py:182 | one pairing tuple per rank pair |
| Draws.AustralianDrawPairings | pairings.py:157-196 | `australian_draw_pairings` is the greedy draw over the descending (wins, spread) order |
| Draws.Greedy | pairings.py:169-196 | the `while i` loop over the `used` array computes the greedy draw |
| Draws.Visit | pairings.py:173-195 | one iteration at rank i (skip a used rank, or pair it, or leave it) keeps the loop invariant tying the pairs so far to the draw |
| Draws.StepSkipped | pairings.py:173-175 | a used rank, or one with no partner left, adds no pair |
| Draws.StepPaired | pairings.py:181-194 | pairing rank i with its partner extends the draw by that pair |
| Draws.DrawFromPaired | pairings.py:181-194 | a found partner is a lower rank, and the pass continues with both ranks used |
| Draws.LiftSnoc | pairings.py:182 | appending a rank pair appends its tuple |
| Draws.FindPartner | pairings.py:178-194 | the two inner loops find the nearest opponent not yet met, and otherwise the nearest unused rank |
| Draws.FreeRemove | pairings.py:183-184 | marking one unused rank used lowers the number of free ranks by one |
| Draws.FreeSame | pairings.py:172-195 | ranks already passed do not change the count of free ranks ahead |
| Draws.FreeNone | pairings.py:172-195 | with every rank ahead used, no rank is free |
| Draws.FreeAll | pairings.py:170 | initially every rank is free |
| Draws.NoPartnerAllUsed | pairings.py:187-194 | when both searches fail, every lower rank is already used |
| Draws.DrawCount | pairings.py:172-195 | the pass forms ⌊free/2⌋ pairs |
| Draws.FreeTwo | pairings.py:183-184 | a pairing uses up two free ranks |
| Draws.DrawDisjoint | pairings.py:172-195 | no rank appears in two pairs of the draw |
| Draws.ConsApart | pairings.py:183-184 | a new pair whose two ranks are now used is disjoint from the later pairs |
| Draws.ConsCovered | pairings.py:182 | a rank that is covered stays covered when a pair is put in front |
| Draws.ConsNotCovered | pairings.py:182 | putting a pair in front covers only that pair's two ranks |
| Draws.DrawCoverage | pairings.py:172-195 | with an even number of unused ranks every one is paired. With an odd number exactly one stays unpaired, and every rank below it is used or paired |
| Draws.UnusedCoverage | pairings.py:176-195 | coverage holds from an unused rank |
| Draws.PairedCoverage | pairings.py:181-194 | coverage holds when the rank finds a partner |
| Draws.EndCoverage | pairings.py:172 | coverage holds after the last rank |
| Draws.UsedCoverage | pairings.py:173-175 | a used rank leaves coverage as it is |
| Draws.NoneCoverage | pairings.py:187-195 | a rank with no partner is the one free rank, and it is the rank left over |
| Draws.SomeCoverage | pairings.py:181-194 | pairing a rank keeps coverage |
| Draws.GreedyDrawShape | pairings.py:168-196 | the draw has ⌊n/2⌋ pairs and no rank in two pairs. For an even roster every player is paired; for an odd roster exactly one player is left out |
| Draws.DrawPartners | pairings.py:172-195 | each pair's lower rank is the partner of its upper rank, given the ranks taken by earlier pairs |
| Draws.ConsPartners | pairings.py:181-194 | the partner rule extends over a new first pair |
| Draws.PartnerIsNearest | pairings.py:178-194 | the partner is the nearest untaken, unmet, lower-ranked player if one exists, and otherwise the nearest untaken lower-ranked player |
| Draws.GreedyDrawPartners | pairings.py:168-196 | every pair of the Australian draw obeys the nearest-unmet rule, with the forced-repeat fallback |
| Lagged.InitTallies | pairings.py:211-213 | every player's name maps to wins 0 and spread 0 |
| Lagged.ComputeLaggedStandings | pairings.py:198-237 | `compute_lagged_standings` returns the stable descending sort by the tallies through the limit, or the `KeyError` it raises |
| Lagged.ResetTallies | pairings.py:211-213 | the reset loop builds the zero tallies |
| Lagged.ReplayUpTo | pairings.py:215-234 | the loop with its `break` replays exactly the rounds up to the limit, in ascending order |
| Lagged.ReplayKey | pairings.py:218-234 | one key of the loop replays that round's events |
| Lagged.PrefixFold | pairings.py:215-234 | an exception in a round within the limit is the outcome of the whole lagged replay |
| Lagged.CutPoint | pairings.py:215-217 | the `break` point splits the sorted keys into the keys up to the limit and a first key beyond it |
| Lagged.LagErrorIsFinal | pairings.py:220-234 | after an exception nothing changes |
| Lagged.LagRound | pairings.py:218-234 | the loop over one round's pairings replays that round's events |
| Lagged.LagPosition | pairings.py:221-234 | the body of the inner loop computes one lagged step |
| Lagged.LagSkip | pairings.py:221 | a position with no result, or past the results, changes nothing |
| Lagged.LaggedAustralianPairings | pairings.py:239-283 | below round 3 `lagged_australian_pairings` is `random_pairings`; from round 3 on it is the greedy draw over the standings through round - 1, or their `KeyError` |
| Lagged.LagSkipsOpenBoards | pairings.py:221 | a `None` result contributes nothing to the lagged standings |
| Lagged.LaggedIgnoresLaterRounds | pairings.py:215-217 | the lagged standings depend only on the results of rounds up to the limit |
| Lagged.LagDecisive | pairings.py:224-231 | the winner gains a win (two half-points) and the margin, the loser loses the margin, and the two spreads sum as before |
| Lagged.LagTie | pairings.py:232-234 | a tie gives each side half a win and no spread |
| Lagged.LaggedStandingsRank | pairings.py:236-237 | the lagged standings are a permutation of the players, ordered descending by (wins, spread), and players with equal keys keep their input order |
| Lagged.LagFoldOkIff | pairings.py:220-234 | the lagged replay succeeds exactly when every scored pairing names two players. A BYE pairing is not skipped. Success keeps the set of names |
| PairingSystems.GeneratePairingsSystem | pairings.py:285-317 | the dispatcher returns the full round-robin schedule or the chosen system's round. A missing dictionary counts as empty |
| PairingSystems.LagFoldErrors | pairings.py:220-234 | the lagged replay can only raise `KeyError` |
| PairingSystems.LaggedDrawErrors | pairings.py:252-283 | the lagged draw can only raise the standings' `KeyError` |
| PairingSystems.SystemDrawErrors | pairings.py:304-317 | `ValueError` is raised exactly for an unknown system name, and the only other exception is a lagged `KeyError` from round 3 on |
| Utils.InitStats | utils.py:151-160 | every player's name maps to a fresh record |
| Utils.RecalculatePlayerStats | utils.py:138-265 | `recalculate_player_stats` returns the rebuilt player tuples, or the `KeyError` it raises |
| Utils.ReplayRounds | utils.py:163-240 | the loop over the sorted keys is the replay of every event in ascending round order |
| Utils.RebuildAll | utils.py:243-263 | one rebuilt tuple per player, in input order |
| Utils.ResetStats | utils.py:151-160 | the reset loop builds the fresh records |
| Utils.ErrorIsFinal | utils.py:167-240 | after an exception nothing changes |
| Utils.ReplayRound | utils.py:164-240 | the loop over one round's pairings replays that round's events |
| Utils.ReplaySlot | utils.py:171-240 | one scored position: a BYE is skipped, and otherwise p1, then p2, is looked up and credited. An exception is the outcome of the whole replay |
| Utils.FoldRoundStepWhenPresent | utils.py:168-169 | a position with no result slot, or a `None` slot, changes nothing |
| Utils.SkipsOpenAndByeBoards | utils.py:168-176 | a pairing with a missing or `None` result, or with a BYE side, changes nothing |
| Utils.DecisiveGame | utils.py:179-230 | the winner gains a win (two half-points) and +diff of spread, the loser a loss and -diff, and the net spread change is zero. Each side's record is stated in full: the `W`/`L` `last_result`, and one new scorecard line after the unchanged earlier ones, with the round, the opponent, that text and the spread after the game. Nobody else changes |
| Utils.TieGame | utils.py:199-240 | a tie gives each side half a win, half a loss and no spread change. Each side's record is stated in full: the `T` `last_result`, and one new scorecard line after the unchanged earlier ones, with the opponent and the unchanged spread. Nobody else changes |
| Utils.CreditConsistent | utils.py:179-208 | crediting a game keeps a record consistent: one game per scorecard line, the last line's cumulative is the spread, and its text is the last result |
| Utils.StepConsistent | utils.py:167-240 | one replay step keeps the set of names and every record consistent |
| Utils.CreditBothConsistent | utils.py:179-240 | crediting both sides keeps every record consistent |
| Utils.UpdateConsistent | utils.py:179-240 | replacing one record with a consistent one keeps the table consistent |
| Utils.FoldConsistent | utils.py:163-240 | the whole replay keeps the names and every record consistent |
| Utils.CreditOrdered | utils.py:183-188 | a new scorecard line for a later round keeps the lines in round order |
| Utils.StepOrdered | utils.py:167-240 | a step for round r keeps every scorecard in round order, with no line after r |
| Utils.FoldOrdered | utils.py:163-240 | replayed in ascending round order, every scorecard's lines are in round order |
| Utils.FreshInit | utils.py:151-160 | a fresh record is consistent and has an empty scorecard |
| Utils.RecalculatedFacts | utils.py:243-263 | one tuple per player, in order, keeping id, name, rating, team, number and country. Wins plus losses is one game per scorecard line, the last line's cumulative is the spread, its result is the last result, and the lines are in ascending round order |
| Utils.RebuildAllFacts | utils.py:243-263 | every rebuilt tuple keeps the player's identity and carries a consistent, ordered record |
| Utils.StandingsFacts | utils.py:163-240 | after a successful replay every player's record is consistent and ordered |
| Utils.FoldRecords | utils.py:163-240 | from fresh records, an ordered replay yields consistent, ordered records for every name |
| Utils.RecordsFromFold | utils.py:163-240 | consistent, ordered tables give every player a kept record |
| Utils.RebuildFacts | utils.py:243-263 | a rebuilt tuple keeps the identity fields and carries the record |
| Utils.RecalculateIdempotent | utils.py:138-265 | recalculating from the recalculated players gives the same players again |
| Utils.FoldOkIff | utils.py:167-240 | the replay succeeds exactly when every scored non-BYE pairing names two players, and success keeps the set of names |
| Utils.StandingsOkIff | utils.py:138-240 | `recalculate_player_stats` raises exactly when some scored non-BYE pairing names a side that is not in the roster |
| Utils.StripForbidden | utils.py:42 | the substitution drops every character of `\ / * ? : " < > \|` and keeps a name that has none of them |
| Utils.Underscores | utils.py:42 | `.replace(" ", "_")` changes exactly the spaces |
| Utils.SanitizeFilenameSafe | utils.py:42 | the sanitized name has none of `\ / * ? : " < > \|` and no space, is no longer than the original, and a name that is already safe comes back unchanged |
| Utils.SanitizeFilenameIdempotent | utils.py:42 | sanitizing twice is sanitizing once |
| Utils.StripForbiddenAppend | utils.py:42 | the substitution works character by character |
| Utils.SanitizeFilenameAppend | utils.py:42 | sanitizing distributes over concatenation |
| Utils.UnderscoresAppend | utils.py:42 | the replacement works character by character |
| Utils.MatchIdFirstM | utils.py:72 | the first `M` of an id stands right after the round number and its dash |
| Utils.GenerateMatchIdInjective | utils.py:61-72 | different (round, match) numbers give different ids |
| Utils.MatchIdParts | utils.py:72 | the id is `R`, the round number, `-M` and the match number |
| MainPairings.TeamMembers | main.py:346-351 | a team's member list is no longer than the roster |
| MainPairings.GroupTeams | main.py:346-351 | the grouping loop maps exactly the teams that occur to their members, in player order |
| MainPairings.GroupStep | main.py:347-351 | one more player adds their team and appends their name to that team's list only |
| MainPairings.PySlice | main.py:356 | `members[:team_size]`, including Python's meaning of a negative size |
| MainPairings.Padded | main.py:362 | the rosters as schedule sides, with a BYE side added for an odd count |
| MainPairings.TeamRoundRobinPairings | main.py:346-370 | `team_round_robin_pairings` returns the circle-method schedule of the qualifying rosters, with a starting flag on each pairing, or `[]` when fewer than two teams qualify |
| MainPairings.QualifyTeams | main.py:352-358 | the loop keeps, in teams-list order, the teams with at least `team_size` members, truncated to the first `team_size` |
| MainPairings.ScheduleTeams | main.py:362-370 | the circle method over the rosters, then one flag per pairing |
| MainPairings.FlagRound | main.py:365-369 | each pairing of a round gets `"first"` or `"second"` from `random.choice` |
| MainPairings.NoTeamNoMembers | main.py:354 | `teams.get(team_name, [])`: a team with no player has no members |
| MainPairings.TeamMembersAreOnTeam | main.py:346-351 | every listed member is a player of that team |
| MainPairings.QualifiedRosters | main.py:352-358 | every kept roster is a listed team with at least `team_size` members, truncated, and has exactly `team_size` names |
| MainPairings.QualifiedOrder | main.py:353-356 | the rosters follow `teams_list`: roster k is the truncated team at position ix[k], the positions strictly increase, and every position whose team has enough members is among them, so a team listed twice gets two rosters |
| MainPairings.QualifiedIncludes | main.py:352-358 | every listed team with enough members is kept |
| MainPairings.TeamScheduleAt | main.py:362-369 | team pair j of round r is positions j and n-1-j of that round's rotation, with its flag |
| MainPairings.TeamScheduleShape | main.py:362-370 | over at least two rosters there are n'-1 rounds of n'/2 pairings, every pairing is flagged, and every side is a roster or the BYE |
| MainPairings.TeamsMeet | main.py:362-370 | every two qualifying teams meet in some round |
| MainPairings.TeamRoundRobinShape | main.py:346-370 | the result is `[]` exactly when fewer than two teams qualify, every pairing's flag is `"first"` or `"second"`, and every side is a qualifying roster or the BYE |
| MainPairings.GeneralBranches | main.py:398-407 | the Round Robin, Random and King of the Hills branches, and the error for any other name |
| MainPairings.GenerateGeneralPairings | main.py:397-407 | `generate_general_pairings` draws the chosen system, or raises `ValueError("Invalid general pairing system choice.")` |
| MainPairings.MainGeneratePairingsSystem | main.py:409-424 | main.py's dispatcher returns the team schedule, the player schedule or the chosen player round |
| MainPairings.MainSystemDrawErrors | main.py:409-424 | `ValueError` is raised exactly for Team Round Robin without a team size and for an unknown system name, and there is no other error |
| MainStandings.Bump | main.py:262-279 | `stats[x][...] += ...` raises `KeyError(x)` exactly for a missing name, and otherwise keeps the names |
| MainStandings.Then | main.py:262-279 | the second update succeeds exactly when the first did and the second name is known. A failure is the first error or `KeyError` of the second name, and success keeps the names |
| MainStandings.Card | main.py:282-285 | the two scorecard appends keep the names and touch only the two sides |
| MainStandings.Board | main.py:261-285 | a board is scored exactly when both sides are known, and otherwise raises `KeyError` |
| MainStandings.InitMain | main.py:251-253 | every player's name maps to a fresh record |
| MainStandings.MainRecalcPlayerStats | main.py:251-294 | `recalc_player_stats` computes the rows it writes back, or the exception it raises |
| MainStandings.MResetStats | main.py:252-253 | the reset loop builds the fresh records |
| MainStandings.MRebuildAll | main.py:288-294 | one row per player with wins, losses, spread and scorecard, and the last line's result or `""` |
| MainStandings.MainErrorIsFinal | main.py:254-285 | after an exception nothing changes |
| MainStandings.MReplayRounds | main.py:254-285 | the loop over the sorted keys is the replay of every event in ascending round order |
| MainStandings.MReplayRound | main.py:255-285 | the loop over one round's pairings replays that round's events |
| MainStandings.MReplaySlot | main.py:258-285 | one position; an exception ends the replay |
| MainStandings.MReplayPosition | main.py:259-285 | unpacking an empty slot raises `TypeError`, and otherwise the board is scored |
| MainStandings.ScoreBoard | main.py:261-285 | the statement-by-statement scoring of a board computes `Board` |
| MainStandings.ResultTextWords | main.py:264-281 | the result text starts with `Win `, `Loss ` or `Tie ` according to the side's own score |
| MainStandings.MainDecisiveGame | main.py:266-285 | the winner gains a win and +diff, the loser a loss and -diff. Each gets one line with its own score first and its new spread as cumulative. Nobody else changes |
| MainStandings.MainTieGame | main.py:261-265 | a tie gives each side half a win, no loss and no spread change, plus a `Tie` line |
| MainStandings.BoardConsistent | main.py:261-285 | scoring a board keeps every record consistent: one or two half-points per line, and the last cumulative is the spread |
| MainStandings.SelfConsistent | main.py:261-285 | a board of a player against themself keeps the record consistent |
| MainStandings.TieConsistent | main.py:261-265 | a tie keeps both records consistent |
| MainStandings.DecisiveConsistent | main.py:266-285 | a decisive game keeps both records consistent |
| MainStandings.MainSelfGame | main.py:261-285 | against themself a player gets both lines, and the spread nets to zero |
| MainStandings.AddedConsistent | main.py:282-285 | appending lines with the new spread keeps a record consistent |
| MainStandings.MainFoldConsistent | main.py:254-285 | the whole replay keeps the names and every record consistent |
| MainStandings.MainRecalculatedFacts | main.py:251-294 | one row per player, in order, keeping identity. Each record is consistent, and the last result is the last line's, or `""` |
| MainStandings.MainFoldOkIff | main.py:257-259 | the as-written replay succeeds exactly when every replayed position has a result and names two players |
| MainStandings.MainStepOkIff | main.py:257-259 | one step goes on exactly when its position can be scored |
| MainStandings.AllScorableSnoc | main.py:257 | every position of a longer replay can be scored exactly when every position of the shorter one can and the new one can |
| MainStandings.OpenBoardRaises | main.py:257-259 | any replayed position still awaiting its result makes the recalculation raise |
| MainStandings.ExampleEvents | main.py:254-258 | the example's replay has its two boards in order |
| MainStandings.ExampleRaisesTypeError | main.py:257-259 | four players with one board scored and one open: the recalculation raises `TypeError` |
| MainStandings.ExampleMainFold | main.py:257-259 | the as-written replay of the example's two events raises `TypeError` |
| MainStandings.GuardedFoldOkIff | main.py:257-259 | the corrected replay succeeds exactly when every scored non-BYE board names two players: open and BYE boards never raise |
| MainStandings.GuardedAgrees | main.py:257-259 | where every position is scored and has no BYE, the corrected replay equals the as-written one |
| MainStandings.GuardedConsistent | main.py:254-285 | the corrected replay keeps every record consistent |
| MainStandings.ExampleGuarded | main.py:257-285 | the corrected replay scores the example: A +50 with a win, B -50 with a loss, C and D untouched |
| MainStandings.ExampleFold | main.py:257-285 | the corrected replay of the example's two events |
| MainStandings.FoldTwo | main.py:254-258 | a replay of two events is two steps |
| MainStandings.ExampleInit | main.py:251-253 | the example's initial records |
| MainStandings.ExampleBoard | main.py:266-285 | the example's scored board |
| MainHistory.FullScheduleLength | main.py:1270-1271 | the full schedule has as many rounds as the padded roster minus one |
| MainHistory.CommitFacts | main.py:1276-1277 | after the commit, rounds 1..k hold the schedule's first k rounds, and every other round is as before |
| MainHistory.WithSlots | main.py:1318-1319 | the keys grow by exactly round r, the results of every existing round are kept, and a round with no results gets exactly n slots, all `None` |
| MainHistory.RoundHistory.constructor | main.py:61-63 | nothing paired, nothing scored and current round 0: as the globals start, and as main.py:1124-1126 resets them when a tournament is created |
| MainHistory.RoundHistory.PairRound | main.py:1248-1319 | `pair_round` changes the three globals as `PairStep` says |
| MainHistory.RoundHistory.PairRoundRobin | main.py:1269-1279 | the Round Robin branch commits the dialog's k rounds and makes k current, or changes nothing when the dialog is cancelled |
| MainHistory.RoundHistory.DrawFullSchedule | main.py:1270 | the dispatcher's Round Robin answer is the full schedule |
| MainHistory.RoundHistory.PairDrawn | main.py:1280-1287 | Random and King of the Hills store the drawn round under the selected number and make it current; other systems draw nothing |
| MainHistory.RoundHistory.AddSlots | main.py:1318-1319 | empty result slots are added for a round that has none, and nothing else changes |
| MainHistory.RoundHistory.CommitRounds | main.py:1276-1277 | the loop commits rounds 1..k of the schedule and changes nothing else |
| MainHistory.RoundHistory.UnpairRound | main.py:1322-1334 | `unpair_round` changes the three globals as `UnpairStep` says |
| MainHistory.RoundHistory.SubmitResult | main.py:1450-1470 | `submit_result` changes the results as `SubmitStep` says |
| MainHistory.PairStepValid | main.py:1248-1319 | pairing keeps the paired rounds equal to 1..current, unless a Round Robin commit is shorter than the rounds already paired |
| MainHistory.RoundRobinBelowCurrent | main.py:1276-1278 | a Round Robin commit of k rounds with more rounds already paired leaves a paired round above the new current round |
| MainHistory.UnpairStepValid | main.py:1322-1334 | unpairing keeps the paired rounds equal to 1..current |
| MainHistory.PairOnlyNext | main.py:1254-1256 | pairing is rejected exactly when the selected round is not current + 1, and a rejected pairing changes nothing |
| MainHistory.RoundRobinCommitted | main.py:1269-1319 | Round Robin commits rounds 1..k of the full schedule, keeps every other round, sets current = k and shows round k. Empty slots are added only under the selected round, sized by round k, and no other round gains slots |
| MainHistory.CommitIsCommitted | main.py:1276-1278 | the commit loop's result satisfies the commit property |
| MainHistory.DrawnRoundStored | main.py:1280-1283 | a drawn round is stored under the selected number, which becomes current, and every other round is untouched. A newly paired round gets one `None` slot per pairing |
| MainHistory.PairThenUnpair | main.py:1280-1334 | pairing a new round by draw and then unpairing it restores the history exactly |
| MainHistory.UnpairOnlyLatest | main.py:1325-1334 | unpairing succeeds exactly for the current round when it is paired. It then deletes that round's pairings and results and decrements current; otherwise nothing changes |
| MainHistory.SubmitKeepsRounds | main.py:1450-1470 | submitting never changes the paired rounds or the current round |
| MainHistory.SubmitStored | main.py:1467-1470 | a stored result writes (s1, s2) only at (round, index), on top of fresh `None` slots if the round had none, and no other round's results change |
| MainHistory.SetSlot | main.py:1470 | writing one slot sets it and leaves the others unchanged |
| MainHistory.SubmitRejects | main.py:1452-1466 | a BYE pairing, a non-integer score and an index past the round's end store nothing |

## Left out

- Team-mode `pair_round` (main.py:1259-1267) is not modelled: it stores a
  whole team schedule under one round number, and the team results page
  is a placeholder. The history class models general mode.
- The two `print` warnings of `team_round_robin_pairings` (main.py:358
  and 360) are not modelled (output only). They report a team skipped
  for a short roster and a team list too short to pair; the results of
  both cases are modelled.
- The pairing display in `pair_round` is not modelled: the messages, the
  round menu and the listing of pairings. Its branch for two-element
  tuples is unreachable with the systems modelled here.
- The check for a missing tournament in `pair_round` (main.py:1250-1252)
  is not modelled: the class always stands for an open tournament.
- The `int()` parsing of the selected round and of the two score entries
  is not modelled. The round is an `int` parameter, and the scores are an
  `Option` that is `None` when parsing fails.
- `last_pairing_system` and `last_team_size` are not modelled: nothing in
  the core reads them back.
- The rounds `submit_result` reads are taken to be the current
  `completed_rounds` in ascending key order. In the application they are
  a snapshot taken by `load_rounds`, which is not part of this model.
- The call to `recalc_player_stats()` at the end of `submit_result` is
  not part of the class. That recalculation is
  `MainStandings.MainRecalcPlayerStats`, which takes the players as a
  parameter.
- The database reads and writes in `recalc_player_stats` and the players
  it loads are not modelled (foreign calls). The model computes the rows
  that would be written.
- `json.dumps` of the scorecard is not modelled: a scorecard is kept as a
  sequence of entries.
- The shorter-tuple defaults in utils.py (`player[8] if len(player) > 8
  else ""` and the like) are not modelled: a player always carries every
  field.
- The test `and pairing` (pairings.py:221, main.py:258) is always true:
  a pairing is a non-empty 3-tuple.
- `has_played` is modelled as a search over all recorded rounds, without
  its dictionary iteration order. Its answer does not depend on that
  order.
- The random generator itself is not modelled, and neither are any
  distribution claims. Every `random.choice` and the shuffle are
  parameters.
- The I/O helpers are left out, and so is the rest of the application:
  `get_local_ip`, `get_tournament_folder`, `load_json_file`,
  `save_json_file`, `format_datetime`, `generate_random_id`, the web
  servers, the database modules, the HTML generation and the UI.
- FirstMovers.FewerFirstsMovesFirst: proves the local balancing rule of
  `assign_firsts`. It does not prove that first-move counts end within 1
  of each other over a whole schedule, because the code does not
  guarantee that: ties are broken at random and BYEs are exempt.

## Findings

| source | as written | input that shows it | evidently intended | confidence | as-written member | corrected member |
|---|---|---|---|---|---|---|
| main.py:257-259 | `recalc_player_stats` unpacks `round_results[i]` for every pairing below the slot count, with no check for `None` and no BYE skip. `pair_round` creates every new round as `[None] * len(pairing)`, and a BYE board never receives a result. So the recalculation raises `TypeError` while any board of any round is still open. | players A, B, C, D; round 1 pairings (A, B), (C, D); results `[(400, 350), None]` (or any round with a BYE board) | skip empty slots and BYE pairings, as utils.py's `recalculate_player_stats` does, and score the entered boards | high (not executed) | MainStandings.MainStep, MainStandings.ExampleRaisesTypeError, MainStandings.OpenBoardRaises | MainStandings.GuardedStep, MainStandings.GuardedFoldOkIff, MainStandings.ExampleGuarded |
