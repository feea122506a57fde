# Pirates (Cloak and Dagger) in Dafny

A model of the pirates game of the Cloak and Dagger bot competition. Two
or more bots each command a fleet of pirates on a rectangular, possibly
cyclic, map. Every turn each bot sends a batch of orders: move, attack,
defend, cloak, or summon a bermuda zone. The engine sorts every batch
into valid, ignored and invalid orders. It then runs the turn: movement
and collisions, sobering up, attacks, defense, cloaking, bermuda zones,
treasures, powerups, scripts and respawn. It ends the game when fewer
than two bots remain, when a score reaches the maximum, or at the turn
limit. Around the rules sit the engine's bookkeeping, the Python bot
SDK, the launcher and the replay viewer.

The modules follow the program:

- `Locations`, `PirateClass`, `PlayerClass` (LocationClass.py,
  PirateClass.py, PlayerClass.py): the location value and its hash; the
  pirate record and its identity; and the player object (class `Player`),
  whose living list is searched and popped in place.
- `PiratesEntities`, `PiratesGrid`, `Text`, `MapParser`, `OrderRules`
  (pirates.py):
  - the game's entities and settings, and the map geometry: the
    distances, the circle tests, the direction letters and the move
    check;
  - the map parser, over Python's string operations;
  - the classification of an order batch (`parse_order`,
    `validate_order`, `do_moves`).
- `TurnState`, `OrdersPhase`, `TurnPhases`: the turn rules as functions
  on one world value. A phase is a fold of a per-pirate visit over the
  living (or dead) pirates, in the order of the `living_pirates`
  property.
- `UpkeepProperties`, `TreasureProperties`, `SpawnProperties`: what the
  phases promise:
  - countdowns never go below zero and drop by at most one per turn;
  - treasures are scored, dropped, held at most once, and come back;
  - after `do_orders` no square holds two living pirates, and `do_spawn`
    keeps that when no two dead pirates wait for the same spawn square.
  No lemma shows that this condition holds over a whole turn.
- `PiratesGame`: the `PiratesGame` object as class `Game`. Its phase
  methods walk the pirates in place and are proved to leave the state the
  rule functions describe. It also covers turn start and finish, the
  game-over test, turn significance, and `finish_game`.
- `Standings`: the rank the engine reports, the winners, and each
  player's rotated view of the players.
- `Engine` (engine.py):
  - the level filter of the engine log;
  - each runner's debug-message quota;
  - the per-turn time budget and the grouping of runners;
  - the status changes of eliminated and misbehaving runners;
  - the choice of a bot's language.
- `Sdk` (pythonRunner.py): the bot SDK's geometry, its sail options, its
  id-sorted pirate lists and queries, and `set_sail`.
- `Playgame` (playgame.py): the `Comment` stream, the argument check of
  `main`, the bot name, and the names of the pickled-game dump files.
- `Replay`, `Visualizer`, `ConstTables` (Replay.js, Application.js,
  Const.js): the viewer's order letters, its token parsers and line
  iterator, its score and pirate-count tables, and its default player
  names; the placement of players by final score, the flag reader, the
  speed clamp and the loading guard; and the hexadecimal and colour
  tables.
- `Common`: the option and result types, `list.index`, `list.remove`
  and `str` on integers.

Raised exceptions are `Err` results carrying the message. Python's
`None` and JavaScript's `null`/`undefined` are `None`. Integers are
unbounded, as they are in Python.

## Model

| member | source | states |
|---|---|---|
| Locations.AsTuple | cloakanddaggerskillz/lib/LocationClass.py:26-33 | the pair is (row, col) and rebuilds the same location |
| Locations.Equals | cloakanddaggerskillz/lib/LocationClass.py:35-40 | equal exactly when row and col both match; comparing with a non-location is the TypeError outcome (`None`) and nothing else is |
| Locations.NotEquals | cloakanddaggerskillz/lib/LocationClass.py:42-43 | the negation of `Equals`, failing exactly when `Equals` fails |
| Locations.HashInjective | cloakanddaggerskillz/lib/LocationClass.py:48-55 | for rows 0..99 two locations hash alike exactly when they are equal |
| Locations.HashCollidesPastRow99 | cloakanddaggerskillz/lib/LocationClass.py:48-55 | the documented limit is real: row 100 of column 0 hashes like row 0 of column 1 |
| Locations.GetLocation | cloakanddaggerskillz/lib/LocationClass.py:60-67 | a location's location has the same coordinates |
| PirateClass.NewBasePirate | cloakanddaggerskillz/lib/PirateClass.py:12-61 | the given identity, location and radius, with every countdown 0, no treasure, carry speed 1, no powerups and not lost |
| PirateClass.Equals | cloakanddaggerskillz/lib/PirateClass.py:71-75 | equal exactly when the other object is a pirate with the same id and owner |
| PirateClass.EqualsIgnoresState | cloakanddaggerskillz/lib/PirateClass.py:71-75 | location, timers and treasure play no part in equality |
| PirateClass.EqualsIsEquivalence | cloakanddaggerskillz/lib/PirateClass.py:71-75 | equality is reflexive, symmetric and transitive |
| PirateClass.HashMatchesEquality | cloakanddaggerskillz/lib/PirateClass.py:80-81 | for owner ids 0..9, `id*10 + owner` is equal exactly for equal pirates |
| PiratesEntities.NewPirate | cloakanddaggerskillz/lib/pirates.py:2175-2247 | a pristine pirate on its initial location with speed 6, the sentinel turn -1000 in its attack and defense logs and no powerup timers |
| PiratesEntities.NewTreasure | cloakanddaggerskillz/lib/pirates.py:2085-2120 | available, at its initial location, with the given value and spawn countdown -1 |
| PiratesEntities.Activate | cloakanddaggerskillz/lib/pirates.py:1941-2031 | each powerup records its name, sets its own timer and field (attack radius with reload cleared, rob, carry speed) and leaves location, identity, treasure and drunkenness alone |
| PlayerClass.FirstWithId | cloakanddaggerskillz/lib/PlayerClass.py:54-57 | the index of the first pirate with the id, `None` exactly when there is none |
| PlayerClass.FindWithId | cloakanddaggerskillz/lib/PlayerClass.py:54-57 | some pirate is found exactly when one has the id, and it is a member with that id |
| PlayerClass.RemoveFirstWithIdSpec | cloakanddaggerskillz/lib/PlayerClass.py:68-70 | exactly the first pirate with the id is removed, the rest keep their order; with no such pirate the list is unchanged |
| PlayerClass.Player.constructor | cloakanddaggerskillz/lib/PlayerClass.py:10-43 | score and scripts 0, not killed, empty orders, history and pirate lists |
| PlayerClass.Player.GetLivingPirate | cloakanddaggerskillz/lib/PlayerClass.py:45-57 | `None` exactly when no living pirate has the id, otherwise a living pirate |
| PlayerClass.Player.RemoveLivingPirate | cloakanddaggerskillz/lib/PlayerClass.py:59-70 | returns what `GetLivingPirate` would have returned and removes exactly that pirate; every other field is unchanged |
| PlayerClass.Player.KillPlayer | cloakanddaggerskillz/lib/PlayerClass.py:72-85 | sets the killed flag, after which the player is not alive; nothing else changes |
| PiratesGrid.AxisDistance | cloakanddaggerskillz/lib/pirates.py:350-356 | one axis of a distance is the absolute difference, or on a cyclic map the shorter of the two ways round |
| PiratesGrid.EuclideanDistanceSquared | cloakanddaggerskillz/lib/pirates.py:341-357 | off a cyclic map, the sum of the squared row and column differences |
| PiratesGrid.ManhattanDistance | cloakanddaggerskillz/lib/pirates.py:359-375 | off a cyclic map, the sum of the absolute row and column differences |
| PiratesGrid.DistancesSymmetric | cloakanddaggerskillz/lib/pirates.py:341-375 | both distances are symmetric, and off a cyclic map the Manhattan distance is 0 exactly between equal squares |
| PiratesGrid.CyclicAxisAtMostHalf | cloakanddaggerskillz/lib/pirates.py:368-374 | on a cyclic map an axis between squares of the map contributes at most half its size |
| PiratesGrid.InCircleSymmetric | cloakanddaggerskillz/lib/pirates.py:696-710 | the circle test is symmetric in centre and point and contains its centre for a non-negative radius |
| PiratesGrid.Destination | cloakanddaggerskillz/lib/pirates.py:1394-1405 | the result always lies on the map and equals the plain offset whenever that is already on the map |
| PiratesGrid.GetDirectionLetters | cloakanddaggerskillz/lib/pirates.py:864-927 | the loop over `row1`/`col1` produces exactly the letters of the direction-letter specification |
| PiratesGrid.OffsetIsAim | cloakanddaggerskillz/lib/pirates.py:30-36 | the step offsets used by the model are the `AIM` table's entries |
| PiratesGrid.StepLettersShape | cloakanddaggerskillz/lib/pirates.py:891-925 | off a cyclic map the loop emits all row letters before all column letters, one per unit of distance |
| PiratesGrid.WalkRowsThenCols | cloakanddaggerskillz/lib/pirates.py:891-925 | walking those row letters and then those column letters leads from the start to the target |
| PiratesGrid.DirectionLettersNonCyclic | cloakanddaggerskillz/lib/pirates.py:864-927 | off a cyclic map and between distinct squares: exactly Manhattan-distance letters from n, s, e, w, rows first, and walking them reaches the target |
| PiratesGrid.CheckMoveRepeatOnMap | cloakanddaggerskillz/lib/pirates.py:929-950 | steps in one direction that stay on the map are all accepted by the edge check |
| PiratesGrid.MoveOnMapAccepted | cloakanddaggerskillz/lib/pirates.py:929-950 | off a cyclic map, the letters between two distinct squares of the map always pass the edge check |
| PiratesGrid.MoveToOwnSquareRaises | cloakanddaggerskillz/lib/pirates.py:30-36 | a move to the pirate's own square yields `'-'`, which `AIM` lacks, so the edge check raises the key error |
| Text.StripSpec | cloakanddaggerskillz/lib/pirates.py:422 | `strip` removes exactly the surrounding whitespace and keeps the middle |
| Text.SplitOnJoins | cloakanddaggerskillz/lib/pirates.py:421 | splitting the map text on newlines loses nothing: joining the pieces gives it back |
| Text.WordsOfJoined | cloakanddaggerskillz/lib/pirates.py:442 | words joined by single spaces split back into the same words |
| Text.ParseIntOfDecimal | cloakanddaggerskillz/lib/pirates.py:431 | `int(str(n)) == n` |
| Text.ParseIntBlanksAfterSign | cloakanddaggerskillz/lib/pirates.py:431 | Python 2's `int` skips blanks between the sign and the digits: `int("- 5") == -5` |
| Text.ParseInts | cloakanddaggerskillz/lib/pirates.py:442 | `map(int, ...)` fails exactly when some word is no integer, and otherwise converts each word |
| MapParser.Classify | cloakanddaggerskillz/lib/pirates.py:421-428 | blank lines and comments are skipped; a stripped line without a space cannot be unpacked; otherwise key and data split at the first space |
| MapParser.ClassifyKeyed | cloakanddaggerskillz/lib/pirates.py:428 | a line written as `key data` reads back as that key and data |
| MapParser.CharStep | cloakanddaggerskillz/lib/pirates.py:481-496 | a character of a row is accepted exactly when it is a pirate letter of a known player, `$` or land |
| MapParser.ScanRow | cloakanddaggerskillz/lib/pirates.py:481-498 | the loop over a row's characters computes the row specification |
| MapParser.ScanLine | cloakanddaggerskillz/lib/pirates.py:421-502 | one line of the loop computes the line specification |
| MapParser.ParseMap | cloakanddaggerskillz/lib/pirates.py:378-521 | the whole parse computes the parse specification, the map or the first error |
| MapParser.FirstErrorWins | cloakanddaggerskillz/lib/pirates.py:421-502 | the first line that raises decides the outcome whatever follows |
| MapParser.PlayersLine | cloakanddaggerskillz/lib/pirates.py:436-439 | a player count outside 2..10 raises, any other is recorded |
| MapParser.MapRowRejected | cloakanddaggerskillz/lib/pirates.py:465-479 | an `m` row raises when no player count came before, and when its length differs from `cols` |
| MapParser.ScanCharsSpec | cloakanddaggerskillz/lib/pirates.py:481-496 | a row is read whole exactly when all its characters are map objects; otherwise the first bad character is the error |
| MapParser.BadCharRejected | cloakanddaggerskillz/lib/pirates.py:494-496 | an unknown map character stops the parse with that character |
| MapParser.FinishSpec | cloakanddaggerskillz/lib/pirates.py:504-521 | a non-empty score list of the wrong length, then a row count differing from `rows`, fail exactly then; otherwise the map is returned with `rows` rows |
| MapParser.TreasureCell | cloakanddaggerskillz/lib/pirates.py:486-492 | a `$` becomes the next treasure in reading order, valued by its `treasure` line or 1 |
| MapParser.SettingLineGood | cloakanddaggerskillz/lib/pirates.py:430-502 | setting lines leave the board's treasures and pirates alone |
| MapParser.ParsedMapGood | cloakanddaggerskillz/lib/pirates.py:378-521 | a parsed map numbers its treasures 0, 1, ... in reading order and places every treasure and pirate on one of its rows |
| OrderRules.ParseOrder | cloakanddaggerskillz/lib/pirates.py:666-693 | an unknown `type` is invalid; messages and stops pass; an accepted order has exactly its four keys |
| OrderRules.LookupPirate | cloakanddaggerskillz/lib/pirates.py:754-776 | the pirate named by an argument is a living pirate of the ordering player whose id equals it under Python's `==` (an integer, a boolean as 0 or 1, or a float of integral value), the first with that id; none is found exactly when no living pirate's id equals the argument |
| OrderRules.InitialLocationInCircle | cloakanddaggerskillz/lib/pirates.py:712-726 | true exactly when one of the ordering player's pirates started inside the circle |
| OrderRules.ActiveZoneOwners | cloakanddaggerskillz/lib/pirates.py:815-816 | exactly the owners of the zones that are still active |
| OrderRules.ValidateMove | cloakanddaggerskillz/lib/pirates.py:829-859 | an accepted move has a destination pair, spends its Manhattan length and stays within the turn's budget; a rejected one changes no counter; an edge rejection is exactly the ignored move-out-of-map verdict |
| OrderRules.ValidateAction | cloakanddaggerskillz/lib/pirates.py:767-827 | attack, defense, cloak and bermuda spend no movement; an accepted one marks its pirate, and an accepted cloak or bermuda sets its once-per-batch flag, which was clear |
| OrderRules.ValidateOrder | cloakanddaggerskillz/lib/pirates.py:740-862 | only an accepted order changes the counters: its pirate had not acted and now has, and a move spends its length within the budget; a second order names a pirate that already acted |
| OrderRules.ValidateOrderPirateChecks | cloakanddaggerskillz/lib/pirates.py:754-765 | a missing or drunk pirate is invalid, and a pirate that already acted yields the already-acted verdict |
| OrderRules.ValidateOrderAttack | cloakanddaggerskillz/lib/pirates.py:768-772 | an attack while reloading, or while carrying a treasure, is ignored |
| OrderRules.ValidateOrderCarryingMove | cloakanddaggerskillz/lib/pirates.py:843-846 | a carrying pirate's move longer than its carry speed is invalid |
| OrderRules.ValidateOrderOncePerBatch | cloakanddaggerskillz/lib/pirates.py:794-827 | a second cloak or bermuda in a batch is never valid, and a bermuda zone over the ordering player's own starting squares is ignored |
| OrderRules.FilePartitions | cloakanddaggerskillz/lib/pirates.py:1678-1715 | filing an order puts it in exactly one list and only moves earlier orders between lists |
| OrderRules.RunBatchPartitions | cloakanddaggerskillz/lib/pirates.py:1662-1717 | a batch that did not raise puts every submitted order in exactly one of valid, ignored, invalid (as multisets) |
| OrderRules.BatchStepKeepsInvariant | cloakanddaggerskillz/lib/pirates.py:1678-1715 | each round keeps the batch invariant: valid orders name distinct pirates that acted, removed pirates have no valid order, the counter is within budget and bounds the valid moves' total length |
| OrderRules.RunBatchKeepsInvariant | cloakanddaggerskillz/lib/pirates.py:1662-1717 | the batch invariant holds after any list of orders, so for a non-negative `actions_per_turn` the valid moves' total length never exceeds it off a cyclic map |
| OrderRules.StepLimitInvalidatesMoves | cloakanddaggerskillz/lib/pirates.py:1690-1700 | an over-budget move sends itself and every earlier valid move to `invalid`, leaving no valid move |
| OrderRules.SecondOrderVoidsPirate | cloakanddaggerskillz/lib/pirates.py:1702-1715 | once an order is refused because its pirate already acted, none of that pirate's orders is valid when the batch ends |
| OrderRules.CrashedBatchStays | cloakanddaggerskillz/lib/pirates.py:1678-1681 | after a key error nothing more is filed: the uncaught exception ends the loop |
| TurnState.WithPlayer | cloakanddaggerskillz/lib/pirates.py:1013-1019 | replaces exactly one player's fields and leaves every other player and the rest of the world alone |
| TurnState.SetAt | cloakanddaggerskillz/lib/pirates.py:981-1010 | updates exactly one living pirate in place, every other slot keeps its pirate |
| TurnState.SlotsListFlatten | cloakanddaggerskillz/lib/pirates.py:239-251 | the k-th slot holds the k-th pirate of the `living_pirates` list and every slot appears once |
| TurnState.OccupantsWithPlayer | cloakanddaggerskillz/lib/pirates.py:1013-1019 | replacing one player's living list changes a square's occupants by the difference between the two lists |
| TurnState.CountAtRemove | cloakanddaggerskillz/lib/PlayerClass.py:68-70 | removing a living pirate never adds an occupant to a square |
| TurnState.FirstAt | cloakanddaggerskillz/lib/pirates.py:1107-1108 | the `next(...)` search finds nothing exactly when nobody stands on the square, and otherwise a pirate that does |
| TurnState.Release | cloakanddaggerskillz/lib/pirates.py:1198-1201 | exactly the held treasure becomes available, the others are untouched |
| TurnState.KillPirate | cloakanddaggerskillz/lib/pirates.py:1184-1213 | no player list is lost, dead lists only grow, turn and zones are unchanged |
| TurnState.KillPirateEffects | cloakanddaggerskillz/lib/pirates.py:1184-1213 | the corpse is lost, carries nothing, waits `pirate_spawn_turns` and is its owner's last dead pirate; its treasure is available, its square land, its owner loses exactly that living pirate, no other player changes |
| TurnState.KillPirateOccupants | cloakanddaggerskillz/lib/pirates.py:1184-1213 | killing never adds an occupant to any square |
| TurnState.DrunkPirateEffects | cloakanddaggerskillz/lib/pirates.py:1173-1182 | the pirate joins its owner's drunk list and needs `turns_to_sober` turns; no other pirate or player changes |
| TurnState.SummonBermudaZone | cloakanddaggerskillz/lib/pirates.py:728-738 | a zone of the owner around the pirate is appended with the configured turns and radius, the owner's scripts drop to 0, nothing else changes |
| OrdersPhase.ActingLiving | cloakanddaggerskillz/lib/pirates.py:968-972 | an order's pirate, when found, is a living pirate of that player |
| OrdersPhase.BookPlayerNamesLiving | cloakanddaggerskillz/lib/pirates.py:965-976 | every entry of the order book names a living pirate of the ordering player |
| OrdersPhase.Follow | cloakanddaggerskillz/lib/pirates.py:981-1010 | a pirate keeps its identity, moves to its destination on a move and stays put otherwise; an attack is logged this turn, and a live defense aura logs this turn |
| OrdersPhase.ApplyOrder | cloakanddaggerskillz/lib/pirates.py:997-999 | carrying out an order keeps every player's lists the same length |
| OrdersPhase.ApplyAll | cloakanddaggerskillz/lib/pirates.py:981-1010 | carrying out all orders keeps every player's lists the same length |
| OrdersPhase.EmptyLiving | cloakanddaggerskillz/lib/pirates.py:1013-1014 | every living list is emptied and nothing else changes |
| OrdersPhase.FlattenEmpty | cloakanddaggerskillz/lib/pirates.py:1013-1014 | the emptied world has nobody on any square |
| OrdersPhase.SettleAllBound | cloakanddaggerskillz/lib/pirates.py:1017-1023 | while the moved pirates settle, a square holds no more living pirates than moved pirates that have it to themselves |
| OrdersPhase.OccupantsAfterSettle | cloakanddaggerskillz/lib/pirates.py:1017-1023 | after settling, every square holds at most one living pirate |
| OrdersPhase.OrdersLeaveOnePerSquare | cloakanddaggerskillz/lib/pirates.py:952-1027 | after `do_orders` no two living pirates share a square, whatever the orders and the state before |
| OrdersPhase.SettleSpec | cloakanddaggerskillz/lib/pirates.py:1017-1023 | a moved pirate alone on its square rejoins its owner's living list; one sharing its square is killed: lost, treasure released, `spawn_turns` to revive, its square land |
| TurnPhases.CountdownBounds | cloakanddaggerskillz/lib/pirates.py:1039-1242 | a guarded countdown never goes below zero from a non-negative start and drops by exactly one while positive |
| TurnPhases.Visit | cloakanddaggerskillz/lib/pirates.py:1034-1052 | one visit of a phase loop keeps every player's lists the same length |
| TurnPhases.Run | cloakanddaggerskillz/lib/pirates.py:1034-1052 | a whole phase loop keeps every player's lists the same length |
| TurnPhases.RunStep | cloakanddaggerskillz/lib/pirates.py:1034-1052 | one more slot of a phase loop is one more visit |
| TurnPhases.SoberVisit | cloakanddaggerskillz/lib/pirates.py:1083-1092 | one visit of the sober loop keeps every player's lists the same length |
| TurnPhases.SoberUp | cloakanddaggerskillz/lib/pirates.py:1094-1095 | the second loop of `do_sober` changes nothing but the drunk lists |
| TurnPhases.AttackVisit | cloakanddaggerskillz/lib/pirates.py:1236-1275 | one attacker's visit keeps every player's lists the same length |
| TurnPhases.DrunkAll | cloakanddaggerskillz/lib/pirates.py:1277-1278 | making the hit targets drunk keeps every player's lists the same length |
| TurnPhases.FirstOn | cloakanddaggerskillz/lib/pirates.py:1310-1388 | the `next(...)` search over a snapshot finds a listed index on the square, or there is none |
| TurnPhases.AvailableTreasures | cloakanddaggerskillz/lib/pirates.py:1289 | exactly the indices of the available treasures |
| TurnPhases.TreasureVisit | cloakanddaggerskillz/lib/pirates.py:1295-1318 | one pirate's treasure visit keeps the lists' shapes and sets nobody aside |
| TurnPhases.AvailablePowerups | cloakanddaggerskillz/lib/pirates.py:1336-1337 | exactly the indices of the powerups with `start_turn <= turn < end_turn` |
| TurnPhases.PowerupVisit | cloakanddaggerskillz/lib/pirates.py:1338-1365 | one pirate's powerup visit keeps the lists' shapes and sets nobody aside |
| TurnPhases.PowerupUpkeepCountsDown | cloakanddaggerskillz/lib/pirates.py:1339-1359 | the timer upkeep keeps the pirate's square and owner and its countdowns non-negative; a countdown at zero restores the default attack radius and carrying speed 1 |
| TurnPhases.PowerupUpkeepDropsRob | cloakanddaggerskillz/lib/pirates.py:1345-1359 | an expired rob powerup loses exactly one "rob" entry, also when "speed" is dropped in the same upkeep |
| TurnPhases.PowerupVisitTakes | cloakanddaggerskillz/lib/pirates.py:1336-1365 | a visit changes only a powerup on the map this turn on the pirate's square: it ends this turn and the pirate holds it after its upkeep; with no such powerup the pirate gets its upkeep alone |
| TurnPhases.AvailableScripts | cloakanddaggerskillz/lib/pirates.py:1374-1378 | exactly the indices of the scripts (or anti-scripts) on the map this turn |
| TurnPhases.ScriptVisit | cloakanddaggerskillz/lib/pirates.py:1380-1392 | one pirate's script visit keeps the lists' shapes and sets nobody aside |
| TurnPhases.DeadSlots | cloakanddaggerskillz/lib/pirates.py:253-264 | every listed dead slot names a dead pirate of that player |
| TurnPhases.SpawnVisit | cloakanddaggerskillz/lib/pirates.py:1103-1114 | a dead pirate's visit never shortens a dead list |
| TurnPhases.SpawnRun | cloakanddaggerskillz/lib/pirates.py:1103-1114 | the first loop of `do_spawn` never shortens a dead list |
| UpkeepProperties.WalkLocal | cloakanddaggerskillz/lib/pirates.py:1034-1092 | a phase whose visits touch only the visited pirate steps each living pirate exactly once |
| UpkeepProperties.CloakCountsDown | cloakanddaggerskillz/lib/pirates.py:1045-1052 | `do_cloak` drops the cloak counter by one while positive, never below zero, and changes nothing else of the pirate |
| UpkeepProperties.DefenseCountsDown | cloakanddaggerskillz/lib/pirates.py:1029-1043 | `do_defense` drops the expiration counter by one while positive, never below zero; the reload restarts when the aura was raised this turn and otherwise drops by one while positive |
| UpkeepProperties.SoberCountsDown | cloakanddaggerskillz/lib/pirates.py:1077-1092 | a drunk pirate's sober counter drops by one while positive and never below zero; a sober pirate is untouched |
| UpkeepProperties.DrunkAllOnlySobers | cloakanddaggerskillz/lib/pirates.py:1277-1278 | the second loop of `do_attack` only changes sober counters |
| UpkeepProperties.ReloadCountsDown | cloakanddaggerskillz/lib/pirates.py:1236-1247 | a pirate that did not attack this turn counts its reload down by one while positive, never below zero; an attacker reloads unless its attack powerup is on |
| UpkeepProperties.BermudaRunMarks | cloakanddaggerskillz/lib/pirates.py:1059-1066 | the first loop of `do_bermuda_effect` changes no pirate and sets aside exactly the listed pirates inside another player's active zone |
| UpkeepProperties.BermudaPicksEnemyZone | cloakanddaggerskillz/lib/pirates.py:1054-1070 | exactly the living pirates inside an active zone of another player are killed |
| UpkeepProperties.ZonesCountDown | cloakanddaggerskillz/lib/pirates.py:1072-1075 | every zone's active counter drops by one while positive and never below zero, and nothing else about the zones changes |
| UpkeepProperties.ScriptVisitKeeps | cloakanddaggerskillz/lib/pirates.py:1380-1392 | one pirate's script visit keeps script counts non-negative and moves its owner's count by at most one |
| UpkeepProperties.ScriptsStayNonNegative | cloakanddaggerskillz/lib/pirates.py:1367-1392 | `do_scripts` never takes a script count below zero: an anti-script takes a script only from a player who has one |
| TreasureProperties.UnloadScores | cloakanddaggerskillz/lib/pirates.py:1296-1307 | a carrier on its initial location drops its treasure, its owner's score grows by the treasure's value, the treasure starts its spawn countdown, other scores stay |
| TreasureProperties.DrunkNeverPicks | cloakanddaggerskillz/lib/pirates.py:1308-1312 | a drunk pirate with empty hands changes nothing |
| TreasureProperties.PickMakesUnavailable | cloakanddaggerskillz/lib/pirates.py:1308-1316 | a pirate that picks up is sober, stands on an available treasure from the snapshot, and that treasure becomes unavailable |
| TreasureProperties.TreasureComesBack | cloakanddaggerskillz/lib/pirates.py:1320-1326 | a countdown above one drops by one; at one or zero it ends and the treasure is available again; a finished countdown changes nothing |
| TreasureProperties.TwoOnSquare | cloakanddaggerskillz/lib/pirates.py:1310-1312 | two living pirates on one square make two occupants |
| TreasureProperties.TreasureVisitKeeps | cloakanddaggerskillz/lib/pirates.py:1295-1318 | each visit keeps: no treasure held twice, and a held treasure is unavailable |
| TreasureProperties.TreasureHeldOnce | cloakanddaggerskillz/lib/pirates.py:1280-1326 | from one pirate per square, `do_treasures` never lets two pirates hold the same treasure and keeps every held treasure unavailable |
| SpawnProperties.KillOccupierKeeps | cloakanddaggerskillz/lib/pirates.py:1107-1110 | killing the occupier of a spawn square keeps the spawn invariant |
| SpawnProperties.SpawnVisitKeeps | cloakanddaggerskillz/lib/pirates.py:1103-1114 | each dead pirate's visit keeps the spawn invariant |
| SpawnProperties.SpawnRunKeeps | cloakanddaggerskillz/lib/pirates.py:1103-1114 | the first loop of `do_spawn` keeps the spawn invariant throughout |
| SpawnProperties.ReviveAllOccupants | cloakanddaggerskillz/lib/pirates.py:1117-1124 | reviving adds at most the revived pirates to their spawn squares |
| SpawnProperties.SpawnCountDistinct | cloakanddaggerskillz/lib/pirates.py:1117-1124 | distinct spawn squares are each counted at most once |
| SpawnProperties.SpawnKeepsOnePerSquare | cloakanddaggerskillz/lib/pirates.py:1097-1124 | `do_spawn` keeps at most one living pirate per square: it kills the occupier instead of reviving onto it |
| PiratesGame.Scores | cloakanddaggerskillz/lib/pirates.py:292-300 | player i's score at index i |
| PiratesGame.RecordScores | cloakanddaggerskillz/lib/pirates.py:1536-1538 | every player appends its current score to its history, nothing else changes |
| PiratesGame.Significance | cloakanddaggerskillz/lib/pirates.py:1542-1556 | the ranking and the winners of the scores are stored, and the ranking or winning turn moves to this turn exactly when that value changed |
| PiratesGame.Remaining | cloakanddaggerskillz/lib/pirates.py:1421-1428 | exactly the ids of the players that are alive |
| PiratesGame.GameOverSpec | cloakanddaggerskillz/lib/pirates.py:1431-1451 | the game ends exactly when fewer than two bots remain or a score reaches the maximum; a lone survivor wins with "Bot crashed", none left gives "No bots left", and a game that goes on keeps its records |
| PiratesGame.TurnLimitReason | cloakanddaggerskillz/lib/pirates.py:1503-1507 | "Turn limit reached" followed by the single winner's bot name, or by "there is no winner" |
| PiratesGame.BotNames | cloakanddaggerskillz/lib/pirates.py:312-320 | player i's bot name at index i |
| PiratesGame.FinishGameAsWrittenKeepsEmptyReason | cloakanddaggerskillz/lib/pirates.py:1502 | as written, the `is None` test never holds for the `''` the field starts with, so `finish_game` changes nothing |
| PiratesGame.FinishGameIntendedSpec | cloakanddaggerskillz/lib/pirates.py:1497-1508 | with the test on the empty reason, a game no rule ended reports the turn limit and takes the standings again; any other reason is kept |
| PiratesGame.Game.constructor | cloakanddaggerskillz/lib/pirates.py:43-236 | turn 0, the given players, objects and board, no zones, nobody ranked and an empty end-of-game reason |
| PiratesGame.Game.DoCloak | cloakanddaggerskillz/lib/pirates.py:1045-1052 | the loop over the living pirates leaves the state the cloak rule describes |
| PiratesGame.Game.DoDefense | cloakanddaggerskillz/lib/pirates.py:1029-1043 | the loop leaves the state the defense rule describes |
| PiratesGame.Game.DoSober | cloakanddaggerskillz/lib/pirates.py:1077-1095 | both loops leave the state the sober rule describes |
| PiratesGame.Game.DrunkPirate | cloakanddaggerskillz/lib/pirates.py:1173-1182 | leaves the state `drunk_pirate` describes |
| PiratesGame.Game.DoAttack | cloakanddaggerskillz/lib/pirates.py:1229-1278 | both loops leave the state the attack rule describes |
| PiratesGame.Game.KillPirate | cloakanddaggerskillz/lib/pirates.py:1184-1213 | leaves the state `kill_pirate` describes |
| PiratesGame.Game.DoBermuda | cloakanddaggerskillz/lib/pirates.py:1054-1075 | the three loops leave the state the bermuda rule describes |
| PiratesGame.Game.DoTreasures | cloakanddaggerskillz/lib/pirates.py:1280-1326 | both loops leave the state the treasure rule describes |
| PiratesGame.Game.DoPowerups | cloakanddaggerskillz/lib/pirates.py:1328-1365 | the loop leaves the state the powerup rule describes |
| PiratesGame.Game.DoScripts | cloakanddaggerskillz/lib/pirates.py:1367-1392 | the loop leaves the state the script rule describes |
| PiratesGame.Game.DoSpawn | cloakanddaggerskillz/lib/pirates.py:1097-1124 | both loops leave the state the spawn rule describes |
| PiratesGame.Game.SummonBermudaZone | cloakanddaggerskillz/lib/pirates.py:728-738 | leaves the state `summon_bermuda_zone` describes |
| PiratesGame.Game.BuildBook | cloakanddaggerskillz/lib/pirates.py:965-976 | the order dictionary is the order-book specification |
| PiratesGame.Game.DoOrders | cloakanddaggerskillz/lib/pirates.py:952-1027 | leaves the state the orders rule describes, in which no two living pirates share a square |
| PiratesGame.Game.DoMoves | cloakanddaggerskillz/lib/pirates.py:1650-1720 | the loop computes the batch specification: on a key error the players are unchanged and the key is returned; otherwise the valid list becomes the player's orders and the three lists are returned |
| PiratesGame.Game.StartTurn | cloakanddaggerskillz/lib/pirates.py:1510-1517 | the turn advances by one and every player's orders are cleared |
| PiratesGame.Game.CalculateTurnSignificance | cloakanddaggerskillz/lib/pirates.py:1542-1556 | the records become the significance of the current scores, the world is unchanged |
| PiratesGame.Game.RecordScoreHistory | cloakanddaggerskillz/lib/pirates.py:1536-1538 | every player logs its score |
| PiratesGame.Game.FinishTurn | cloakanddaggerskillz/lib/pirates.py:1519-1540 | the phases run in the source's order, then the score history and the standings are taken |
| PiratesGame.Game.GameOver | cloakanddaggerskillz/lib/pirates.py:1431-1451 | returns and records what the game-over check computes, the world is unchanged |
| PiratesGame.Game.FinishGame | cloakanddaggerskillz/lib/pirates.py:1497-1508 | the corrected `finish_game` |
| PiratesGame.Game.AddInitialPirate | cloakanddaggerskillz/lib/pirates.py:1137-1155 | a new pirate of the owner stands on the location, joins its all and living lists, and the board marks the owner |
| PiratesGame.Game.KillEach | cloakanddaggerskillz/lib/pirates.py:1068-1069 | the pirates marked in the bermuda sweep are killed one after the other, as the kill rule does |
| PiratesGame.Game.SpawnSlot | cloakanddaggerskillz/lib/pirates.py:1103-1114 | one dead pirate's visit: when its wait is over the pirate on its initial location is killed or it is set aside to revive; otherwise its wait counts down |
| PiratesGame.Game.ReviveEach | cloakanddaggerskillz/lib/pirates.py:1117-1124 | each pirate set aside leaves its owner's dead list and a new pirate with its id joins the owner's lists on its initial location |
| PiratesGame.Game.ClearOwnSquares | cloakanddaggerskillz/lib/pirates.py:960-962 | the squares of the living pirates become land, nothing else changes |
| PiratesGame.Game.FollowOrder | cloakanddaggerskillz/lib/pirates.py:981-1010 | the pirate in one slot follows the order the book holds for it |
| PiratesGame.Game.FollowOrders | cloakanddaggerskillz/lib/pirates.py:974-1010 | every living pirate follows the order the book holds for it, in slot order |
| PiratesGame.Game.EmptyLivingLists | cloakanddaggerskillz/lib/pirates.py:1013-1014 | every player's living list is emptied, nothing else changes |
| PiratesGame.Game.SettleMoved | cloakanddaggerskillz/lib/pirates.py:1017-1023 | a moved pirate alone on its square rejoins its owner's living list; pirates sharing a square are killed |
| PiratesGame.Game.MarkOwnSquares | cloakanddaggerskillz/lib/pirates.py:1025-1027 | each living pirate's square is marked with its owner, nothing else changes |
| Engine.PassesMonotone | cloakanddaggerskillz/lib/engine.py:80-145 | a message that a logger writes at one severity it also writes at every higher one; level 0 or 1 writes everything, a level above 4 nothing |
| Engine.EngineLogger.constructor | cloakanddaggerskillz/lib/engine.py:89-100 | a new logger has the given level and has written nothing |
| Engine.EngineLogger.Log | cloakanddaggerskillz/lib/engine.py:107-145 | debug, info, warning and error append the message exactly when the logger's level is at most the message's severity, and otherwise write nothing |
| Engine.TotalLength | cloakanddaggerskillz/lib/engine.py:275 | the total length of a batch is zero exactly when every message in it is empty |
| Engine.AddDebugSpec | cloakanddaggerskillz/lib/engine.py:258-288 | an empty batch changes nothing; a batch is stored whole, tagged with the next turn and its level, exactly when both counters stay within the limits; the first batch that exceeds one is replaced by a single level-2 limit entry and freezes the runner; the quota is kept |
| Engine.ReachedStaysFrozen | cloakanddaggerskillz/lib/engine.py:274-288 | once the debug limit is reached, no later batch changes the runner's debug state |
| Engine.QuotaHoldsOverRun | cloakanddaggerskillz/lib/engine.py:258-288 | over any sequence of batches the quota is kept, stored messages are only appended to, and a frozen runner stays as it is |
| Engine.Runner.constructor | cloakanddaggerskillz/lib/engine.py:181-222 | a new runner is at turn 0 with the given status and id, no debug messages, zero counters, and within its quota |
| Engine.Runner.AddDebugMsg | cloakanddaggerskillz/lib/engine.py:258-288 | the runner's debug state becomes the one AddDebugSpec describes; turn and status do not change |
| Engine.TimeLimitSteady | cloakanddaggerskillz/lib/engine.py:871-880 | the budget is three times the shown one, is the same on every turn from the third on, and on the second turn is ten times that steady budget |
| Engine.Groups | cloakanddaggerskillz/lib/engine.py:882-892 | a zero group size is an error; otherwise the groups concatenate to the alive runners in order, each holds between 1 and the group size runners, and all but the last hold exactly the group size |
| Engine.EliminatedStatusSpec | cloakanddaggerskillz/lib/engine.py:841-843 | elimination turns an alive runner into a defeated one, leaves every other status as it was, and is idempotent |
| Engine.HandleEliminated | cloakanddaggerskillz/lib/engine.py:828-852 | each live runner whose bot the game no longer counts as alive gets the eliminated status, and its turn is set only when it was alive; runners still alive and all debug states are unchanged |
| Engine.ProcessRunnerOrders | cloakanddaggerskillz/lib/engine.py:966-1003 | the ignored and then the invalid orders go to the debug messages at level 1; the player is killed, marked invalid and stamped with the turn exactly in strict mode with an invalid order |
| Engine.Killed | cloakanddaggerskillz/lib/engine.py:993-997 | only ids of the given runners are killed, and none outside strict mode |
| Engine.ProcessOrders | cloakanddaggerskillz/lib/engine.py:962-1003 | the killed ids are exactly those of the runners with an invalid order in strict mode, in runner order, and exactly those runners are marked invalid |
| Engine.LanguageOfDirectorySpec | cloakanddaggerskillz/lib/engine.py:465-482 | a directory has a language exactly when it holds a source file; Java wins ties with both others, C# wins only over Java strictly and ties with Python, Python must beat both strictly |
| Engine.LanguageOfFileSpec | cloakanddaggerskillz/lib/engine.py:455-463 | a .pyc file is Python, and every recognised single file ends in .py, .pyc, .cs or .java |
| Engine.Extension | cloakanddaggerskillz/lib/engine.py:523 | the extension is empty or starts with a dot and is a suffix of the name |
| Engine.LastIndexOfAt | cloakanddaggerskillz/lib/engine.py:523 | the last occurrence of a character is the one with none after it |
| Engine.SelectFiles | cloakanddaggerskillz/lib/engine.py:504-528 | the loop selects exactly the joined paths of the names with the extension, in order |
| Engine.SelectedSpec | cloakanddaggerskillz/lib/engine.py:504-528 | never more paths than names; every name with the extension contributes its path, and every path comes from such a name |
| Standings.SortDescendingSpec | cloakanddaggerskillz/lib/engine.py:665 | the descending sort is non-increasing, a permutation of the scores, and keeps every count of higher scores |
| Standings.FirstIndexInSorted | cloakanddaggerskillz/lib/engine.py:665 | in a non-increasing list the first position of a score is the number of scores above it |
| Standings.Ranking | cloakanddaggerskillz/lib/engine.py:665 | one rank per score |
| Standings.RankingCountsHigher | cloakanddaggerskillz/lib/engine.py:665 | a player's rank is the number of strictly higher scores |
| Standings.RankingOrder | cloakanddaggerskillz/lib/engine.py:665 | equal scores share a rank, a higher score has a strictly smaller rank, and an unbeaten score has rank 0 |
| Standings.MaxScore | cloakanddaggerskillz/lib/pirates.py:1448 | the maximum is one of the scores and no score exceeds it |
| Standings.WinnersSpec | cloakanddaggerskillz/lib/pirates.py:1553 | the winners are exactly the ids whose score no other beats, in increasing order without repeats, and there is at least one when there are scores |
| Standings.OrderForPlayerRotates | cloakanddaggerskillz/lib/pirates.py:1737-1752 | each player sees itself as player 0: entry i is the datum of player (i + pid) mod n, and entries past the players are empty |
| Standings.KeyBelow | cloakanddaggerskillz/lib/pirates.py:233-235 | every entry of a perspective key is a player index |
| Standings.KeyIndex | cloakanddaggerskillz/lib/pirates.py:233-235 | in player pid's key, player (i + pid) mod n is the first and only one seen as i |
| Common.IndexOf | cloakanddaggerskillz/lib/pirates.py:1749-1752 | list.index: the position found holds the element and no earlier one does, and there is none exactly when the element is absent |
| Common.IndexOfAt | cloakanddaggerskillz/lib/pirates.py:1749-1752 | the first occurrence is the one with none before it |
| Common.RemoveFirst | cloakanddaggerskillz/lib/pirates.py:1077-1095 | list.remove takes away one copy of a present element; where Python would raise `ValueError` for an absent element the model returns the list unchanged, a case no call site reaches |
| Common.IntToDecimal | cloakanddaggerskillz/lib/playgame.py:409 | str on an int is non-empty and starts with a minus sign exactly for negative numbers |
| Sdk.DistanceSpec | cloakanddaggerskillz/lib/pythonRunner.py:782-803 | the distance is symmetric, the Manhattan distance off a cyclic map, the shorter way round on each axis of a cyclic one, and equal to the rules' distance |
| Sdk.PyMod | cloakanddaggerskillz/lib/pythonRunner.py:819-820 | Python's modulo by a positive size lands on the map and leaves a coordinate already on it unchanged |
| Sdk.Destination | cloakanddaggerskillz/lib/pythonRunner.py:805-823 | the loop over the letters yields the destination function's location, or none once a letter is not in AIM |
| Sdk.DestinationStopped | cloakanddaggerskillz/lib/pythonRunner.py:817-818 | once a prefix of the letters fails, the whole sequence fails |
| Sdk.DestinationIsWalk | cloakanddaggerskillz/lib/pythonRunner.py:805-823 | off a cyclic map, letters from AIM lead exactly where the rules' walk leads |
| Sdk.StandStill | cloakanddaggerskillz/lib/pythonRunner.py:22-26 | the '-' letter leaves a location where it is |
| Sdk.CyclicDestinationOnMap | cloakanddaggerskillz/lib/pythonRunner.py:819-820 | on a cyclic map every location reached by at least one step is on the map |
| Sdk.DestinationAppend | cloakanddaggerskillz/lib/pythonRunner.py:805-823 | following s and then t is following s + t |
| Sdk.InRangeSpec | cloakanddaggerskillz/lib/pythonRunner.py:825-842 | a location is never in range of itself, the test is symmetric, and distinct locations inside the attack circle are in range |
| Sdk.Dedupe | cloakanddaggerskillz/lib/pythonRunner.py:718-721 | the deduplicated letters are exactly the letters of the input, and non-empty for a non-empty input |
| Sdk.DedupeLetters | cloakanddaggerskillz/lib/pythonRunner.py:718-721 | the loop builds the letters without repeats in order of first appearance |
| Sdk.AllSome | cloakanddaggerskillz/lib/pythonRunner.py:727-730 | a successful result has one location per candidate, each the candidate's value |
| Sdk.Candidates | cloakanddaggerskillz/lib/pythonRunner.py:726-730 | a window shorter than the move count gives its own destination; otherwise one candidate per run of that many consecutive letters |
| Sdk.Pivot | cloakanddaggerskillz/lib/pythonRunner.py:723 | the pivot is a position of the direction letters |
| Sdk.GetSailOptions | cloakanddaggerskillz/lib/pythonRunner.py:697-738 | the method computes the options of the sail-options function |
| Sdk.SailOptionsTrivial | cloakanddaggerskillz/lib/pythonRunner.py:711-715 | a negative move count fails the assertion, and a pirate already at the target gets its own location as the only option |
| Sdk.DirectionsReach | cloakanddaggerskillz/lib/pythonRunner.py:369-433 | off a cyclic map the direction letters are as many as the distance and lead to the target |
| Sdk.SailOptionsReach | cloakanddaggerskillz/lib/pythonRunner.py:697-738 | off a cyclic map, with moves enough to cover the distance, the only option is the target itself |
| Sdk.Filter | cloakanddaggerskillz/lib/pythonRunner.py:455-570 | a query keeps only pirates of the list that meet its condition, never more than the list |
| Sdk.FilterSplit | cloakanddaggerskillz/lib/pythonRunner.py:455-570 | a condition and its negation split a list: together they hold every pirate exactly as often as the list |
| Sdk.FilterKeeps | cloakanddaggerskillz/lib/pythonRunner.py:455-570 | every pirate that meets the condition is kept |
| Sdk.InsertByIdSpec | cloakanddaggerskillz/lib/pythonRunner.py:67-76 | insertion adds the pirate once and keeps an id-sorted list sorted |
| Sdk.SortById | cloakanddaggerskillz/lib/pythonRunner.py:67-76 | the sorted list is a permutation of the input, ordered by id |
| Sdk.Pirates.SetPirates | cloakanddaggerskillz/lib/pythonRunner.py:263-367 | the orders of the last turn are emptied; the state holds the new pirates, my pirates sorted by id and the others sorted by id; the geometry is unchanged |
| Sdk.Pirates.SetSail | cloakanddaggerskillz/lib/pythonRunner.py:740-754 | a move order is appended unless the pirate is already at the destination, in which case nothing changes |
| Sdk.Pirates.GetMyPirate | cloakanddaggerskillz/lib/pythonRunner.py:572-583 | no pirate exactly for an index outside the id-sorted list of mine |
| Sdk.Pirates.GetEnemyPirate | cloakanddaggerskillz/lib/pythonRunner.py:585-596 | no pirate exactly for an index outside the id-sorted list of the enemy's |
| Sdk.UpdateSplitsByOwner | cloakanddaggerskillz/lib/pythonRunner.py:364-367 | after an update my list holds exactly my pirates and the enemy list exactly the others, together every pirate once |
| Sdk.QueriesPartition | cloakanddaggerskillz/lib/pythonRunner.py:455-570 | living and lost split my pirates and the enemy's, drunk and sober split my living pirates, and each query returns pirates with its property |
| Sdk.GetMyPirateIsMine | cloakanddaggerskillz/lib/pythonRunner.py:572-583 | after an update get_my_pirate returns one of my pirates, and ids never decrease along the index |
| Playgame.PrefixedAppend | cloakanddaggerskillz/lib/playgame.py:89-100 | writing s and then t sends the same characters, and leaves the same last character, as writing s + t |
| Playgame.UncommentPrefixed | cloakanddaggerskillz/lib/playgame.py:96-100 | every character written reaches the file unchanged and in order: removing the line prefixes gives the data back |
| Playgame.LinesCommented | cloakanddaggerskillz/lib/playgame.py:96-100 | every line the stream starts begins with "# ", at the very start after a newline and after every newline followed by more data |
| Playgame.Comment.constructor | cloakanddaggerskillz/lib/playgame.py:85-87 | a new stream has written nothing and acts as if the last character was a newline |
| Playgame.Comment.Write | cloakanddaggerskillz/lib/playgame.py:89-100 | the file receives the data with "# " before each line start, and the last character becomes the data's last one |
| Playgame.WritesCompose | cloakanddaggerskillz/lib/playgame.py:89-100 | two writes leave the stream as one write of both pieces, and an empty write changes nothing |
| Playgame.FirstMissing | cloakanddaggerskillz/lib/playgame.py:183-186 | no index exactly when every path exists; otherwise an index of a missing path |
| Playgame.CheckBots | cloakanddaggerskillz/lib/playgame.py:180-190 | the loop over the bots reaches the verdict of the argument checks |
| Playgame.CheckArgumentsSpec | cloakanddaggerskillz/lib/playgame.py:180-190 | the game runs exactly when there are two bots and both bots and the map exist; any other bot count gives "No 2 bots are present!" |
| Playgame.Basename | cloakanddaggerskillz/lib/playgame.py:235 | the basename has no '/' and ends the path |
| Playgame.BotNameSpec | cloakanddaggerskillz/lib/playgame.py:235 | the bot name has neither '/' nor '.', starts the basename, and the basename goes on with '.' unless it is the whole of it |
| Playgame.BotNameOf | cloakanddaggerskillz/lib/playgame.py:235 | a bot at dir/name.ext, with a name free of '/' and '.', is called name |
| Playgame.SplitExtRoot | cloakanddaggerskillz/lib/playgame.py:402 | the root is a prefix of the path |
| Playgame.DumpTable | cloakanddaggerskillz/lib/playgame.py:402-408 | the table has exactly the requested turns as keys, each mapped to its dump file name |
| Playgame.BuildDumpTable | cloakanddaggerskillz/lib/playgame.py:395-409 | an empty or missing turn list raises "Please supply the turns…", a turn that is no integer raises, and otherwise the loop gives the dump table of the parsed turns next to the output file's root |
| Playgame.DumpLoop | cloakanddaggerskillz/lib/playgame.py:403-408 | the loop fills exactly the dump table |
| Playgame.DumpFileNamesDistinct | cloakanddaggerskillz/lib/playgame.py:403-408 | different turns are dumped to different files |
| Visualizer.FinalScores | cloakanddaggerskillz/lib/visualizer/js/Application.js:515-523 | one final score per player: the last row of the score table, plus the bonus when the replay has one |
| Visualizer.Slot | cloakanddaggerskillz/lib/visualizer/js/Application.js:526-537 | a player's slot lies between the number of higher scores and the number of players |
| Visualizer.SlotOrder | cloakanddaggerskillz/lib/visualizer/js/Application.js:526-537 | a higher score gets an earlier slot, equal scores keep their order, and no two players share a slot |
| Visualizer.SlotsFill | cloakanddaggerskillz/lib/visualizer/js/Application.js:526-537 | every slot is taken by some player |
| Visualizer.CountRank | cloakanddaggerskillz/lib/visualizer/js/Application.js:528-533 | a player's rank is one more than the number of players with a strictly higher score |
| Visualizer.PlaceOrder | cloakanddaggerskillz/lib/visualizer/js/Application.js:524-537 | each rank is one more than the number of strictly higher scores, every player sits in its slot, and every slot holds a player placed there |
| Visualizer.Probe | cloakanddaggerskillz/lib/visualizer/js/Application.js:534-536 | the probe from the first slot of the player's score stops, in bounds, at the player's own slot |
| Visualizer.OrderSpec | cloakanddaggerskillz/lib/visualizer/js/Application.js:524-537 | the resulting order lists every player exactly once with the scores non-increasing along it |
| Visualizer.ToBoolSpec | cloakanddaggerskillz/lib/visualizer/js/Application.js:1133-1135 | "true" and "1" read as true, "false", "0", "", "TRUE" and "yes" as false |
| Visualizer.ViewerState.constructor | cloakanddaggerskillz/lib/visualizer/js/Application.js:322-345 | a new viewer is idle, with no replay text and the given speed settings |
| Visualizer.ViewerState.CleanUp | cloakanddaggerskillz/lib/visualizer/js/Application.js:325-345 | the viewer is cleaning up, the replay text is gone and the speed is kept |
| Visualizer.ViewerState.Preload | cloakanddaggerskillz/lib/visualizer/js/Application.js:354-359 | busy exactly when not idle, and then nothing changes; from idle it cleans up and starts loading |
| Visualizer.ViewerState.ModifySpeed | cloakanddaggerskillz/lib/visualizer/js/Application.js:650-655 | the speed factor moves by the modifier, raised to the slowest and then lowered to the fastest factor; nothing else changes |
| Visualizer.ClampSpec | cloakanddaggerskillz/lib/visualizer/js/Application.js:652-653 | the clamped factor never exceeds the fastest, is at least the slowest when slowest <= fastest, and is the requested value when that lies between them |
| ConstTables.HexDigit | cloakanddaggerskillz/lib/visualizer/js/Const.js:10-16 | a digit is 0-9 or a-f |
| ConstTables.ToHex | cloakanddaggerskillz/lib/visualizer/js/Const.js:10-16 | toString(16) gives at least one digit |
| ConstTables.HexDigitRoundTrip | cloakanddaggerskillz/lib/visualizer/js/Const.js:10-16 | a hexadecimal digit reads back as its value |
| ConstTables.HexEntrySpec | cloakanddaggerskillz/lib/visualizer/js/Const.js:10-16 | every entry is two lower-case hexadecimal digits that read back as its index, and starts with '0' exactly below 16 |
| ConstTables.FillIntToHex | cloakanddaggerskillz/lib/visualizer/js/Const.js:10-16 | the two loops fill 256 entries, each the two-digit hexadecimal text of its index, with a leading '0' exactly below 16 |
| ConstTables.ColorMapsSpec | cloakanddaggerskillz/lib/visualizer/js/Const.js:23-61 | the colour map for k players has k entries, the first entry is a highlight, and every index names a palette colour with at least three components |
| Replay.FromCharSpec | cloakanddaggerskillz/lib/visualizer/js/Replay.js:25-79 | the viewer moves by the rules' step for each order letter, both cases of a letter mean the same, exactly the seven letters in either case and '-' are accepted, and '-' alone means no move |
| Replay.SplitToken | cloakanddaggerskillz/lib/visualizer/js/Replay.js:137 | the token is a prefix of the text without whitespace; the rest does not start with whitespace and is what `(.*)` takes after the spaces, so it stops before the first line terminator; in text without a line terminator the rest is a suffix of the text |
| Replay.LineHead | cloakanddaggerskillz/lib/visualizer/js/Replay.js:137 | `(.*)` takes a prefix without line terminators (`\n`, `\r`, U+2028, U+2029) that ends at the first one or at the end of the text |
| Replay.LineHeadWhole | cloakanddaggerskillz/lib/visualizer/js/Replay.js:137 | text without a line terminator is taken whole |
| Replay.SplitTokenStopsAtReturn | cloakanddaggerskillz/lib/visualizer/js/Replay.js:137 | for a token, blanks, text and a carriage return, the rest is the text alone: what follows the carriage return is dropped |
| Replay.DigitIn | cloakanddaggerskillz/lib/visualizer/js/Replay.js:93-94 | a digit's value is below the base |
| Replay.DigitRun | cloakanddaggerskillz/lib/visualizer/js/Replay.js:93-94 | parseInt's digit run is a prefix of the token made of digits only |
| Replay.ParseUint | cloakanddaggerskillz/lib/visualizer/js/Replay.js:92-99 | UINT succeeds exactly when parseInt reads a non-negative number from the leading token, and then leaves the text after it |
| Replay.ParsePosInt | cloakanddaggerskillz/lib/visualizer/js/Replay.js:100-106 | POSINT succeeds exactly when UINT does with a value above 0, and then gives UINT's result |
| Replay.ApplyFalsy | cloakanddaggerskillz/lib/visualizer/js/Replay.js:1013-1016 | a parser given an empty or missing parameter block leaves nothing behind |
| Replay.AsPrefixSpec | cloakanddaggerskillz/lib/visualizer/js/Replay.js:1012-1020 | parsers are skipped only once nothing is left, and every mandatory parser (all but the last optional ones) is applied |
| Replay.AsPrefixStep | cloakanddaggerskillz/lib/visualizer/js/Replay.js:1013-1018 | each step either applies its parser, appending the value and continuing with the rest, or skips it and keeps the state |
| Replay.AsSpec | cloakanddaggerskillz/lib/visualizer/js/Replay.js:1009-1022 | a successful as yields at most one value per parser, at least one per mandatory parser, and exactly one per parser when none is optional |
| Replay.AsPrefixMonotone | cloakanddaggerskillz/lib/visualizer/js/Replay.js:1013-1020 | a later step succeeds only if every earlier one did, and never has fewer values |
| Replay.AsPrefixStopped | cloakanddaggerskillz/lib/visualizer/js/Replay.js:1015 | once a parser fails, the whole of as fails with its error |
| Replay.SplitKeyword | cloakanddaggerskillz/lib/visualizer/js/Replay.js:964-974 | a line has a keyword exactly when it has a non-space character, and the keyword is a non-empty run without whitespace |
| Replay.TokenLine.constructor | cloakanddaggerskillz/lib/visualizer/js/Replay.js:964-969 | a token line holds the lower-cased keyword and the parameter text, with no values yet |
| Replay.TokenLine.ApplyParsers | cloakanddaggerskillz/lib/visualizer/js/Replay.js:1009-1022 | the line's values become those of as when it succeeds, and as's error is returned otherwise |
| Replay.RunParsers | cloakanddaggerskillz/lib/visualizer/js/Replay.js:1011-1021 | the loop of as returns the values of the parsers applied left to right, skipping the optional tail once the text is used up, or the first parser's error, or the leftover-text error |
| Replay.LineIterator.constructor | cloakanddaggerskillz/lib/visualizer/js/Replay.js:913-924 | a new iterator holds the lines and stands at the first |
| Replay.LineIterator.Moar | cloakanddaggerskillz/lib/visualizer/js/Replay.js:950-952 | lines are left exactly when the position is before the end |
| Replay.LineIterator.GimmeNext | cloakanddaggerskillz/lib/visualizer/js/Replay.js:938-943 | the next line is returned and the position advances, or past the end an error and nothing moves |
| Replay.LineIterator.ReadRest | cloakanddaggerskillz/lib/visualizer/js/Replay.js:655-664 | reading while lines are left yields every remaining line once, in order, and ends at the end |
| Replay.TransposeScores | cloakanddaggerskillz/lib/visualizer/js/Replay.js:472-481 | the per-turn table holds each player's recorded score for its recorded turns, and its last recorded score on every turn after |
| Replay.OwnersSumTotal | cloakanddaggerskillz/lib/visualizer/js/Replay.js:483-489 | summed over the players, the per-owner counts of a turn give every pirate alive in that turn |
| Replay.CountPirates | cloakanddaggerskillz/lib/visualizer/js/Replay.js:464-489 | the count of owner o in turn n is the number of pirates of o alive in turn n |
| Replay.FillNames | cloakanddaggerskillz/lib/visualizer/js/Replay.js:555-557 | every player gets its given name, or "player i+1" when it has none, and names past the players are kept |
| Replay.DefaultNamesDistinct | cloakanddaggerskillz/lib/visualizer/js/Replay.js:555-557 | every player ends up with a name, and two players without a given name get different ones |

## Left out

- Process handling, timing and concurrency in the engine are not modelled:
  - the polling of bots, `time.sleep`, and pausing, resuming and killing
    processes;
  - the reading of error streams.

  A runner's outcome is an input: the set of ids the game counts as alive,
  and the verdicts of its batch.
- Message transport is not modelled: the JSON encoding of messages, base64
  debug payloads, and `send`/`recv`. Orders arrive already parsed.
- Output is not modelled:
  - log files, verbose and stream logs, and `RunnerLogger`;
  - pickled dumps, the zip unpacking of bots and the visualizer launch.

  `EngineLogger.Log` appends to a buffer, and `Comment.Write` appends to a
  character sequence that stands for the file.
- The file system is not modelled. `os.path.exists` is a set of existing
  paths. `recognize_language` for a directory takes the counts of `.java`,
  `.cs` and `.py` files, and `select_files` takes the names of one
  directory. The walk over sub-directories is not modelled.
- Randomness is not modelled: the game seed, and the shuffle of sail
  options when `randomize_sail_options` is set. Sail options are modelled
  with randomisation off.
- `time_remaining`, bot loading through `imp`, the stdin loop of the SDK,
  and `run.py` are not part of this model.
- PiratesGame.Game.DoAttack: only the two-player game is modelled. For more
  players the source raises. The attack visit always takes the other
  player as the enemy.
- PiratesGrid.DirectionLetters: proved to reach the target on a non-cyclic
  map only. On a cyclic map the source's row loop runs off the map, so no
  such claim is made there.
- Iteration order: where the source walks a Python dict or set, the model
  walks the living pirates in list order. This covers `do_orders`'s
  `pirate_orders` and `next_pirate_locations`, and the pirates a phase sets
  aside.
- The replay-only histories are not modelled:
  - the treasure, drink, powerup and attack-radius histories;
  - the order letters, the reason and turn of death, and the drink turns.

  `get_state_changes`, `get_player_state`, `get_replay` and
  `get_player_start` only build JSON-shaped dicts and are left out too.
- PiratesGame.Game: holds the players as values (the per-player lists of
  the turn rules), not as references to `Player` objects. The `Player`
  class and its in-place `remove_living_pirate` and `kill_player` are
  modelled on their own in `PlayerClass`.
- `game.py`, `GameObject.py`, `MovableObject.py`, `MapObject.py` and
  `MyExceptions.py` have no models of their own. Their fields are folded
  into the entity datatypes, and their exceptions into the verdicts of
  `OrderRules`.
- The viewer's rendering is not modelled:
  - the canvas map and all DOM, mouse and zoom code;
  - the keyframe animation of the replay;
  - the colour conversions, which are not part of this model.

  Also left out are the `NUMBER` and `SCORES` parsers, which use
  `parseFloat`, the `ORDERS` parser (Replay.js:115-126), and the
  comment-stripping regular expression of `LineIterator`. The line iterator starts from the lines it produces.
- Replay.SplitToken: whitespace is ASCII whitespace. JavaScript's `\s` also
  matches Unicode spaces.
- Replay.CountPirates: only the revision-3 count is modelled. It requires
  every pirate's owner to be a player and its turns to lie inside the
  replay. Older revisions, where the end turn may be missing, are not
  modelled.
- Replay.TransposeScores: requires no player to have more scores than the
  replay has turns. An empty score list gives `None`, where the viewer
  reads `undefined`.
- Replay.TokenLine.ApplyParsers: when a parser fails, the source has
  already emptied `params` and pushed the values parsed so far. The model
  returns the error and says nothing of `params`; the error ends the
  replay's parse.
- Replay.AsSpec: the lower bound on the number of values is stated only
  for a non-negative `optional`.
- ConstTables.ColorMapsSpec: colour maps exist for up to 10 players, the
  largest count a map may declare.
- Standings.OrderForPlayerRotates: requires at least as many data entries
  as players. With fewer entries the source raises an index error, and the
  model does not represent that error.
- Sdk.SortById: states a permutation in id order. The stability of Python's
  sort among pirates with equal ids is not stated.
- Engine.HandleEliminated: models the status changes only. The end wait,
  the resume and the kill of the eliminated runners are left out.
- PiratesGame.Game.DoMoves: returns the ignored and invalid orders as
  (order, reason) pairs. The source formats each pair as
  `The order: '<order>' was ignored # <reason>` or
  `The order: '<order>' is invalid # <reason>`, where `<order>` is Python's
  printed form of the order dictionary. That form depends on the
  dictionary's key order, so the text is not modelled.
  Engine.ProcessRunnerOrders takes these messages as given strings.
- OrderRules.ValidateMove: every JSON integer counts as an `int`. In
  Python 2 an integer beyond the machine word is a `long`, which the
  destination check `isinstance(destination[0], int)` refuses. The model
  accepts such a destination and then judges it by the map and the budget.
- OrderRules.ValidateOrder: `order_args` is taken to be a JSON object. The
  source never checks this. A list or string of length 0 passes the
  `len(...) > 0` tests, so a defense, cloak or bermuda with `[]` or `""` is
  valid. A `null` or a number raises `TypeError` at `len` (pirates.py:773,
  787, 798, 822, 830), which escapes `do_moves`. A one-element list or
  string on an attack raises `TypeError` at `['target']` (pirates.py:773).
  On a move, `'destination' in` a list passes when the list is
  `["destination"]`, and line 833 then raises `TypeError`.
- Common.RemoveFirst: returns the list unchanged for an absent element,
  where Python's `list.remove` raises `ValueError`. Every call site removes
  an element it found or tested with `in`, so the case is never reached.
- OrderRules: `move_orders_removed` is never set in the source. So every
  over-budget move turns all moves accepted so far in the batch into
  invalid ones, and the model keeps this.
- MapParser: a `cols` line read after some rows changes the width
  afterwards. So the model does not prove that every pirate lies within
  the final width.

## Findings

| source | as written | input that shows it | evidently intended | confidence | as-written member | corrected member |
|---|---|---|---|---|---|---|
| cloakanddaggerskillz/lib/pirates.py:1502 | `finish_game` tests `end_of_game_reason is None`, but the field starts as `''` (line 136) and is never set to `None` | any game that reaches the turn limit without `game_over` setting a reason: the reason stays `''` and the standings are not taken again | test for the empty reason, so that the game reports "Turn limit reached" with the winner or "there is no winner" | not executed | PiratesGame.FinishGameAsWrittenKeepsEmptyReason | PiratesGame.FinishGameIntendedSpec |
