# StereoTanks core, modelled in Dafny

HackArena 2.5 "StereoTanks" is a grid-based tank game played by bots over
WebSockets. This project models three parts of the game's repository and
proves properties about them.

- **The Hard bot's tactical core** (C++, `Bots/Hard/src/bot`). This part
  covers:
  - direction and position arithmetic, and the firing and mine rules;
  - the knowledge map, which remembers tiles, mines and bullet paths
    across ticks;
  - the breadth-first search over (cell, direction) states;
  - the caches built on the first tick;
  - the decision cascade each tank state runs on every tick. The rules
    are tried in order: a sure shot, healing, getting unstuck, dodging,
    searching for a shot, a healing search, a mine, the radar, and zone
    play.

  The bot's random draws are explicit oracle parameters (the fields of
  `Chance`). The search results a decision reads (`Lookups`) are
  parameters too, each constrained to be an answer `bfs` may give: none
  exactly when no reachable state is accepted, otherwise a nearest
  accepted state, its distance and the first move of a shortest walk. So
  each decision is a function of the board, the draws and those answers,
  and it is stated up to which of several equally near states, and which
  first move, `bfs` picks.
- **The game rules** (C#, `GameLogic`). This part covers:
  - direction and enum helpers;
  - ability cooldowns and magazines;
  - the stun, heal and score systems;
  - zone states and zone contexts;
  - bullets, lasers and mines with their systems;
  - collision resolution;
  - tanks, players and teams;
  - the grid, item drops and despawns;
  - the client's game state applier;
  - the deterministic parts of the map generator.

  The model follows the non-STEREO server and client builds. Where only a
  STEREO build has an operation (laser and mine cooldowns, the stun
  bullet), the model follows that form. Where both builds differ, a
  `stereo` flag chooses.
- **The client's connection URL** (`GameClient`). `ConnectionData` builds
  the server URL and its query parameters.

Objects whose fields the source updates in place are classes, with
`modifies` frames. Value records and the pure rules are datatypes and
functions. Each loop is a method, with invariants that tie it to a
specification function, and lemmas prove what the source promises about
that function.

## Model

| member | source | states |
|---|---|---|
| BotGeometry.DirOf | Bots/Hard/src/bot/utils.h:7-9 | the direction with a given enum integer is the inverse of `getDirId` on 0..3 |
| BotGeometry.Rotated | Bots/Hard/src/bot/utils.h:33-36 | a left or right turn always changes the axis: the result is neither the direction itself nor its opposite |
| BotGeometry.TurnsAreModular | Bots/Hard/src/bot/utils.h:19-31 | the tabulated backward and rotation functions equal the source's `(id + 2) % 4`, `(id + 3) % 4` (left) and `(id + 1) % 4` (right) |
| BotGeometry.BackwardTwice | Bots/Hard/src/bot/utils.h:19-21 | `getBackwardDir` applied twice is the identity and never fixes a direction |
| BotGeometry.RotateLeftRight | Bots/Hard/src/bot/utils.h:23-36 | left then right, or right then left, restores the direction; two right turns face backward |
| BotGeometry.StepBack | Bots/Hard/src/bot/utils.h:39-53 | a step along the `DIRECTIONS` delta followed by a step the other way returns to the cell, and a step always changes the cell |
| BotGeometry.Reversed | Bots/Hard/src/bot/utils.h:58-64 | `reversed` always yields a performable action (never a `none` rotation) |
| BotGeometry.ReversedInvolutive | Bots/Hard/src/bot/utils.h:58-71 | the performable actions are exactly `ALL_ACTIONS`, on which `reversed(reversed(a)) == a`; a `none` rotation comes back as `right` |
| BotGeometry.AfterMoveReversed | Bots/Hard/src/bot/utils.h:99-132 | `afterMove(afterMove(p, a), reversed(a)) == p` for every performable action |
| BotGeometry.AfterMoveShape | Bots/Hard/src/bot/utils.h:99-132 | a move changes the cell and keeps the facing, a rotation keeps the cell and changes the facing, so no action is a no-op |
| BotGeometry.GetMoveFollowing | Bots/Hard/src/bot/utils.h:87-97 | `getMoveFollowing` always yields a performable action |
| BotGeometry.MoveFollowingHeadsThere | Bots/Hard/src/bot/utils.h:87-97 | the chosen action either steps one cell in the wanted direction or turns the body to face it |
| BotGeometry.ParallelMeansSameAxis | Bots/Hard/src/bot/utils.h:134-138 | `isParallel` holds iff the directions are equal or opposite, and is symmetric |
| BotGeometry.RotationToReaches | Bots/Hard/src/bot/utils.h:367-372 | `getRotationTo(f, t)` is `none` iff `f == t`; `right` means one right turn reaches `t`; `left` means one left turn reaches `t` or `t` is opposite |
| BotGeometry.BetweenWallsByAxis | Bots/Hard/src/bot/utils.h:394-407 | `isBetweenWalls` holds iff both vertical neighbours, or both horizontal neighbours, are outside the grid or walls |
| BotGeometry.AbilitiesByTankType | Bots/Hard/src/bot/utils.h:417-470 | laser and mine are ready only for heavy tanks, double bullet and radar only for light ones, so no tank has both of a pair |
| BotKnowledge.Fill | Bots/Hard/src/bot/utils.h:165-170 | a `dim` by `dim` grid holding the given value in every cell, as `init` builds each of its three grids |
| BotKnowledge.SetCell | Bots/Hard/src/bot/utils.h:210-214 | writing one cell keeps the grid's shape and every other cell |
| BotKnowledge.Insert | Bots/Hard/src/bot/utils.h:146-155 | `std::set::insert` under the tick-only comparator keeps the tile ordered by tick and adds nothing but the new entry |
| BotKnowledge.InsertSpec | Bots/Hard/src/bot/utils.h:146-155 | after an insertion the tile has an entry for the tick; when it had one the tile is unchanged (the comparator calls equal ticks equal), otherwise exactly the new entry was added |
| BotKnowledge.InsertTick | Bots/Hard/src/bot/utils.h:146-155 | after an insertion the tile has an entry for the inserted tick |
| BotKnowledge.InsertPresent | Bots/Hard/src/bot/utils.h:146-155 | inserting an entry whose tick is present leaves the tile unchanged |
| BotKnowledge.InsertAbsent | Bots/Hard/src/bot/utils.h:146-155 | inserting an entry whose tick is absent grows the tile by one and adds exactly that entry |
| BotKnowledge.FirstNonWall | Bots/Hard/src/bot/utils.h:250-257 | the first snapshot object that is not a wall, or none exactly when every object is a wall |
| BotKnowledge.RefreshFrom | Bots/Hard/src/bot/utils.h:250-257 | inserting the non-wall objects of a visible tile keeps the tile ordered |
| BotKnowledge.RefreshFromTicked | Bots/Hard/src/bot/utils.h:250-257 | once the tile has an entry for the tick, further insertions with that tick change nothing |
| BotKnowledge.RefreshKeepsFirst | Bots/Hard/src/bot/utils.h:248-257 | a visible tile ends with exactly the first non-wall snapshot object tagged with the current tick, or empty when the tile holds only walls |
| BotKnowledge.ForgetKeeps | Bots/Hard/src/bot/utils.h:259-269 | a tile that is not visible keeps, in order, exactly its non-bullet entries seen at most `MAX_TRACK_TIME` ticks ago |
| BotKnowledge.TileBulletsMembers | Bots/Hard/src/bot/utils.h:260-263 | the erased pairs are exactly the tile's bullets, each with the tile's own cell |
| BotKnowledge.TrajectoryIsLocal | Bots/Hard/src/bot/utils.h:172-204 | `isOnBulletTraj` holds iff `numTicks >= 1` and, for some direction whose first step stays on the map, the queried tile itself holds a laser or a bullet flying that way; so every `numTicks >= 1` gives the one-tick answer |
| BotKnowledge.TrajectoryReadsQueriedTile | Bots/Hard/src/bot/utils.h:172-204 | the test reads only the queried tile: two maps of the same size agreeing there agree on the answer |
| BotKnowledge.ObjMasksMembers | Bots/Hard/src/bot/utils.h:228-231 | the masks collected from one tile are exactly those of its tanks that carry a visibility mask |
| BotKnowledge.RowMasksMembers | Bots/Hard/src/bot/utils.h:227-231 | the masks collected from a row are exactly those carried by tanks in its tiles |
| BotKnowledge.MasksMembers | Bots/Hard/src/bot/utils.h:226-244 | the masks collected from the snapshot are exactly those carried by its tanks |
| BotKnowledge.Notified | Bots/Hard/src/bot/utils.h:210-214 | `notifyMine` restarts a counter at `MINE_TRACK_TIME` when it has run out and leaves a live counter alone |
| BotKnowledge.NotifyOnce | Bots/Hard/src/bot/utils.h:250-253 | notifying once per mine object of a tile is the same as notifying once when the tile shows a mine |
| BotKnowledge.Noticed | Bots/Hard/src/bot/utils.h:246-253 | the mine counters after the scan keep the grid's shape |
| BotKnowledge.Scanned | Bots/Hard/src/bot/utils.h:246-272 | the tiles after the scan keep the grid's shape |
| BotKnowledge.CollectBeforeMembers | Bots/Hard/src/bot/utils.h:246-263 | the bullets erased before cell (i, j) of the row-major scan are exactly the remembered bullets of hidden cells before it |
| BotKnowledge.CollectedMembers | Bots/Hard/src/bot/utils.h:246-272 | the scan hands over exactly the remembered bullets of hidden cells, each with its cell |
| BotKnowledge.ProjectFrom | Bots/Hard/src/bot/utils.h:274-284 | projecting one bullet keeps the grid's shape and every tile ordered |
| BotKnowledge.ProjectAll | Bots/Hard/src/bot/utils.h:274-284 | projecting all collected bullets keeps the grid's shape and every tile ordered |
| BotKnowledge.ProjectFromMonotone | Bots/Hard/src/bot/utils.h:274-284 | projecting one bullet keeps every entry already present and adds only the bullet at the current tick |
| BotKnowledge.ProjectAllMonotone | Bots/Hard/src/bot/utils.h:274-284 | the projection keeps every entry already present and adds only bullets at the current tick |
| BotKnowledge.ProjectFromMarks | Bots/Hard/src/bot/utils.h:275-283 | a projected bullet leaves an entry for the current tick on the cells one and two steps ahead, as far as they are on the map |
| BotKnowledge.ProjectAllMarks | Bots/Hard/src/bot/utils.h:274-284 | every collected bullet marks its next one or two on-map cells with the current tick |
| BotKnowledge.VisibleTileAfterUpdate | Bots/Hard/src/bot/utils.h:246-284 | after `update` a visible cell holds at most one entry, tagged with the current tick, and it is the first non-wall snapshot object when there is one |
| BotKnowledge.ProjectAllSettled | Bots/Hard/src/bot/utils.h:274-284 | a tile that already has an entry for the current tick is not changed by the projection |
| BotKnowledge.ProjectFromSettled | Bots/Hard/src/bot/utils.h:275-283 | a tile that already has an entry for the current tick is not changed by one bullet's projection |
| BotKnowledge.ProjectAllOneTick | Bots/Hard/src/bot/utils.h:274-284 | an empty tile ends the projection with at most one entry, at the current tick |
| BotKnowledge.AllScanned | Bots/Hard/src/bot/utils.h:246-272 | every cell after the scan is the refreshed tile when visible and the forgotten tile otherwise |
| BotKnowledge.HiddenTileAfterUpdate | Bots/Hard/src/bot/utils.h:259-284 | after `update` a hidden cell holds exactly its recent non-bullet entries plus possibly bullets projected this tick |
| BotKnowledge.KnowledgeMap.constructor | Bots/Hard/src/bot/utils.h:157-163 | a map before `init` has dimension 0 |
| BotKnowledge.KnowledgeMap.Init | Bots/Hard/src/bot/utils.h:165-170 | `init(dim)` leaves `dim` by `dim` empty tiles, zero mine counters and nothing visible |
| BotKnowledge.KnowledgeMap.IsOnBulletTraj | Bots/Hard/src/bot/utils.h:172-204 | the scan loops return the trajectory predicate, which `TrajectoryIsLocal` characterises |
| BotKnowledge.KnowledgeMap.WillBeHitByBulletInNextMove | Bots/Hard/src/bot/utils.h:206-208 | the answer is the trajectory predicate for one tick |
| BotKnowledge.KnowledgeMap.NotifyMine | Bots/Hard/src/bot/utils.h:210-214 | only the counter of the given cell changes, and it restarts only when it has run out |
| BotKnowledge.KnowledgeMap.Update | Bots/Hard/src/bot/utils.h:220-291 | the map keeps its shape; its visibility is `Visibility` (a cell is visible iff some tank's mask has '1' there), its tiles are `UpdatedTiles` (the scan followed by the projection of the erased bullets) and its counters are `DecayedMines` (every counter is its value, notified where a visible mine lies, minus one) |
| BotKnowledge.KnowledgeMap.ComputeVisibility | Bots/Hard/src/bot/utils.h:223-244 | a cell is visible iff some snapshot tank's mask has '1' there; nothing else changes |
| BotKnowledge.KnowledgeMap.ScanCells | Bots/Hard/src/bot/utils.h:246-272 | the scan returns the hidden cells' bullets in scan order and leaves the scanned tiles and the noticed mine counters |
| BotKnowledge.KnowledgeMap.ScanCell | Bots/Hard/src/bot/utils.h:248-270 | one cell is refreshed (visible) or forgotten (hidden), its bullets returned when hidden, its mine counter notified when it shows a mine |
| BotKnowledge.KnowledgeMap.ProjectBullets | Bots/Hard/src/bot/utils.h:274-284 | the tiles become the projection of the erased bullets; visibility and counters are unchanged |
| BotKnowledge.KnowledgeMap.ProjectBullet | Bots/Hard/src/bot/utils.h:275-283 | one bullet is inserted up to two cells ahead, stopping at the border |
| BotKnowledge.KnowledgeMap.DecayMines | Bots/Hard/src/bot/utils.h:286-290 | every mine counter drops by one and nothing else changes |
| BotKnowledge.RefreshTile | Bots/Hard/src/bot/utils.h:249-257 | the tile loop yields the refreshed tile and notifies the counter iff the tile shows a mine |
| BotKnowledge.ForgetTile | Bots/Hard/src/bot/utils.h:260-269 | the erase loop keeps exactly the recent non-bullet entries, in order, and returns the tile's bullets |
| BotPerception.RayShift | Bots/Hard/src/bot/bot.cpp:131-133 | a ray of `m + 1` steps from a cell is a ray of `m` steps from its neighbour, as the scan loops advance `x += dx, y += dy` |
| BotPerception.ClearShift | Bots/Hard/src/bot/bot.cpp:190-214 | after a passable, undecided first cell, the scan from the cell reaches `j + 1` iff the scan from its neighbour reaches `j` |
| BotPerception.FirstCellCuts | Bots/Hard/src/bot/bot.cpp:190-214 | the scan stops at its first cell when that cell is off the map, a solid wall or not visible, and is decided there when that cell gives a verdict |
| BotPerception.ScanDecides | Bots/Hard/src/bot/bot.cpp:190-216 | the scan answers true iff for some `j` within the bound the cells before `j` are passable and undecided and the `j`-th decides true |
| BotPerception.ScanCarriesOn | Bots/Hard/src/bot/bot.cpp:190-214 | an undecided passable first cell shifts every witness of a true answer by one cell |
| BotPerception.FirstVerdictDecides | Bots/Hard/src/bot/bot.cpp:203-213 | a tile decides through its first friendly tank (false) or enemy on the turret's axis (true), and gives no verdict when it has no such tank |
| BotPerception.SureHitLooksOneCell | Bots/Hard/src/bot/bot.cpp:176-217 | without a ready laser `willFireHitForSure` looks only at the adjacent cell: true iff it is passable and its first decisive tank is an enemy parallel to the turret |
| BotPerception.SegInside | Bots/Hard/src/bot/utils.h:299-358 | every cell a `closestBullet` loop visits is on the map, at distance at least one, and a ray of that length from it in the wanted direction reaches the tank |
| BotPerception.SweepFindsMin | Bots/Hard/src/bot/utils.h:299-358 | one `closestBullet` loop keeps the running answer or replaces it by a strictly nearer qualifying cell, and ends no farther than any qualifying cell it passed |
| BotPerception.IncomingIsInSegment | Bots/Hard/src/bot/utils.h:299-358 | every bullet flying straight at the tank lies in one of the four loops' segments at its distance |
| BotPerception.ClosestIsNearest | Bots/Hard/src/bot/utils.h:294-361 | `closestBullet` answers (1e9, 1e9) or the cell of a non-healing bullet flying straight at the tank, and no such bullet is nearer |
| BotPerception.ClosestPicks | Bots/Hard/src/bot/utils.h:294-361 | the answer is the sentinel or the cell and distance of an incoming bullet |
| BotPerception.ClosestIsMin | Bots/Hard/src/bot/utils.h:294-361 | no incoming bullet is nearer than the answer |
| BotPerception.HealTileMembers | Bots/Hard/src/bot/utils.h:473-479 | the pairs collected from a tile are its healing bullets, each with the tile's cell |
| BotPerception.HealRowMembers | Bots/Hard/src/bot/utils.h:472-481 | the pairs collected from a row prefix are the healing bullets of its cells |
| BotPerception.HealingBulletsMembers | Bots/Hard/src/bot/utils.h:469-484 | `getHealingBullets` holds exactly the snapshot's healing bullets, each with its cell |
| BotPerception.StepsPerTickCounts | Bots/Hard/src/bot/bot.cpp:332 | the inner loop `j < bullet.speed` runs once for every integer below the bullet's speed |
| BotPerception.Flight | Bots/Hard/src/bot/bot.cpp:331-337 | a bullet's flight ends on the map or fails |
| BotPerception.FlightLands | Bots/Hard/src/bot/bot.cpp:331-337 | a successful flight of `n` steps ends `n` cells along the direction, and every cell on the way is on the map and not a solid wall |
| BotPerception.HealingGoalAccepts | Bots/Hard/src/bot/bot.cpp:325-345 | the healing goal accepts a state iff the timer is at most 10 and some bullet lands there on an empty tile while every earlier bullet's flight stays on the map and clear of solid walls |
| BotScans.FirstWantedUnique | Bots/Hard/src/bot/bot.cpp:219-234 | the first accepted tank in scan order is unique: one tile, one object index |
| BotScans.FirstTank | Bots/Hard/src/bot/bot.cpp:219-234 | the row, column and object loops return the first accepted tank in scan order with its cell, and none exactly when no tank is accepted |
| BotScans.FindTeammate | Bots/Hard/src/bot/utils.h:486-500 | `findTeammate` returns the first friendly tank that is not the player's own, in scan order, and none exactly when there is no such tank |
| BotScans.TileHasTarget | Bots/Hard/src/bot/bot.cpp:143-156 | the object loop of `canSeeTank` answers whether the tile holds an enemy (enemy mode) or a wounded ally other than the player's own tank |
| BotScans.TileVerdict | Bots/Hard/src/bot/bot.cpp:203-213 | the object loop of `willFireHitForSure` returns the tile's first verdict: false at a friendly tank, true at an enemy parallel to the turret, none otherwise |
| BotScans.GetHealingBullets | Bots/Hard/src/bot/utils.h:469-484 | the loops return exactly the healing bullets with their cells in scan order, as `HealingBulletsMembers` characterises |
| BotScans.SweepTile | Bots/Hard/src/bot/utils.h:301-311 | a tile with a non-healing bullet heading the wanted way replaces the answer only when strictly nearer |
| BotScans.SweepSegment | Bots/Hard/src/bot/utils.h:299-313 | one `closestBullet` loop computes the sweep that `SweepFindsMin` characterises |
| BotScans.ClosestBulletPos | Bots/Hard/src/bot/utils.h:294-361 | the four loops return the position of the answer `ClosestIsNearest` characterises |
| BotRules.WallCodeZero | Bots/Hard/src/bot/bot.cpp:83-99 | `initWallType` leaves 0 exactly on a tile without walls, and always a code in 0..2 |
| BotRules.WallCodeOfLast | Bots/Hard/src/bot/bot.cpp:87-95 | the last wall object of the tile decides the code: 2 when solid, 1 when penetrable |
| BotRules.LastWallExists | Bots/Hard/src/bot/bot.cpp:87-95 | a tile with a wall has a last wall object |
| BotRules.WallCodeMeaning | Bots/Hard/src/bot/bot.cpp:72-99 | the code is 0 iff the tile has no wall, 2 iff its last wall is solid, 1 iff its last wall is penetrable; so `isWall` and a positive `wallType` agree on every tile |
| BotRules.SightOf | Bots/Hard/src/bot/bot.cpp:123-217 | the view the scans read (dimension, wall codes, visibility, snapshot tiles) is well formed for every board |
| BotRules.ArenaOf | Bots/Hard/src/bot/bot.h:188-208 | the search may enter a cell iff it is on the map, has no wall, no live remembered mine and no bullet trajectory within 10 ticks |
| BotRules.HitAsWritten | Bots/Hard/src/bot/bot.cpp:170-174 | `willBeHitByBullet` as written has no defined answer exactly for the cells off the map that have a neighbour on the map |
| BotRules.HitAgreesWhereDefined | Bots/Hard/src/bot/bot.cpp:170-174 | the guarded test answers as the written one wherever the written one reads inside the grid |
| BotRules.AdmissibleNotHit | Bots/Hard/src/bot/bot.h:206-208 | a cell the search may enter is never predicted hit next tick |
| BotRules.StrategyProbeLeavesGrid | Bots/Hard/src/bot/bot.h:122-133 | when the search accepts its start, `bfsStrategy` probes the reversal of the default `forward` entry; from the top-left corner facing down that is the cell above the grid, where the written test reads outside the knowledge grid |
| BotRules.HitAsWrittenAboveCorner | Bots/Hard/src/bot/utils.h:172-204 | for the cell above the top-left corner the trajectory scan finds an in-grid first step and reads the queried tile outside the grid |
| BotRules.ShootIf | Bots/Hard/src/bot/bot.h:85-119 | `shootIf` gives nothing iff the condition fails or the magazine is empty with neither a usable laser nor a usable double bullet requested; otherwise the laser, then the double bullet, then a plain bullet |
| BotRules.ShootIfByTankType | Bots/Hard/src/bot/utils.h:417-435 | a heavy tank never fires a double bullet and a light tank never uses the laser |
| BotRules.HealIfSeeingAlly | Bots/Hard/src/bot/bot.cpp:440-447 | a healing bullet iff it is ready and a wounded ally is in the turret's line |
| BotRules.UseRadarIfPossible | Bots/Hard/src/bot/bot.cpp:628-634 | the radar iff it is ready, which only a light tank can be |
| BotRules.InsideZoneCells | Bots/Hard/src/bot/bot.cpp:592-606 | the two cells checked by `canMove*InsideZone` are the cells the forward and backward moves lead to |
| BotRules.BeDrunk | Bots/Hard/src/bot/bot.cpp:570-590 | on an even first draw a move into an open direction (random when both are open), otherwise, or when neither is open, a rotation of body and turret by the next two draws |
| BotRules.Wander | Bots/Hard/src/bot/bot.cpp:570-606 | a random move only enters a zone cell of the grid without a wall |
| BotRules.DesiredDirs | Bots/Hard/src/bot/bot.cpp:502-536 | the turret's wanted direction points within 45 degrees of the enemy, the body's is perpendicular to it and does not face away |
| BotRules.DesiredDirsExhaustive | Bots/Hard/src/bot/bot.cpp:508-536 | the four tests of `rotateToEnemy` cover every offset, so the wanted directions are always set |
| BotRules.AlignedMove | Bots/Hard/src/bot/bot.cpp:541-565 | once aligned, a move is on the map and not into a wall; waiting happens iff the first draw is 0 mod 4 and the second 1 mod 3; any rotation is the random wander |
| BotRules.AlignedAims | Bots/Hard/src/bot/bot.cpp:538-541 | when no rotation is needed the turret faces the enemy within 45 degrees and the body does not face away |
| BotRules.MineCell | Bots/Hard/src/bot/bot.cpp:610-614 | the mine lands on the cell the backward move leads to |
| BotRules.NotedMineIsAvoided | Bots/Hard/src/bot/bot.cpp:620 | after `notifyMine` at the mine cell the searches no longer enter it |
| BotRules.FirstSafe | Bots/Hard/src/bot/bot.cpp:671-680 | forward when it is safe, else backward when safe, else nothing |
| BotRules.Dodge | Bots/Hard/src/bot/bot.cpp:636-690 | a safe move iff some direction not skipped for a ready weapon is threatened within two open cells by an enemy aiming back, and nothing otherwise |
| BotRules.DodgeIsSafe | Bots/Hard/src/bot/bot.cpp:671-680 | a dodge destination is on the map, not a wall, not predicted hit and not mined |
| BotRules.CaptureProb | Bots/Hard/src/bot/bot.cpp:706-717 | the capture probability is clamped to [0.1, 0.9] |
| BotRules.CaptureProbWithoutShares | Bots/Hard/src/bot/bot.cpp:706-717 | holding no shares gives the maximum 0.9 |
| BotRules.CaptureProbMonotone | Bots/Hard/src/bot/bot.cpp:706-717 | more own shares never raise the probability |
| BotSearch.ChainCons | Bots/Hard/src/bot/bot.h:188-217 | a tick in front of a chain of ticks is a longer chain |
| BotSearch.ChainSnoc | Bots/Hard/src/bot/bot.h:188-217 | a tick after a chain of ticks is a longer chain |
| BotSearch.ReachStart | Bots/Hard/src/bot/bot.h:170-171 | the start is reached in zero ticks |
| BotSearch.ReachZero | Bots/Hard/src/bot/bot.h:170-171 | only the start is reached in zero ticks |
| BotSearch.ReachStep | Bots/Hard/src/bot/bot.h:188-216 | a tick from a state reached in `k` ticks reaches its successor in `k + 1` |
| BotSearch.ReachPred | Bots/Hard/src/bot/bot.h:188-216 | a state reached in `k > 0` ticks has a predecessor reached in `k - 1` |
| BotSearch.WalkReaches | Bots/Hard/src/bot/bot.h:188-216 | every walk reaches its last state in as many ticks as it has steps |
| BotSearch.ReachHasWalk | Bots/Hard/src/bot/bot.h:188-216 | every state reached in `k` ticks ends a walk of `k` steps |
| BotSearch.ClosedReach | Bots/Hard/src/bot/bot.h:177-218 | a set holding the start and closed under ticks holds every reachable state |
| BotSearch.InGrid | Bots/Hard/src/bot/bot.h:168 | every oriented cell of the grid is one of the `dim * dim * 4` states of `visited` |
| BotSearch.SearchInit | Bots/Hard/src/bot/bot.h:167-175 | the queue with the start at tick 0 and the start marked visited satisfy the search invariant |
| BotSearch.LevelUp | Bots/Hard/src/bot/bot.h:177-179 | when the queue's head is one tick deeper, every state at the current distance has been processed |
| BotSearch.Pop | Bots/Hard/src/bot/bot.h:178-179 | dequeuing the head keeps the invariant with the head held for expansion |
| BotSearch.PopBooks | Bots/Hard/src/bot/bot.h:178-179 | dequeuing keeps the queue's bookkeeping |
| BotSearch.NewIsFar | Bots/Hard/src/bot/bot.h:210-216 | an unvisited successor of the held state lies at least one tick beyond the current level |
| BotSearch.PushBooks | Bots/Hard/src/bot/bot.h:214-216 | marking and enqueuing an unvisited state one tick deeper keeps the bookkeeping |
| BotSearch.PushSound | Bots/Hard/src/bot/bot.h:214-216 | the depth recorded for the enqueued state is the length of a walk |
| BotSearch.PushMinimal | Bots/Hard/src/bot/bot.h:214-216 | no walk is shorter than the depth recorded for the enqueued state |
| BotSearch.Push | Bots/Hard/src/bot/bot.h:210-216 | enqueuing an unvisited successor at the next tick keeps the search invariant |
| BotSearch.PushClosed | Bots/Hard/src/bot/bot.h:214 | marking a state visited keeps the processed states closed |
| BotSearch.PushRejected | Bots/Hard/src/bot/bot.h:181-186 | recording a depth for an unprocessed state keeps every processed state rejected |
| BotSearch.Close | Bots/Hard/src/bot/bot.h:181-217 | a rejected state whose successors are all visited joins the processed states |
| BotSearch.DepthIsDist | Bots/Hard/src/bot/bot.h:216 | a visited state's recorded tick count is its distance from the start |
| BotSearch.TreePush | Bots/Hard/src/bot/bot.h:215 | the back-pointer `reversed(move)` of a newly visited state leads one tick back towards the start |
| BotSearch.EdgesAreActions | Bots/Hard/src/bot/bot.h:188-189 | every tick is one of the four actions of `ALL_ACTIONS` |
| BotSearch.HandledGrows | Bots/Hard/src/bot/bot.h:188-217 | actions already handled stay handled as `visited` grows |
| BotSearch.HandledNext | Bots/Hard/src/bot/bot.h:188-217 | handling the next action extends the handled prefix |
| BotSearch.AllHandled | Bots/Hard/src/bot/bot.h:188-217 | once the four actions are handled, every successor of the held state is visited |
| BotSearch.VisitOld | Bots/Hard/src/bot/bot.h:190-212 | an action whose state is off the grid, walled, mined, on a trajectory or visited changes nothing |
| BotSearch.VisitNew | Bots/Hard/src/bot/bot.h:214-216 | an action whose state is enterable and unvisited marks it, records its back-pointer and enqueues it |
| BotSearch.ActionPerformable | Bots/Hard/src/bot/bot.h:188 | every action of `ALL_ACTIONS` can be performed |
| BotSearch.StartExpanding | Bots/Hard/src/bot/bot.h:188 | the inner loop starts with no action handled |
| BotSearch.Expanded | Bots/Hard/src/bot/bot.h:188-217 | after the inner loop every successor of the held state is visited and the invariant and back-pointers hold |
| BotSearch.Expand | Bots/Hard/src/bot/bot.h:188-217 | the inner loop handles the four actions, enqueuing exactly the newly visited states |
| BotSearch.TraceBack | Bots/Hard/src/bot/bot.h:224-232 | following the back-pointers from `finish` ends at the start along a chain of ticks; the reversed last pointer is the first action of that chain, and `forward` (the default entry) when `finish` is the start |
| BotSearch.Exhausted | Bots/Hard/src/bot/bot.h:177-222 | an empty queue with nothing accepted means no reachable state is accepted at its distance |
| BotSearch.Nearest | Bots/Hard/src/bot/bot.h:181-186 | the accepted state is at its distance and every nearer state was rejected |
| BotSearch.Bfs | Bots/Hard/src/bot/bot.h:165-234 | `bfs` returns an accepted state at its true distance with no nearer accepted state; `eta` is 0 iff the start is accepted, and then the move is `backward`; otherwise the move is the first step of a shortest walk to the result; nothing is returned only when no reachable state is accepted at its distance |
| BotTactics.ActionResponse | Bots/Hard/src/bot/bot.h:140-144 | a move action answers that move; a rotation turns the body only, the turret not at all |
| BotTactics.LastShareIsLast | Bots/Hard/src/bot/bot.cpp:696-703 | the share `initShares` keeps is the previous value when no entry matches and otherwise the value of the last matching entry |
| BotTactics.Strategy | Bots/Hard/src/bot/bot.h:121-145 | `bfsStrategy` answers nothing iff the search found nothing, and otherwise waits or takes the search's first action |
| BotTactics.HealingOnBoard | Bots/Hard/src/bot/utils.h:469-484 | the healing bullets collected from the snapshot lie on the board's cells |
| BotTactics.CascadePriorities | Bots/Hard/src/bot/bot.cpp:267-285 | off every sixth tick the tank captures; on it a sure hit answers before every other rule, and healing an ally in sight before all the rest |
| BotTactics.CapturesOnlyInZone | Bots/Hard/src/bot/bot.cpp:366-400 | on a deciding tick outside the zone no rule answers a capture |
| BotTactics.ReflexNeverMines | Bots/Hard/src/bot/bot.cpp:271-301 | no answer of the reflexes (sure shot, heal, stuck shot or wander, dodge) is a mine drop |
| BotTactics.ZoneMoveNeverMines | Bots/Hard/src/bot/bot.cpp:366-400 | no answer of the zone play (capture, shot, turn, wander, move to the zone) is a mine drop |
| BotTactics.MineOnlyWhenReasonable | Bots/Hard/src/bot/bot.cpp:353-357 | a mine is dropped only on a deciding tick whose `dropMineIfReasonable` test passes |
| BotTactics.LowDrawCaptures | Bots/Hard/src/bot/bot.cpp:366-373 | inside the zone, once no earlier rule answers, a draw of at most 0.08 always captures, since `captureProb` is at least 0.1 |
| BotTactics.Bot.BoardOf | Bots/Hard/src/bot/bot.h:22-33 | the bot's caches, knowledge map and the snapshot form a well-formed board of the bot's dimension |
| BotTactics.Bot.constructor | Bots/Hard/src/bot/bot.cpp:50 | a bot before `Init` has no grid and no tank chosen |
| BotTactics.Bot.Init | Bots/Hard/src/bot/bot.cpp:52-70 | `Init` takes the lobby's grid size, ids and team, and leaves an empty knowledge map |
| BotTactics.Bot.InitIsWall | Bots/Hard/src/bot/bot.cpp:72-81 | a cell is a wall iff its tile holds a wall object |
| BotTactics.Bot.InitWallType | Bots/Hard/src/bot/bot.cpp:83-99 | each cell gets the wall code of its tile, which `WallCodeMeaning` characterises |
| BotTactics.Bot.InitZoneName | Bots/Hard/src/bot/bot.cpp:101-108 | each cell gets its tile's zone letter |
| BotTactics.Bot.OnFirstNextMove | Bots/Hard/src/bot/bot.cpp:110-121 | the three caches take the grid's shape and are `CachedFrom` the snapshot tiles: each cell's wall flag says whether its tile holds a wall, its wall code is the tile's `WallCode`, its zone letter is the tile's; and a cell is a wall exactly when its wall code is positive |
| BotTactics.Bot.LocateOne | Bots/Hard/src/bot/bot.cpp:245-247 | one turn of the `initMyTanks` loop locates one tank state and keeps the others' |
| BotTactics.Bot.InitMyTanks | Bots/Hard/src/bot/bot.cpp:244-258 | both tank states locate the player's tank, or keep the last tick's when it is missing; the first one is chosen to decide |
| BotTactics.Bot.InitShares | Bots/Hard/src/bot/bot.cpp:692-704 | the neutral share is the zone's; our share is the last entry of our team and the opponents' the last entry of another team, each unchanged when there is none |
| BotTactics.Bot.RememberPositions | Bots/Hard/src/bot/bot.cpp:410-412 | every tank state's last position becomes its current one, and nothing else changes |
| BotTactics.Bot.RefreshKnowledge | Bots/Hard/src/bot/bot.cpp:416 | the knowledge map becomes what `KnowledgeMap.Update` makes of it: the snapshot's visibility, the scanned and projected tiles, and the notified mine counters minus one; the refreshed state stays well formed |
| BotTactics.Bot.Refresh | Bots/Hard/src/bot/bot.cpp:410-416 | after the refresh the deciding tank is located (or kept when missing), the shares are those `InitShares` states, and the knowledge map is the snapshot's update of the old one (visibility, tiles, mine counters) |
| BotTactics.Bot.NextMove | Bots/Hard/src/bot/bot.cpp:403-427 | on tick 1 the caches are `CachedFrom` the snapshot tiles, on later ticks they are kept. The tanks' last positions are their old positions and the deciding tank is located (`Refreshed`). The knowledge map's visibility and tiles are the snapshot's update of the old ones. The answer is `Answered`: exactly the cascade's for the first tank state, on the board made of those caches, that update and the decayed mine counters. A dropped mine is then noted behind that tank; otherwise the mine counters are the decayed ones |
| BotTactics.Bot.FirstNextMove | Bots/Hard/src/bot/bot.cpp:406-426 | on tick 1: the caches are `CachedFrom` the snapshot tiles, then the same refresh and `Answered` decision as on later ticks, on the board built from the new caches |
| BotTactics.Bot.Decide | Bots/Hard/src/bot/bot.cpp:418-426 | the answer is `Answered`: the chosen tank state's answer is the cascade's on the board the bot held before deciding. Tiles and visibility are kept; only a dropped mine changes the mine counters, by noting the mine behind the tank |
| BotTactics.Bot.RefreshAndDecide | Bots/Hard/src/bot/bot.cpp:410-426 | with the caches already filled: `Refreshed`, the knowledge map updated from the snapshot, and an `Answered` decision on the board built from the caches and that update |
| BotTactics.TankState.constructor | Bots/Hard/src/bot/bot.h:44-46 | a new tank state belongs to its bot and has three bullets |
| BotTactics.TankState.InitMyTankHelper | Bots/Hard/src/bot/bot.cpp:219-234 | the first tank of the player in scan order gives the tank and its oriented cell; without one both stay |
| BotTactics.TankState.InitMyTank | Bots/Hard/src/bot/bot.cpp:236-242 | the tank is located (or kept), and the turret direction and bullet count are copied from it |
| BotTactics.TankState.LookAt | Bots/Hard/src/bot/bot.cpp:193-202 | a scanned cell is passable iff it is on the map, not a solid wall and visible, and then its objects are the snapshot's |
| BotTactics.TankState.CanSeeTank | Bots/Hard/src/bot/bot.cpp:123-160 | the loop answers the scan along the turret, which `ScanDecides` characterises |
| BotTactics.TankState.WillFireHitForSure | Bots/Hard/src/bot/bot.cpp:176-217 | the loop answers the sure-hit scan, two cells long or the grid's with a ready laser |
| BotTactics.TankState.WillBeHitByBullet | Bots/Hard/src/bot/bot.cpp:170-174 | the guarded one-tick trajectory test: a cell off the map is never hit |
| BotTactics.TankState.ShootIfSeeingEnemy | Bots/Hard/src/bot/bot.cpp:430-438 | `shootIf` applied to whether an enemy is in the turret's line |
| BotTactics.TankState.ShootIfWillFireHitForSure | Bots/Hard/src/bot/bot.cpp:449-457 | `shootIf` applied to the sure-hit test |
| BotTactics.TankState.HealIfSeeingAlly | Bots/Hard/src/bot/bot.cpp:440-447 | the ally scan decides the healing shot only when it is ready |
| BotTactics.TankState.FirstSafeMove | Bots/Hard/src/bot/bot.cpp:671-680 | the loop over forward and backward returns the first safe move |
| BotTactics.TankState.DodgeFromCell | Bots/Hard/src/bot/bot.cpp:665-684 | a cell with an enemy aiming back asks for the first safe move, else nothing |
| BotTactics.TankState.DodgeStep | Bots/Hard/src/bot/bot.cpp:652-685 | one cell of the dodge scan stops at the border or a solid wall and answers when an enemy there aims back and a move is safe |
| BotTactics.TankState.DodgeAlong | Bots/Hard/src/bot/bot.cpp:652-686 | the middle loop answers the first safe move iff direction `i` is threatened within two open cells |
| BotTactics.TankState.DodgeIfNoAmmoAndWillBeHit | Bots/Hard/src/bot/bot.cpp:636-690 | the loops answer the `Dodge` rule, with the turret's direction skipped while a bullet, laser or double bullet is ready |
| BotTactics.TankState.DropMineIfReasonable | Bots/Hard/src/bot/bot.cpp:608-626 | a mine is dropped iff the test passes; then the counter of the cell behind the tank is notified and nothing else changes |
| BotTactics.TankState.BfsStrategy | Bots/Hard/src/bot/bot.h:121-145 | the answer is the strategy on the search's result; a wait happens only when the start is accepted and not hit; a step towards a later state enters a state the search may enter |
| BotTactics.TankState.FindEnemy | Bots/Hard/src/bot/bot.cpp:492-498 | the nearest visible enemy when one is reachable, else the nearest remembered one out of sight, at its distance; nothing iff neither search accepts |
| BotTactics.TankState.RotateToEnemy | Bots/Hard/src/bot/bot.cpp:459-568 | nothing iff no enemy is found; otherwise the turn towards the enemy's cell with the given draws |
| BotTactics.TankState.Reflexes | Bots/Hard/src/bot/bot.cpp:271-301 | the head of the cascade in source order: sure hit, healing, the one-in-sixteen shake when the tank has not moved, dodge |
| BotTactics.TankState.Evade | Bots/Hard/src/bot/bot.cpp:303-351 | fleeing the closest bullet's lines, then, when weaker than the teammate, moving onto a healing bullet's path, as the searches answer |
| BotTactics.TankState.ZonePlay | Bots/Hard/src/bot/bot.cpp:366-400 | inside the zone capture with probability `0.8 * captureProb`, else shoot, turn to an enemy, wander one time in four or capture; outside head for the zone, and wander when it cannot be reached |
| BotTactics.TankState.NextMove | Bots/Hard/src/bot/bot.cpp:260-401 | the tank always answers, with exactly what the cascade answers on the board the decision started from; the knowledge map changes only when a mine is dropped, and then only by noting the mine behind the tank |
| ClientConnection.IndexOf | GameClient/Source/Networking/ConnectionData.cs:50-67 | the first position of a character in a text, or none exactly when it does not occur |
| ClientConnection.Split | GameClient/Source/Networking/ConnectionData.cs:63 | cutting a text at a separator gives at least one part |
| ClientConnection.SplitPart | GameClient/Source/Networking/ConnectionData.cs:63 | a part without the separator is cut off whole |
| ClientConnection.SplitJoin | GameClient/Source/Networking/ConnectionData.cs:63 | cutting `string.Join("&", parameters)` at `&` gives the parameters back when none holds `&` |
| ClientConnection.ParseServerUrl | GameClient/Source/Networking/ConnectionData.cs:50-67 | a URL is read back exactly when it starts with `ws://` |
| ClientConnection.FixedParameters | GameClient/Source/Networking/ConnectionData.cs:82-96 | the three fixed parameters are told apart by their first letters, none looks like a join code and none holds `&` |
| ClientConnection.ConnectionData.GetUrlParameters | GameClient/Source/Networking/ConnectionData.cs:73-100 | the list has one entry for the join code when there is one, one for a player, one for string enums and one for quick join |
| ClientConnection.ConnectionData.CodeThenFlags | GameClient/Source/Networking/ConnectionData.cs:73-100 | the join code's parameter comes first, then only the fixed flag texts |
| ClientConnection.ConnectionData.JoinCodeParameter | GameClient/Source/Networking/ConnectionData.cs:77-80 | a join code parameter is present exactly when there is a join code, and then it is `joinCode=` and the code, first |
| ClientConnection.ConnectionData.FlagParametersPresent | GameClient/Source/Networking/ConnectionData.cs:82-96 | `playerType=human` is present exactly for a player, `enumSerializationFormat=string` exactly with string enums and `quickJoin=true` exactly with quick join |
| ClientConnection.ConnectionData.ParametersWithoutAmpersand | GameClient/Source/Networking/ConnectionData.cs:73-100 | no parameter holds `&` unless the join code does |
| ClientConnection.ConnectionData.GetServerUrl | GameClient/Source/Networking/ConnectionData.cs:50-67 | the URL starts with `ws://` and the address; `/spectator` follows exactly for a spectator and a `?` exactly when there are parameters; with an address without `/` or `?` and a join code without `&` it reads back as the address, the spectator flag and the parameters |
| ClientConnection.UrlShape | GameClient/Source/Networking/ConnectionData.cs:52-66 | the shape of a built URL: prefix, the spectator suffix exactly when present, a `?` exactly when there are parameters |
| ClientConnection.UrlReadsBack | GameClient/Source/Networking/ConnectionData.cs:52-66 | a URL built from an address without `/` or `?` and parameters without `&` reads back as all three |
| ClientConnection.IndexOfAt | GameClient/Source/Networking/ConnectionData.cs:63 | the first `?` is the one the builder wrote when none comes before |
| ClientConnection.QueryReadsBack | GameClient/Source/Networking/ConnectionData.cs:61-64 | the path and the joined parameters after the `?` read back as written |
| ClientConnection.PathReadsBack | GameClient/Source/Networking/ConnectionData.cs:52-57 | the spectator suffix is recognised exactly when it was appended, and removing it gives the address |
| LogicEnums.IndexOf | GameLogic/Utils/EnumUtils.cs:32 | `Array.IndexOf` gives -1 or an index holding the value |
| LogicEnums.IndexOfFirst | GameLogic/Utils/EnumUtils.cs:32 | the index is -1 exactly for a value that does not occur, and otherwise the first occurrence |
| LogicEnums.Next | GameLogic/Utils/EnumUtils.cs:28-34 | `Next` returns a value of the enumeration |
| LogicEnums.Previous | GameLogic/Utils/EnumUtils.cs:53-59 | `Previous` returns a value of the enumeration |
| LogicEnums.ModWrap | GameLogic/Utils/EnumUtils.cs:33 | the remainder of a value below twice the modulus is the value or the value less the modulus |
| LogicEnums.NextModulo | GameLogic/Utils/EnumUtils.cs:31-33 | `Next` is the value at `(index + 1) % values.Length` |
| LogicEnums.PreviousModulo | GameLogic/Utils/EnumUtils.cs:56-58 | `Previous` is the value at `(index - 1 + values.Length) % values.Length`, the dividend never being negative |
| LogicEnums.PreviousIndexModulo | GameLogic/Utils/EnumUtils.cs:58 | the index arithmetic of `Previous`, including -1 stepping to the last but one |
| LogicEnums.NextIndex | GameLogic/Utils/EnumUtils.cs:28-34 | `Next` moves one index on, from the last back to the first |
| LogicEnums.PreviousIndex | GameLogic/Utils/EnumUtils.cs:53-59 | `Previous` moves one index back, from the first round to the last |
| LogicEnums.NextPreviousInverse | GameLogic/Utils/EnumUtils.cs:28-59 | `Previous` undoes `Next` and `Next` undoes `Previous` on every value of the enumeration |
| LogicEnums.NextN | GameLogic/Utils/EnumUtils.cs:41-45 | `Next(ref obj)` applied `n > 0` times gives a value of the enumeration |
| LogicEnums.NextNNoWrap | GameLogic/Utils/EnumUtils.cs:28-34 | without wrapping round, `n` steps move `n` indices on |
| LogicEnums.NextNCompose | GameLogic/Utils/EnumUtils.cs:41-45 | `a + b` steps are `a` steps then `b` steps |
| LogicEnums.WrapToFirst | GameLogic/Utils/EnumUtils.cs:28-34 | from index `i`, `Length - i` steps reach the first value |
| LogicEnums.NextCycles | GameLogic/Utils/EnumUtils.cs:28-34 | stepping `Next` as many times as there are values comes back to the start |
| LogicDirections.Value | GameLogic/Utils/DirectionUtils.cs:70-73 | a direction's underlying integer is below 4 |
| LogicDirections.NormalIsUnitAxis | GameLogic/Utils/DirectionUtils.cs:49-59 | each normal is a unit vector along one axis, pointing as its name says on a grid whose y grows downwards |
| LogicDirections.PerpendicularMeansOtherAxis | GameLogic/Utils/DirectionUtils.cs:70-90 | `(int)a % 2 != (int)b % 2` holds exactly when the orientations differ and exactly when the normals are orthogonal; it is symmetric and irreflexive |
| LogicDirections.DegreesAreQuarterTurns | GameLogic/Utils/DirectionUtils.cs:32-42 | the degrees are 90 times the enumeration value, below 360 and distinct |
| LogicDirections.OppositeNormals | GameLogic/Utils/DirectionUtils.cs:49-59 | two directions are opposite exactly when their normals are negatives of each other |
| LogicFractions.Trunc | GameLogic/Systems/Regeneration/HealSystem.cs:61 | C#'s `(int)` cast truncates toward zero |
| LogicFractions.Accumulate | GameLogic/Systems/Regeneration/HealSystem.cs:56-67 | adding to the buffer pays out its whole part once it reaches 1 and keeps the rest, so nothing is lost: buffer plus payout equals the old buffer plus the points |
| LogicFractions.AccumulateTwice | GameLogic/Systems/Regeneration/HealSystem.cs:56-67 | adding nothing pays nothing; over two additions the total paid out is everything added less what stays buffered, which stays in [0, 1) |
| LogicCells.Neighbours | GameLogic/Services/MapGenerator.cs:371 | the four cells one step away along an axis, and no others |
| LogicCells.NeighboursSymmetric | GameLogic/Services/MapGenerator.cs:420 | one cell is a neighbour of another exactly when the other is a neighbour of it |
| LogicCells.ConnectedEndsOpen | GameLogic/Services/MapGenerator.cs:428-431 | both ends of a walk through open cells are open |
| LogicCells.ConnectedGrows | GameLogic/Services/MapGenerator.cs:428-431 | a walk through some cells is also a walk through any set holding them |
| LogicCells.ClosedHoldsConnected | GameLogic/Services/MapGenerator.cs:414-441 | everything connected to a cell of a set closed under open neighbours lies in that set |
| LogicCells.ClosedHoldsPath | GameLogic/Services/MapGenerator.cs:414-441 | a walk starting in a set closed under open neighbours never leaves it |
| LogicCells.ExtendPath | GameLogic/Services/MapGenerator.cs:436-439 | a walk extended to an open neighbour of its last cell is a walk with the same start ending at that neighbour |
| LogicFlood.AddKeepsArea | GameLogic/Services/MapGenerator.cs:433-434 | adding an open, unvisited cell reached from the start keeps the area made of reached cells listed once, and leaves fewer open cells to add |
| LogicFlood.AddKeepsClosure | GameLogic/Services/MapGenerator.cs:433-439 | adding the head and queueing its four neighbours keeps every open neighbour of the area either in the area or queued |
| LogicFlood.SkipKeepsClosure | GameLogic/Services/MapGenerator.cs:426-430 | dropping a head off the map, a wall or already visited keeps every open neighbour of the area in the area or queued |
| LogicFlood.HeadReached | GameLogic/Services/MapGenerator.cs:424-434 | an open cell at the head of the queue is connected to the start through open cells |
| LogicMapGenerator.MapGenerator.FloodFill | GameLogic/Services/MapGenerator.cs:414-441 | the area is exactly the cells that are neither walls nor visited and are connected to the start through such cells, each listed once and the start first; they and only they become visited; the area is empty exactly when the start is not such a cell |
| LogicMapGenerator.NewAreaEnclosed | GameLogic/Services/MapGenerator.cs:224-230 | a flood fill from a free cell outside the earlier areas is a connected part of the free cells, disjoint from the earlier areas, since a closed area has no free neighbour outside it |
| LogicMapGenerator.AddArea | GameLogic/Services/MapGenerator.cs:226-230 | appending that fill keeps every area a connected part of the free cells and gives the start cell an owner |
| LogicMapGenerator.AllCovered | GameLogic/Services/MapGenerator.cs:222-234 | once the scan ends, no cell is in two areas and every free cell is in one |
| LogicMapGenerator.MapGenerator.IdentifyEnclosedAreas | GameLogic/Services/MapGenerator.cs:217-235 | the areas split the cells that are not walls into their connected parts: each is non-empty, lists its cells once and holds every free cell connected to it and no other, no cell is in two areas, and every free cell is in one |
| LogicMapGenerator.PathBack | GameLogic/Services/MapGenerator.cs:382-398 | following the parents back from the cell found gives a walk that starts at the start, ends at that cell, passes only cells given a parent, and has one cell more than that cell's recorded distance |
| LogicMapGenerator.AddReached | GameLogic/Services/MapGenerator.cs:401-409 | giving an unvisited neighbour of a reached cell that cell as parent keeps the parent chains leading back to the start and adds exactly that cell to the reached ones |
| LogicMapGenerator.SearchExhausted | GameLogic/Services/MapGenerator.cs:377-411 | when the queue runs dry, every cell connected to the start through cells unvisited before the search is a wall or in the area |
| LogicMapGenerator.LevelUp | GameLogic/Services/MapGenerator.cs:372-378 | once the head of the FIFO queue carries distance `lvl + 1`, every walk from the start through cells unvisited before with `lvl` steps ends at a cell already dequeued |
| LogicMapGenerator.ExploreLevels | GameLogic/Services/MapGenerator.cs:399-409 | dequeuing the head at distance `lvl` and queueing its new neighbours at `distance + 1` keeps the queue sorted by distance within `lvl` and `lvl + 1`, keeps every recorded distance a shortest one, and keeps every nearer cell dequeued |
| LogicMapGenerator.FoundOut | GameLogic/Services/MapGenerator.cs:380-396 | the path back from the first free cell outside the area to be dequeued leads out of the area, and no walk from the start through unvisited cells to a free cell outside the area has fewer cells |
| LogicMapGenerator.MapGenerator.Explore | GameLogic/Services/MapGenerator.cs:399-409 | every neighbour of the dequeued cell on the map ends up visited before the search or reached, and the parent chains stay sound |
| LogicMapGenerator.MapGenerator.FindShortestPathToOpenArea | GameLogic/Services/MapGenerator.cs:368-412 | a path found starts at the start, steps to a neighbour each time, stays on the map, passes only cells unvisited before, and ends at a free cell outside the area, and no walk from the start through cells unvisited before to a free cell outside the area has fewer cells (the path is a shortest one); an empty result means every cell connected to the start through unvisited cells is a wall or in the area; the start and every cell visited before stay visited |
| LogicMapGenerator.Next | GameLogic/Services/MapGenerator.cs:113-114 | `Random.Next(lo, hi)` gives a value of `[lo, hi)`, `lo` itself when the range is empty, and an out-of-range error when `lo > hi` |
| LogicMapGenerator.MapGenerator.GenerateZones | GameLogic/Services/MapGenerator.cs:79-139 | fails exactly when the map is under 5 cells wide; otherwise at most two zones (one in a STEREO build), each 4 by 4, off the border, named in order, and none overlapping or too close to one placed before it |
| LogicMapGenerator.GeneratedZoneFits | GameLogic/Services/MapGenerator.cs:79-139 | a zone placed by the zone generator fits the map and has a positive area, so thinning its walls never throws |
| LogicMapGenerator.ZoneError | GameLogic/Services/MapGenerator.cs:194-210 | thinning a zone throws exactly when its rectangle leaves the map or its area is negative |
| LogicMapGenerator.CountTrue | GameLogic/Services/MapGenerator.cs:306-315 | the count of walls around a cell is at most eight and is zero exactly when none is a wall |
| LogicMapGenerator.RemoveAt | GameLogic/Services/MapGenerator.cs:212 | removing a wall from a list without repeats drops exactly that wall and shortens the list by one |
| LogicMapGenerator.MapGenerator.RemoveWallsWithConstraints | GameLogic/Services/MapGenerator.cs:281-297 | no wall is added, and every wall cleared has an open neighbour along an axis |
| LogicMapGenerator.MapGenerator.AddWallsWithConstraints | GameLogic/Services/MapGenerator.cs:299-323 | no wall is removed; every wall added is off the border with no wall among the eight cells around it; a map under 3 cells wide throws at the first attempt and is left as it was |
| LogicMapGenerator.MapGenerator.CollectWalls | GameLogic/Services/MapGenerator.cs:197-206 | the walls of the zone, each once |
| LogicMapGenerator.MapGenerator.ThinZone | GameLogic/Services/MapGenerator.cs:192-213 | the zone's walls are cleared down to no more than the drawn share of 10 to 19 per cent of its area, clearing stops at the first count within it, only walls of the zone change, and a zone that cannot be scanned throws and changes nothing |
| LogicMapGenerator.GeneratedZoneKeepsFew | GameLogic/Services/MapGenerator.cs:194 | a generated 4 by 4 zone keeps at most 3 walls |
| LogicMapGenerator.MapGenerator.RemoveSomeWallsFromZones | GameLogic/Services/MapGenerator.cs:190-215 | the run throws with the first zone that cannot be scanned; no wall is added, and only walls inside a zone are cleared |
| LogicCollision.Lookup | GameLogic/Services/CollisionDetector.cs:20-53 | a bullet's trajectory is found exactly when some entry is keyed by a bullet of that id, and it is that entry's cells |
| LogicCollision.PutLookup | GameLogic/Systems/Combat/BulletSystem.cs:163-171 | storing a trajectory under a bullet makes it the one found for that bullet's id and leaves every other id's trajectory as it was |
| LogicCollision.OtherBulletHit | GameLogic/Services/CollisionDetector.cs:51-92 | the bullet found is another key of the dictionary that meets this one at the index (same cell and index when perpendicular, anywhere on its path when parallel, swapped starts when directly opposite); nothing exactly when none meets it |
| LogicCollision.TankHitAt | GameLogic/Services/CollisionDetector.cs:94-129 | the tank found is a live tank on the cell, or a live tank that swapped cells with the bullet; nothing exactly when no tank does |
| LogicCollision.CellVerdict | GameLogic/Services/CollisionDetector.cs:34-129 | at one index: a border hit exactly when the cell is off the grid, a wall hit exactly when it is on the grid and walled, a laser hit exactly when there is no wall but a laser; a tank hit is a live tank of the grid and a bullet hit another key of the dictionary |
| LogicCollision.Scan | GameLogic/Services/CollisionDetector.cs:27-130 | the result is the verdict of the first index that gives one, and nothing exactly when no index does |
| LogicCollision.Bound | GameLogic/Services/CollisionDetector.cs:27-32 | the indices examined stop at the first entry's length or the bullet's own, whichever comes first |
| LogicCollision.CheckBulletCollision | GameLogic/Services/CollisionDetector.cs:15-25 | nothing for a bullet without a stored trajectory; a tank hit is a live tank of the grid; a bullet hit is another key of the dictionary |
| LogicCollision.FirstCollision | GameLogic/Services/CollisionDetector.cs:15-133 | the indices are examined in increasing order, and the collision is the verdict of the first index that gives one, or nothing when none does |
| LogicCollision.LiveTankOnCellIsHit | GameLogic/Services/CollisionDetector.cs:94-104 | a live tank standing on a swept cell always yields a collision at that index |
| LogicCollision.MeetingBulletsCollide | GameLogic/Services/CollisionDetector.cs:51-62 | two perpendicular bullets on the same cell at the same index, or two parallel bullets where the cell lies anywhere on the other's path, always yield a collision at that index |
| LogicDamage.IdOf | GameLogic/Systems/Combat/LaserSystem.cs:90 | a damager's id is present exactly when there is a damager, and it is that player's id |
| LogicDamage.DamageSystem.ApplyDamage | GameLogic/Systems/Combat/LaserSystem.cs:90 | every damage request is recorded last, in order, and the amount dealt is the one reported for it |
| LogicDespawn.FirstOwned | GameLogic/Systems/Spawning/DespawnSystem.cs:30 | the first tank whose owner is the player, or none exactly when no tank is that player's |
| LogicDespawn.FirstEqual | GameLogic/Systems/Spawning/DespawnSystem.cs:48 | the first tank equal to the given one, or none exactly when there is no such tank |
| LogicDespawn.RemovesFoundTank | GameLogic/Systems/Spawning/DespawnSystem.cs:30-48 | when every tank's owner id is its owner's, removing the tank found for a player removes exactly that tank and keeps every other one in order |
| LogicDespawn.BulletsNotOf | GameLogic/Systems/Spawning/DespawnSystem.cs:49 | exactly the bullets not fired by the player stay |
| LogicDespawn.LasersNotOf | GameLogic/Systems/Spawning/DespawnSystem.cs:50 | exactly the lasers not fired by the player stay |
| LogicDespawn.MinesNotOf | GameLogic/Systems/Spawning/DespawnSystem.cs:51 | exactly the mines not laid by the player stay |
| LogicDespawn.DespawnSystem.Forget | GameLogic/Systems/Spawning/DespawnSystem.cs:41-45 | the tank's buffered healing and the player's buffered score are dropped, and every zone forgets the player's progress and takes the state its removal rule gives |
| LogicDespawn.DespawnSystem.RemoveTank | GameLogic/Systems/Spawning/DespawnSystem.cs:28-54 | with no tank of the player nothing changes and no tank is returned; otherwise the player's first tank is returned without its item, which is appended to the grid's items on the connected free drop tile found from the tank's cell (or is lost when every reachable tile holds an item); its healing and score buffers are cleared, every zone forgets the player's progress and takes the state its removal rule gives, no other tank's item changes, and the tank, the player's bullets, lasers and mines leave the grid |
| LogicDespawn.DespawnSystem.Sweep | GameLogic/Systems/Spawning/DespawnSystem.cs:48-51 | the tank leaves the tank list by equality and the filtered bullets, lasers and mines replace the grid's |
| LogicBullets.Bullet.Fired | GameLogic/Models/Bullet.cs:8-32 | a fired bullet takes the next id of the counter, which then grows by one, and keeps its cell, direction, speed, damage, shooter and the shooter's id |
| LogicBullets.Bullet.Snapshot | GameLogic/Models/Bullet.cs:78-83 | a bullet rebuilt from a snapshot takes its id, cell, direction, speed, damage and shooter id, with no shooter object |
| LogicBullets.Bullet.UpdatePosition | GameLogic/Models/Bullet.cs:137-155 | the bullet moves `speed * deltaTime` along its direction, with y growing downwards |
| LogicBullets.Bullet.CalculateTrajectory | GameLogic/Models/Bullet.cs:181-215 | the swept cells are the line from the start cell to the bullet's current cell |
| LogicBullets.LineCells | GameLogic/Systems/Combat/BulletSystem.cs:35-69 | the Bresenham loop lists exactly the cells of the line from the start to the end |
| LogicBullets.Walk | GameLogic/Models/Bullet.cs:195-212 | for a bullet that left its cell, the loop lists the cells of the line's offsets, in order |
| LogicBullets.StepOnce | GameLogic/Models/Bullet.cs:197-209 | one turn moves along x exactly when twice the error exceeds `-dy`, along y exactly when it is below `dx`, and updates the error to match |
| LogicBullets.Next | GameLogic/Models/Bullet.cs:197-209 | short of the target, a turn moves one cell further along at least one axis and never past the target |
| LogicBullets.StepsShape | GameLogic/Models/Bullet.cs:195-212 | the line's offsets end at the target, number between the larger distance and the sum of the two, and stay in the box between start and target |
| LogicBullets.TrajectoryInPlace | GameLogic/Models/Bullet.cs:190-193 | a bullet that stays in its cell sweeps that cell alone |
| LogicBullets.TrajectoryEnds | GameLogic/Models/Bullet.cs:181-215 | a bullet that moved sweeps at least one cell, ends at its current cell, sweeps between the larger and the sum of the two distances, and never its starting cell |
| LogicBullets.TrajectoryAdjacent | GameLogic/Models/Bullet.cs:195-212 | each swept cell is at most one column and one row from the one before it, and never further from the end along either axis |
| LogicBullets.TrajectoryAlongAxis | GameLogic/Models/Bullet.cs:195-212 | a bullet moving along a row or a column sweeps every cell after the start, in order, up to the end |
| LogicBullets.BulletEqualsIsEquivalence | GameLogic/Models/Bullet.cs:234-249 | bullet equality by id is reflexive, symmetric and transitive |
| LogicBulletSystem.IndexOfId | GameLogic/Systems/Combat/BulletSystem.cs:181 | the first bullet with the id, or none exactly when no bullet has it |
| LogicBulletSystem.Without | GameLogic/Systems/Combat/BulletCollisionSystem.cs:43-44 | removing a bullet takes out one bullet when one has the id and changes nothing otherwise; no bullet comes from elsewhere |
| LogicBulletSystem.WithoutFirst | GameLogic/Systems/Combat/BulletCollisionSystem.cs:43-44 | removing takes out exactly the first bullet with the id and the others keep their order |
| LogicBulletSystem.Halved | GameLogic/Systems/Combat/BulletCollisionSystem.cs:60 | half of a damage, truncated toward zero as C# divides |
| LogicBulletSystem.StunEffect | GameLogic/Systems/Combat/BulletCollisionSystem.cs:87-92 | a stun bullet blocks exactly one kind of action |
| LogicBulletSystem.BulletCollisionSystem.ResolveBulletVsBullet | GameLogic/Systems/Combat/BulletCollisionSystem.cs:41-64 | both bullets go; when exactly one is a double bullet, a new basic bullet with half its damage takes its cell, direction, speed and shooter, last in the list; a double bullet without damage or shooter throws |
| LogicBulletSystem.BulletCollisionSystem.ApplyHit | GameLogic/Systems/Combat/BulletCollisionSystem.cs:70-97 | basic and double bullets request their damage against the tank and report what was dealt; in STEREO builds healing bullets heal 20 and stun bullets stun for 10 ticks by the shooter's tank type; a harmful bullet without damage throws |
| LogicBulletSystem.BulletCollisionSystem.AwardShooter | GameLogic/Systems/Combat/BulletCollisionSystem.cs:99-102 | a shooter there is gains half the damage dealt, only when some was dealt |
| LogicBulletSystem.BulletCollisionSystem.ResolveBulletVsTank | GameLogic/Systems/Combat/BulletCollisionSystem.cs:66-103 | the bullet goes, the hit takes effect, and the shooter is awarded half of any damage dealt |
| LogicBulletSystem.BulletCollisionSystem.ResolveCollision | GameLogic/Systems/Combat/BulletCollisionSystem.cs:23-39 | `Resolved`: a bullet hit is `Replaced`, as `ResolveBulletVsBullet` states it (both bullets go, the rest stay in order, and a lone double bullet leaves a basic bullet with half its damage last in the list); a wall, border or tank hit removes the bullet; a laser hit passes and changes nothing; only a tank hit asks for damage (exactly the bullet's request when it is harmful), stuns, or awards the shooter half the damage dealt (the resolvers' dispatch at lines 105-108 of the same file) |
| LogicBulletSystem.BulletSystem.TryFireBullet | GameLogic/Systems/Combat/BulletSystem.cs:78-103 | nothing when the ability cannot be used; otherwise one basic bullet of speed 2 and damage 20 is queued one cell ahead of the tank along the turret, and the ability is used once |
| LogicBulletSystem.BulletSystem.TryFireDoubleBullet | GameLogic/Systems/Combat/BulletSystem.cs:112-137 | fires exactly when the ability can be used; then one double bullet of damage 40 is queued one cell ahead of the tank along the turret, and the ability is used once; otherwise nothing changes |
| LogicBulletSystem.BulletSystem.AdvanceBullets | GameLogic/Systems/Combat/BulletSystem.cs:157-164 | every bullet moves and has an entry under its id; when no two bullets share an id, each entry is the trajectory from the bullet's cell before the move to its cell after it |
| LogicBulletSystem.BulletSystem.DrainQueue | GameLogic/Systems/Combat/BulletSystem.cs:168-172 | every queued bullet joins the grid in order, with its own cell as its trajectory, and the queue ends empty |
| LogicBulletSystem.BulletSystem.ResolveOne | GameLogic/Systems/Combat/BulletSystem.cs:181-191 | a bullet no longer on the grid is skipped and nothing changes; a bullet whose check finds no collision changes nothing; otherwise the collision the check found is `Resolved`; the list never lengthens and gains only new bullets |
| LogicBulletSystem.BulletSystem.ResolveDetected | GameLogic/Systems/Combat/BulletSystem.cs:188-191 | a detected collision is `Resolved` and the bullets' shooters stay among the players |
| LogicBulletSystem.BulletSystem.ResolveBulletCollisions | GameLogic/Systems/Combat/BulletSystem.cs:177-193 | resolution never adds bullets overall, and every bullet left was there before or is new |
| LogicBulletSystem.BulletSystem.Update | GameLogic/Systems/Combat/BulletSystem.cs:152-175 | the bullets move, collisions are resolved, queued bullets join, collisions are resolved again, and the queue ends empty unless the first resolution throws |
| LogicGrid.EmptyWalls | GameLogic/Models/Grid.cs:51 | a new wall grid has `dim` columns of `dim` cells and no wall |
| LogicGrid.Grid.constructor | GameLogic/Models/Grid.cs:11-81 | a new grid is `dimension` by `dimension` cells without walls and holds no tanks, bullets, zones, lasers, mines or items |
| LogicGrid.Empty | GameLogic/Models/Grid.cs:36 | the empty grid has dimension 0, no cells and no entities |
| LogicGrid.WithinBoundsIsWallGridDomain | GameLogic/Models/Grid.cs:147-150 | a cell is within bounds exactly when it indexes the wall grid |
| LogicGrid.FirstTankAt | GameLogic/Models/Grid.cs:188 | the first tank on the cell, or none exactly when no tank stands there |
| LogicGrid.FirstBulletAt | GameLogic/Models/Grid.cs:193 | the first bullet whose cell is the given one, or none exactly when there is no such bullet |
| LogicGrid.FirstLaserAt | GameLogic/Models/Grid.cs:198 | the first laser on the cell, or none exactly when there is no such laser |
| LogicGrid.FirstMineAt | GameLogic/Models/Grid.cs:203 | the first mine on the cell, or none exactly when there is no such mine |
| LogicGrid.ItemsAt | GameLogic/Models/Grid.cs:209 | exactly the items lying on the cell |
| LogicGrid.Grid.GetCellObjects | GameLogic/Models/Grid.cs:181-214 | the lookup fails, with an index error, exactly when the cell is out of bounds |
| LogicGrid.CellObjectsInOrder | GameLogic/Models/Grid.cs:181-214 | the objects come as a wall, a tank, a bullet, a laser, a mine, at most one of each, then the items |
| LogicGrid.CellObjectsEntities | GameLogic/Models/Grid.cs:183-206 | the objects hold the cell's wall exactly when there is one, and the first tank, bullet, laser and mine on the cell exactly when there are any |
| LogicGrid.CellObjectsItems | GameLogic/Models/Grid.cs:208-213 | the objects hold every item on the cell and no other |
| LogicHeal.Clamp | GameLogic/Systems/Regeneration/HealSystem.cs:36 | `Math.Clamp`: the value when it lies in the range, otherwise the nearer bound |
| LogicHeal.HealSystem.ClearFractionalBuffer | GameLogic/Systems/Regeneration/HealSystem.cs:17-20 | only this tank's buffered healing goes |
| LogicHeal.HealSystem.Heal | GameLogic/Systems/Regeneration/HealSystem.cs:27-37 | negative points throw; a dead tank is left alone; otherwise the health becomes the sum clamped to [0, 100]; it throws exactly for negative points or a live tank without health (the dead-tank guard at lines 70-77 of the same file) |
| LogicHeal.HealSystem.HealFraction | GameLogic/Systems/Regeneration/HealSystem.cs:47-68 | negative points throw and change nothing; a dead tank is left alone; otherwise the points join the tank's buffer, and once it holds a whole point that many are healed and taken out of it |
| LogicItemDrop.FreeCells | GameLogic/Systems/Items/ItemDropSystem.cs:52-54 | exactly the cells of the map that are not walls |
| LogicItemDrop.HasItemIsCellObject | GameLogic/Systems/Items/ItemDropSystem.cs:61 | a cell holds an item exactly when some object the grid yields for it is an item |
| LogicItemDrop.DropStep | GameLogic/Systems/Items/ItemDropSystem.cs:50-69 | one round of the search: a tile found is the dequeued cell, free and without item and connected to the origin; otherwise the search's area, queue and closure stay sound |
| LogicItemDrop.ItemDropSystem.FindDropTileNear | GameLogic/Systems/Items/ItemDropSystem.cs:42-73 | a tile found is a free cell without an item, connected to the origin through free cells; none found means every cell so connected holds an item; the origin itself is the tile when it qualifies |
| LogicItemDrop.ItemDropSystem.TryDropItem | GameLogic/Systems/Items/ItemDropSystem.cs:15-32 | a tank without an item changes nothing; otherwise the tank loses its item, which is added on the drop tile found from the tank's cell, or is lost when there is none, and then every cell connected to the tank's holds an item |
| LogicGrid.Grid.WallPart | GameLogic/Models/Grid.cs:183-186 | at most one object, a wall, exactly when the cell holds a wall |
| LogicGrid.Grid.TankPart | GameLogic/Models/Grid.cs:188-191 | at most one object, the first tank on the cell |
| LogicGrid.Grid.BulletPart | GameLogic/Models/Grid.cs:193-196 | at most one object, the first bullet on the cell |
| LogicGrid.Grid.LaserPart | GameLogic/Models/Grid.cs:198-201 | at most one object, the first laser on the cell |
| LogicGrid.Grid.MinePart | GameLogic/Models/Grid.cs:203-206 | at most one object, the first mine on the cell |
| LogicLasers.Laser.Fired | GameLogic/Models/Laser.cs:24-28 | a fired laser takes the next id of the counter, which grows by one, keeps its cell, orientation, damage, shooter and the shooter's id, and starts with 10 ticks of life (the id counter at lines 10 and 92 of the same file) |
| LogicLasers.Laser.Snapshot | GameLogic/Models/Laser.cs:39-53 | a laser rebuilt from a snapshot takes its id, cell, orientation, damage and shooter id, 10 ticks of life, and no shooter object (the tick count at line 92 of the same file) |
| LogicLasers.Laser.Stun | GameLogic/Models/Laser.cs:56-59 | as a stun effect a laser lasts 10 ticks and blocks everything |
| LogicLasers.Laser.DecreaseRemainingTicks | GameLogic/Models/Laser.cs:125-128 | the countdown drops by one |
| LogicLasers.Laser.UpdateFrom | GameLogic/Models/Laser.cs:134-139 | the laser takes the snapshot's orientation, damage and shooter id |
| LogicLasers.LaserEqualsIsEquivalence | GameLogic/Models/Laser.cs:105-120 | laser equality by id is reflexive, symmetric and transitive |
| LogicLaserSystem.BeamUnique | GameLogic/Systems/Combat/LaserSystem.cs:40-54 | only one sequence of cells is the beam from a cell in a direction |
| LogicLaserSystem.BeamOpen | GameLogic/Systems/Combat/LaserSystem.cs:43-50 | every cell of the beam is on the grid and not a wall |
| LogicLaserSystem.BeamFits | GameLogic/Systems/Combat/LaserSystem.cs:43-54 | a beam fired from a cell of the grid has fewer cells than the grid is wide |
| LogicLaserSystem.LaserSystem.BeamTiles | GameLogic/Systems/Combat/LaserSystem.cs:36-54 | the tiles are the cells one, two, ... steps ahead along the turret, all on the grid and open, stopping before the first that is not |
| LogicLaserSystem.LaserSystem.MakeLasers | GameLogic/Systems/Combat/LaserSystem.cs:56-63 | one new laser per tile, in tile order, each on its tile with the turret's orientation, damage 80 and the tank's owner, numbered by the counter |
| LogicLaserSystem.LaserSystem.Fire | GameLogic/Systems/Combat/LaserSystem.cs:36-66 | one new laser per cell of the beam joins the grid after the others, and the firing tank is stunned by each of them |
| LogicLaserSystem.LaserSystem.TryUseLaser | GameLogic/Systems/Combat/LaserSystem.cs:27-70 | without `CanUse` nothing changes and no list comes back; otherwise one laser per beam cell joins the grid, the firing tank is stunned by each, and the ability is used once (its 400-tick regeneration starts in a STEREO build, the tank's item goes otherwise) |
| LogicLaserSystem.TanksAtExact | GameLogic/Systems/Combat/LaserSystem.cs:87 | exactly the listed tanks on the laser's cell are hit |
| LogicLaserSystem.TanksAtNone | GameLogic/Systems/Combat/LaserSystem.cs:87 | some tank is hit exactly when a tank stands on the laser's cell |
| LogicLaserSystem.HitRequestsExact | GameLogic/Systems/Combat/LaserSystem.cs:88-90 | a laser's hits send one damage request per tank, in order |
| LogicLaserSystem.LaserSystem.HitTank | GameLogic/Systems/Combat/LaserSystem.cs:88-100 | the tank is sent a damage request and the shooter is credited with what was dealt (in a STEREO build only for a tank of another team); a laser without damage throws |
| LogicLaserSystem.LaserSystem.HitTanks | GameLogic/Systems/Combat/LaserSystem.cs:87-101 | unless a hit throws, the requests sent are one per tank on the cell, in order; a laser without damage throws when some tank is there |
| LogicLaserSystem.LaserSystem.Strike | GameLogic/Systems/Combat/LaserSystem.cs:87-103 | a live laser hits every tank on its cell in order, then sets off the armed mines there |
| LogicLaserSystem.LaserSystem.SweepLaser | GameLogic/Systems/Combat/LaserSystem.cs:79-103 | the laser ages by one tick; it is gone exactly when its countdown reaches zero, and then it does nothing more |
| LogicLaserSystem.RemainingExact | GameLogic/Systems/Combat/LaserSystem.cs:77-85 | with distinct ids, a laser stays after an update exactly when it is listed and its countdown was above one |
| LogicLaserSystem.LaserSystem.SweepLasers | GameLogic/Systems/Combat/LaserSystem.cs:77-104 | each listed laser in order ages and acts; unless something throws, the lasers kept are the unspent ones |
| LogicLaserSystem.LaserSystem.Update | GameLogic/Systems/Combat/LaserSystem.cs:75-105 | every laser ages by one tick; unless something throws, the lasers left are the unspent ones in list order |
| LogicLaserSystem.LaserSystem.Detonate | GameLogic/Systems/Combat/LaserSystem.cs:103 | on success every mine armed on the laser's cell starts its explosion countdown, and no damage request is lost |
| LogicMines.Decreased | GameLogic/Models/Mine.cs:154-160 | an unexploded mine stays unexploded and an exploded one has one tick less |
| LogicMines.Mine.Dropped | GameLogic/Models/Mine.cs:13-32 | a dropped mine takes the next id of the counter, which grows by one, keeps its cell, damage, layer and the layer's id, and is unexploded |
| LogicMines.Mine.Snapshot | GameLogic/Models/Mine.cs:42-49 | a mine rebuilt from a snapshot takes its id, cell, damage, layer id and countdown, with no layer object (the explosion fields at lines 95-99 of the same file) |
| LogicMines.Mine.Stun | GameLogic/Models/Mine.cs:52-56 | as a stun effect a mine lasts 10 ticks and blocks movement and tank rotation |
| LogicMines.Mine.Explode | GameLogic/Models/Mine.cs:145-148 | the countdown (re)starts at 10, so the mine is exploded and not yet fully exploded |
| LogicMines.Mine.DecreaseExplosionTicks | GameLogic/Models/Mine.cs:154-160 | only an exploded mine counts down, and whether it is exploded does not change |
| LogicMines.Mine.UpdateFrom | GameLogic/Models/Mine.cs:166-173 | the mine takes the snapshot's cell, damage, layer id and countdown |
| LogicMines.MineEqualsIsEquivalence | GameLogic/Models/Mine.cs:125-140 | mine equality by id is reflexive, symmetric and transitive |
| LogicMines.UnexplodedStays | GameLogic/Models/Mine.cs:154-160 | no number of decrements explodes an unexploded mine (the explosion test at line 104 of the same file) |
| LogicMines.DecreasedNValue | GameLogic/Models/Mine.cs:154-160 | after `n` decrements a countdown started at `t` stands at `t - n` |
| LogicMines.ExplosionLasts | GameLogic/Models/Mine.cs:145-160 | a freshly exploded mine is fully exploded after exactly 10 decrements, and not before (the tick constant at line 11 and the test at line 113 of the same file) |
| LogicMineSystem.MineRequest | GameLogic/Systems/Combat/MineSystem.cs:122-127 | an explosion requests the mine's damage against the tank, naming the layer as damager exactly when there is one and the tank's own player did not lay the mine |
| LogicMineSystem.MineSystem.TryDropMine | GameLogic/Systems/Combat/MineSystem.cs:25-47 | without `CanUse` nothing changes; otherwise a new unexploded mine of damage 50, laid by the tank's player, joins the grid on the cell behind the tank, and the ability is used once |
| LogicMineSystem.MineSystem.HandleMineExplosion | GameLogic/Systems/Combat/MineSystem.cs:116-141 | the mine (re)starts its explosion; a tank on it is sent the damage request, the layer is credited with what was dealt (never for its own tank, and in a STEREO build never for a team mate), and the tank is stunned by the mine; a mine without damage throws |
| LogicMineSystem.MineSystem.SetOff | GameLogic/Systems/Combat/MineSystem.cs:56-65 | a mine on the cell that has not exploded explodes under the tank, and any other mine is left alone |
| LogicMineSystem.MineSystem.ExplodeAll | GameLogic/Systems/Combat/MineSystem.cs:56-65 | the walk over the listed mines under a given tank: the armed mines explode and, unless one throws, send `ExplosionRequests` and apply `ExplosionStuns` in list order; no other mine changes |
| LogicMineSystem.MineSystem.TryExplodeAt | GameLogic/Systems/Combat/MineSystem.cs:54-66 | every mine on the cell that has not exploded explodes, under the first tank on the cell; unless one throws, the tank's player receives exactly one damage request and one mine stun per such mine, in list order (a mine listed twice only once); with no tank nothing is requested or stunned; no other mine changes |
| LogicMineSystem.SweptTicks | GameLogic/Systems/Combat/MineSystem.cs:73-100 | a mine that goes keeps its countdown; an unexploded one explodes when a tank stands on it; an exploded one ticks down |
| LogicMineSystem.MineSystem.SweepMine | GameLogic/Systems/Combat/MineSystem.cs:75-99 | a mine off the grid, on a wall or fully exploded goes; otherwise it explodes under a tank on its cell or ticks down |
| LogicMineSystem.SurvivorsExact | GameLogic/Systems/Combat/MineSystem.cs:73-100 | a mine survives the sweep exactly when it is listed and does not go |
| LogicMineSystem.MineSystem.SweepList | GameLogic/Systems/Combat/MineSystem.cs:73-100 | unless an explosion throws, the mines kept are exactly those not flagged to go, in order, and every listed mine carries the countdown the sweep gives it |
| LogicMineSystem.MineSystem.Sweep | GameLogic/Systems/Combat/MineSystem.cs:73-100 | unless an explosion throws, the mines left are the survivors, ids still distinct, and every mine that was listed carries `SweptTicks` of its state before the sweep (kept if it goes, started under a tank, or ticked down) |
| LogicMineSystem.FirstCellsCover | GameLogic/Systems/Combat/MineSystem.cs:104-113 | de-duplication keeps exactly the cells of the list |
| LogicMineSystem.FirstCellsUnique | GameLogic/Systems/Combat/MineSystem.cs:104-113 | de-duplication keeps no cell twice |
| LogicMineSystem.FirstPerCellKeepsFirst | GameLogic/Systems/Combat/MineSystem.cs:107-113 | a mine whose cell no earlier mine has is kept |
| LogicMineSystem.FirstPerCellUnique | GameLogic/Systems/Combat/MineSystem.cs:104-113 | after de-duplication no two mines share a cell, and every cell that had a mine still has one |
| LogicMineSystem.MineSystem.Deduplicated | GameLogic/Systems/Combat/MineSystem.cs:107-113 | the mines that stay are those whose cell no earlier mine has, in list order |
| LogicMineSystem.MineSystem.Dedupe | GameLogic/Systems/Combat/MineSystem.cs:102-113 | of the mines sharing a cell only the first in list order stays |
| LogicMineSystem.MineSystem.Update | GameLogic/Systems/Combat/MineSystem.cs:71-114 | unless an explosion throws, every mine that was listed carries `SweptTicks` of its old state, the mines left are the first on each cell among the survivors, no two share a cell, and every cell with a survivor still has a mine |
| LogicReconcile.FirstWith | GameLogic/Networking/GameStateApplier.cs:107 | the first entity with the key, or none exactly when no entity has it (the same lookup at lines 139, 171 and 203 of the same file) |
| LogicReconcile.LastWith | GameLogic/Networking/GameStateApplier.cs:105-127 | the last snapshot with the key, whose state the entity ends up with, or none exactly when no snapshot has it |
| LogicReconcile.Kept | GameLogic/Networking/GameStateApplier.cs:103 | removing the entities whose key the payload lacks never lengthens the list (the same filter at lines 135, 167 and 199 of the same file) |
| LogicReconcile.KeptFrom | GameLogic/Networking/GameStateApplier.cs:103 | every kept entity comes from the list and has a key the payload has (the same filter at lines 135, 167 and 199 of the same file) |
| LogicReconcile.KeptAll | GameLogic/Networking/GameStateApplier.cs:103 | every entity whose key the payload has is kept (the same filter at lines 135, 167 and 199 of the same file) |
| LogicReconcile.KeptKeys | GameLogic/Networking/GameStateApplier.cs:103 | the kept keys are the list's keys that the payload has (the same filter at lines 135, 167 and 199 of the same file) |
| LogicReconcile.KeptUnique | GameLogic/Networking/GameStateApplier.cs:103 | removing entities keeps unique keys unique (the same filter at lines 135, 167 and 199 of the same file) |
| LogicReconcile.StepKeepsFirst | GameLogic/Networking/GameStateApplier.cs:105-127 | applying one snapshot keeps the first entity of every other key, and its own key then has an entity |
| LogicReconcile.AppendedShape | GameLogic/Networking/GameStateApplier.cs:109-117 | appending snapshots keeps the list as a prefix, adds exactly the snapshots' keys, each appended entity being a snapshot whose key the list lacked, and keeps unique keys unique |
| LogicReconcile.AddedKeys | GameLogic/Networking/GameStateApplier.cs:105-117 | the snapshots that join bring exactly the keys the list lacked, each once |
| LogicReconcile.JoiningKeys | GameLogic/Networking/GameStateApplier.cs:103-127 | the kept entities and the joining snapshots share no key and between them hold exactly the payload's keys |
| LogicReconcile.ReconciledKeys | GameLogic/Networking/GameStateApplier.cs:98-128 | after a reconciliation the list's keys are exactly the payload's; the kept entities come first, in order, then snapshots with new keys; unique keys stay unique |
| LogicReconcile.FirstOfReplace | GameLogic/Networking/GameStateApplier.cs:120 | updating the first entity with a key changes what that key finds and nothing else |
| LogicReconcile.FirstOfAppend | GameLogic/Networking/GameStateApplier.cs:116 | appending an entity with a new key makes that key find it and changes nothing else |
| LogicApplyPlayers.FindPlayer | GameLogic/Networking/GameStateApplier.cs:59 | the player found has the id and is one of the payload's, and none is found exactly when no payload player has the id (the same lookup at line 113 of the same file) |
| LogicApplyBullets.BulletUpdate | GameLogic/Networking/GameStateApplier.cs:118-126 | the first bullet with the snapshot's id takes the shooter the snapshot names |
| LogicApplyBullets.BulletAppend | GameLogic/Networking/GameStateApplier.cs:109-117 | a bullet snapshot with a new id joins the list last, with its shooter looked up |
| LogicApplyBullets.BulletStep | GameLogic/Networking/GameStateApplier.cs:105-127 | a snapshot with a known id adds nothing, one with a new id adds one bullet built from it, and the first `k + 1` snapshots are then applied |
| LogicApplyBullets.ApplyBulletSnapshots | GameLogic/Networking/GameStateApplier.cs:105-127 | the kept bullets stay first, a new bullet joins for each joining snapshot, and every snapshot is applied |
| LogicApplyBullets.UpdateBullets | GameLogic/Networking/GameStateApplier.cs:98-128 | the grid's bullet ids become exactly the payload's, the kept bullets stay first and in order, new bullets are built from their snapshots, and a bullet whose snapshots name a shooter carries the one its last such snapshot names |
| LogicApplyLasers.LaserUpdate | GameLogic/Networking/GameStateApplier.cs:150-158 | the first laser with the snapshot's id takes the snapshot's orientation, damage and shooter id, and the shooter it names |
| LogicApplyLasers.LaserAppend | GameLogic/Networking/GameStateApplier.cs:141-149 | a laser snapshot with a new id joins the list last, with its shooter looked up |
| LogicApplyLasers.LaserStep | GameLogic/Networking/GameStateApplier.cs:137-159 | a snapshot with a known id adds nothing, one with a new id adds one laser built from it, and the first `k + 1` snapshots are then applied |
| LogicApplyLasers.ApplyLaserSnapshots | GameLogic/Networking/GameStateApplier.cs:137-159 | the kept lasers stay first, a new laser joins for each joining snapshot, and every snapshot is applied |
| LogicApplyLasers.UpdateLasers | GameLogic/Networking/GameStateApplier.cs:130-160 | the grid's laser ids become exactly the payload's, the kept lasers stay first and in order, and every laser carries its last snapshot's state |
| LogicApplyMines.MineUpdate | GameLogic/Networking/GameStateApplier.cs:182-190 | the first mine with the snapshot's id takes the snapshot's cell, damage, layer id and countdown, and the layer it names |
| LogicApplyMines.MineAppend | GameLogic/Networking/GameStateApplier.cs:173-181 | a mine snapshot with a new id joins the list last, with its layer looked up |
| LogicApplyMines.MineStep | GameLogic/Networking/GameStateApplier.cs:169-191 | a snapshot with a known id adds nothing, one with a new id adds one mine built from it, and the first `k + 1` snapshots are then applied |
| LogicApplyMines.ApplyMineSnapshots | GameLogic/Networking/GameStateApplier.cs:169-191 | the kept mines stay first, a new mine joins for each joining snapshot, and every snapshot is applied |
| LogicApplyMines.UpdateMines | GameLogic/Networking/GameStateApplier.cs:162-192 | the grid's mine ids become exactly the payload's, the kept mines stay first and in order, and every mine carries its last snapshot's state |
| LogicApplyTanks.WithOwner | GameLogic/Networking/GameStateApplier.cs:57-64 | the snapshots the loop does not skip, never more than the payload's |
| LogicApplyTanks.WithOwnerKeys | GameLogic/Networking/GameStateApplier.cs:57-64 | the snapshots not skipped are exactly those whose owner id a payload player has |
| LogicApplyTanks.TankUpdate | GameLogic/Networking/GameStateApplier.cs:91-93 | the first tank with the snapshot's owner id throws a null reference exactly when it lacks a turret or an ability the snapshot must supply; otherwise it takes the snapshot's fields, its item unless STEREO, the owner, its turret's and abilities' state, and its turret points back at it |
| LogicApplyTanks.Retarget | GameLogic/Networking/GameStateApplier.cs:91-93 | the tank throws exactly when it does not fit the snapshot; otherwise its record becomes the snapshot's fields, item (kept in STEREO), the owner and itself, its turret and abilities hold the snapshot's state and the turret points back at it |
| LogicApplyTanks.TankAppend | GameLogic/Networking/GameStateApplier.cs:66-72 | a snapshot with a new owner id joins the list last as a new tank owned by the owner, holding the snapshot's fields, turret and abilities, its turret pointing back at it |
| LogicApplyTanks.JoinTank | GameLogic/Networking/GameStateApplier.cs:66-72 | a fresh tank built from the snapshot, with the owner, the snapshot's fields and item, its turret and abilities holding the snapshot's state, and the turret pointing back at it |
| LogicApplyTanks.TankPlace | GameLogic/Networking/GameStateApplier.cs:66-93 | a snapshot updates the first tank with its owner id, throwing a null reference exactly when that tank lacks what the snapshot must supply, or, when there is none, one new tank built from it joins; the first tank of each id is then the snapshot's placement, and the tank placed holds the snapshot's turret and ability state |
| LogicApplyTanks.TankStep | GameLogic/Networking/GameStateApplier.cs:57-95 | a snapshot whose owner the payload lacks is skipped; otherwise it is placed, throwing a null reference exactly when the tank found lacks what the snapshot must supply; on success the tank holds the snapshot's fields, turret and ability state, and the tank, its turret and its owner point at each other |
| LogicApplyTanks.LinkOwner | GameLogic/Networking/GameStateApplier.cs:94 | one payload player's tank link changes, and no tank nor anything hanging off one |
| LogicApplyTanks.ApplyTankSnapshots | GameLogic/Networking/GameStateApplier.cs:57-95 | throws only a null reference; otherwise the kept tanks stay first, a new tank joins for each joining snapshot whose owner is a payload player, and every such snapshot is applied |
| LogicApplyTanks.UpdateTanks | GameLogic/Networking/GameStateApplier.cs:50-96 | throws only a null reference; otherwise the tanks whose owner id the payload lacks leave, the owner ids left are the kept ones plus the payload's with a payload player, every tank carries its last snapshot's fields, and each such player and its tank point at each other |
| LogicApplyZones.AttachZonePlayers | GameLogic/Networking/GameStateApplier.cs:232-257 | attaching throws exactly when the state names a player the payload lacks |
| LogicApplyZones.AttachZonePlayersPasses | GameLogic/Networking/GameStateApplier.cs:232-257 | attaching passes exactly when every player the state names is a payload player |
| LogicApplyZones.FirstUnattachedIsFirst | GameLogic/Networking/GameStateApplier.cs:201-227 | the first snapshot whose players cannot be attached is found, and none is found exactly when every lookup passes |
| LogicApplyZones.ZoneUpdate | GameLogic/Networking/GameStateApplier.cs:216-226 | the first zone with the snapshot's index takes its state, even when the lookup of its players then throws |
| LogicApplyZones.ZoneAppend | GameLogic/Networking/GameStateApplier.cs:205-215 | a zone with a new index joins last only when its players can be attached |
| LogicApplyZones.ZoneStep | GameLogic/Networking/GameStateApplier.cs:201-227 | a known index takes the state even when the lookup then throws; a new index joins only when the lookup passes |
| LogicApplyZones.ApplyZoneSnapshots | GameLogic/Networking/GameStateApplier.cs:201-227 | the kept zones stay first and every snapshot is applied until the first whose players cannot be attached, where it throws |
| LogicApplyZones.ZonesStoppedEnd | GameLogic/Networking/GameStateApplier.cs:201-227 | the snapshot the update stops at is the first whose players cannot be attached |
| LogicApplyZones.UpdateZones | GameLogic/Networking/GameStateApplier.cs:194-228 | the zones the payload lacks leave; unless a snapshot names a player the payload lacks, the zone indices become exactly the payload's and each zone carries its last snapshot's state |
| LogicStateApplier.UpdateDimensions | GameLogic/Networking/GameStateApplier.cs:36-48 | the grid ends with the payload's dimension and walls, and the dimension notifications are raised exactly when the dimension changes |
| LogicStateApplier.ReconcileTanks | GameLogic/Networking/GameStateApplier.cs:22 | the tank update, seen from the whole update: it throws only a null reference, otherwise leaves the tanks and links as reconciled, and it touches no other list, nor the dimension and walls |
| LogicStateApplier.ApplyToGrid | GameLogic/Networking/GameStateApplier.cs:17-34 | the notifications open the update and close it unless something throws; dimension and walls become the payload's; a tank whose snapshot lacks what its update dereferences throws a null reference and leaves every later list alone; otherwise every entity list ends as its own reconciler leaves it, carried through the later ones: the entities the payload lacks leave and the rest keep their order, one entity joins per new id, ids become the payload's, each first entity of an id carries its last snapshot's state, owners and tanks point at each other; unless the zone update throws, zone indices become the payload's and the items are the payload's |
| LogicRegeneration.UpdateRegenerationProcess | GameLogic/Utils/RegenerationUtils.cs:52-58 | a null timer stays null; a timer above one loses one tick; a timer at one or below becomes null; a running timer is always positive |
| LogicRegeneration.GetRegenerationProgres | GameLogic/Utils/RegenerationUtils.cs:35-40 | the progress is null exactly when the timer is null; it lies in [0, 1] when the timer is within the total, and is 0 when the timer is at the total |
| LogicRegeneration.RatioInUnit | GameLogic/Utils/RegenerationUtils.cs:39 | a remaining count between 0 and the total gives a ratio between 0 and 1, and 1 at the total |
| LogicRegeneration.CheckTimer | GameLogic/Abilities/BulletAbility.cs:38-49 | an initial timer is rejected with an out-of-range error exactly when it is a negative count |
| LogicRegeneration.CountdownLength | GameLogic/Utils/RegenerationUtils.cs:52-58 | a timer started at `total` runs for exactly `total` ticks: after n < total ticks it reads total - n, from then on it is null |
| LogicRegeneration.NullStays | GameLogic/Utils/RegenerationUtils.cs:54 | a null timer stays null for any number of ticks |
| LogicScore.TeamsGrow | GameLogic/Systems/Scoring/ScoreSystem.cs:50-58 | more players never have fewer teams (the frame of a team award) |
| LogicScore.TeamsWithinOf | GameLogic/Systems/Scoring/ScoreSystem.cs:50-58 | the teams of a subset of the players lie within any superset of the players' teams |
| LogicScore.ScoreSystem.constructor | GameLogic/Systems/Scoring/ScoreSystem.cs:10-14 | a new score system has an empty fractional buffer |
| LogicScore.ScoreSystem.AwardTeamScore | GameLogic/Systems/Scoring/ScoreSystem.cs:23-27 | a negative score throws out-of-range and leaves the score; otherwise the team's score grows by exactly the award (the team update at lines 91-98 of the same file) |
| LogicScore.ScoreSystem.AwardTeamFraction | GameLogic/Systems/Scoring/ScoreSystem.cs:38-41 | a negative fraction throws and changes nothing; otherwise the fraction is added to the team's buffer, the whole points move into the score and the buffer keeps the remainder below one (the buffer at lines 100-120 of the same file) |
| LogicScore.ScoreSystem.AwardPlayerScore | GameLogic/Systems/Scoring/ScoreSystem.cs:50-58 | a negative score throws; in a STEREO build the award goes to the player's team (a player without a team throws); otherwise the player's score grows by exactly the award (the team update at lines 91-98 of the same file) |
| LogicScore.ScoreSystem.AwardPlayerFraction | GameLogic/Systems/Scoring/ScoreSystem.cs:69-76 | a negative fraction throws and changes nothing; in a STEREO build it is buffered under the player's team, otherwise under the player, whole points move into the score and the remainder stays buffered (the buffer at lines 100-120 of the same file) |
| LogicScore.ScoreSystem.OnPlayerRemoved | GameLogic/Systems/Scoring/ScoreSystem.cs:84-87 | only the removed player's buffer entry goes |
| LogicStun.Stunned | GameLogic/Systems/Effects/StunSystem.cs:27-44 | after applying a stun it is stored with at least its full duration, and every other effect of the tank is as before |
| LogicStun.Decremented | GameLogic/Systems/Effects/StunSystem.cs:66-74 | after a tick an effect stays exactly when its duration minus one is positive, and it then has one tick less |
| LogicStun.DecrementedAll | GameLogic/Systems/Effects/StunSystem.cs:64-75 | the first loop keeps every tank and decrements each tank's effects |
| LogicStun.NonEmpty | GameLogic/Systems/Effects/StunSystem.cs:77-83 | the second loop keeps exactly the tanks with effects left, unchanged |
| LogicStun.Ticked | GameLogic/Systems/Effects/StunSystem.cs:62-84 | after `Update` a tank stays exactly when some effect has ticks left, and its effects are the decremented ones |
| LogicStun.TickedWellformed | GameLogic/Systems/Effects/StunSystem.cs:62-84 | a tick keeps the map well formed: no tank without effects, no anonymous effect not yet created |
| LogicStun.StunSystem.constructor | GameLogic/Systems/Effects/StunSystem.cs:8 | a new stun system holds no tank |
| LogicStun.StunSystem.ApplyStunKey | GameLogic/Systems/Effects/StunSystem.cs:27-44 | the map becomes the stun applied to the tank's entry, created if missing |
| LogicStun.StunSystem.ApplyStun | GameLogic/Systems/Effects/StunSystem.cs:16-20 | a fresh anonymous effect with the given ticks and block is stored on the tank with its full duration |
| LogicStun.StunSystem.ApplyStuns | GameLogic/Systems/Effects/StunSystem.cs:51-57 | the map becomes the stuns applied one by one in order |
| LogicStun.StunSystem.Update | GameLogic/Systems/Effects/StunSystem.cs:62-84 | the map becomes the ticked map of the old one |
| LogicStun.StunSystem.DecrementTanks | GameLogic/Systems/Effects/StunSystem.cs:64-75 | the loop over tanks leaves every tank's effects decremented |
| LogicStun.StunSystem.DropEmpty | GameLogic/Systems/Effects/StunSystem.cs:77-83 | the loop over tanks drops exactly those without effects |
| LogicStun.DecrementAll | GameLogic/Systems/Effects/StunSystem.cs:66-74 | the loop over one tank's effects produces the decremented effects |
| LogicStun.ApplyNeverShortens | GameLogic/Systems/Effects/StunSystem.cs:35-43 | applying a stun never shortens an effect in force: the stun keeps the larger of its stored and full duration, other tanks and effects do not shrink |
| LogicStun.ApplyAllAppend | GameLogic/Systems/Effects/StunSystem.cs:51-57 | applying a concatenation of stuns is applying the first part, then the second |
| LogicStun.BlockedAfterTick | GameLogic/Systems/Effects/StunSystem.cs:62-99 | after a tick `IsBlocked` holds exactly when, before it, an effect with more than one tick left carried the flag |
| LogicTanks.Player.constructor | GameLogic/Models/Player.cs:16-37 | a new player has its id, no score, no kills, no countdown, no tank and no team |
| LogicTanks.Player.SetTank | GameLogic/Models/Player.cs:143-151 | setting the tank stores it and subscribes this player to the tank's death |
| LogicTanks.Player.UpdateRegenerationProgress | GameLogic/Models/Player.cs:239-252 | a live tank leaves the countdown and health alone; for a dead tank the countdown loses one tick and, once it runs out, the tank is back at full health and the countdown is null |
| LogicTanks.PlayerRegenStep | GameLogic/Models/Player.cs:246-251 | one step of the player's countdown is the regeneration step, and the tank is restored exactly when a running countdown becomes null |
| LogicTanks.Tank.constructor | GameLogic/Models/Tank.cs:35-42 | a new tank has the given cell, direction and owner, the owner's id, full health, no countdown and is alive (the health default at line 77 of the same file) |
| LogicTanks.Tank.Snapshot | GameLogic/Networking/JsonConverters/GameState/TankJsonConverter.cs:13-42 | a tank read from a payload carries the snapshot's owner id, type, cell, direction, health, previous cell, visibility and item, no countdown, a new turret mirroring the snapshot's, and a radar and a mine exactly when the snapshot has them, holding their state |
| LogicTanks.BuildTurret | GameLogic/Networking/JsonConverters/GameState/TankJsonConverter.cs:23 | a fresh turret pointing at no tank, holding exactly the snapshot's direction and abilities |
| LogicTanks.Tank.InitTimer | GameLogic/Models/Tank.cs:88-100 | a negative initial countdown throws and leaves the timer; any other value is stored |
| LogicTanks.Tank.RegenerateTick | GameLogic/Models/Tank.cs:186-200 | a live tank is left alone; a dead tank's countdown runs, and the tank is back at full health exactly when it runs out |
| LogicTanks.Tank.RegenerateFull | GameLogic/Models/Tank.cs:203-213 | a live tank is left alone; a dead tank is at once alive at full health with no countdown |
| LogicTanks.Tank.SetPosition | GameLogic/Models/Tank.cs:253-259 | the tank moves to the new cell and the old cell becomes the previous one |
| LogicTanks.Tank.OnDied | GameLogic/Models/Tank.cs:296-300 | the tank's countdown starts at 50 ticks and every subscribed player's countdown starts at 50 (the handler attached at GameLogic/Models/Player.cs line 149) |
| LogicTanks.Tank.UpdateFrom | GameLogic/Models/Tank.cs:265-281 | passes exactly when the tank has a turret whose abilities the snapshot supplies and, outside STEREO, the snapshot supplies the radar and mine the tank has; the own fields are copied even before a null reference; on success the turret took the snapshot's state and, outside STEREO, the item, radar and mine took theirs |
| LogicTanks.Tank.CopyState | GameLogic/Models/Tank.cs:267-273 | the tank's own fields become the snapshot's |
| LogicTanks.Turret.constructor | GameLogic/Models/Turret.cs:19-22 | a new turret has the direction and no abilities |
| LogicTanks.Turret.UpdateFrom | GameLogic/Models/Turret.cs:110-121 | the direction is always taken; then the bullet, laser and stun bullet in that order, each present one taking the snapshot's state, and a missing one throws a null reference (a missing bullet before the laser and stun bullet are touched); passes exactly when the snapshot has every ability present |
| LogicTanks.Reloaded | GameLogic/Abilities/BulletAbility.cs:74-90 | a full magazine is unchanged; otherwise a bullet comes back exactly when the countdown runs out; the count stays within 0 to 3; after a reload the countdown is null exactly at a full magazine |
| LogicTanks.Refilled | GameLogic/Abilities/BulletAbility.cs:93-104 | below full one bullet is added, a full magazine is unchanged, and the countdown is cleared only when the magazine becomes full |
| LogicTanks.BulletComesBack | GameLogic/Abilities/BulletAbility.cs:67-90 | a spent bullet comes back after exactly 10 ticks: before that the count holds and the countdown reads 10 - n; then the count is one higher and the countdown restarts unless the magazine is full (the count limit at line 18 of the same file) |
| LogicTanks.Countdown | GameLogic/Abilities/BulletAbility.cs:74-90 | a countdown of t ticks below full reads t - n for n < t ticks and adds a bullet at tick t |
| LogicTanks.NullTimerReloadsAtOnce | GameLogic/Abilities/BulletAbility.cs:38-50 | a magazine below full with a null countdown gains a bullet on the next tick (the refill at lines 81-89 of the same file) |
| LogicTanks.BulletAbility.constructor | GameLogic/Abilities/BulletAbility.cs:7-15 | a new bullet ability has a full magazine and no countdown |
| LogicTanks.BulletAbility.InitCount | GameLogic/Abilities/BulletAbility.cs:23-35 | an initial count outside 0 to 3 throws out-of-range and leaves the count; any other is stored |
| LogicTanks.BulletAbility.InitTimer | GameLogic/Abilities/BulletAbility.cs:38-50 | a negative initial countdown throws and leaves the timer; any other value is stored |
| LogicTanks.BulletAbility.Use | GameLogic/Abilities/BulletAbility.cs:67-71 | one bullet fewer and the countdown restarts at 10 |
| LogicTanks.BulletAbility.RegenerateTick | GameLogic/Abilities/BulletAbility.cs:74-90 | the magazine becomes its reloaded state |
| LogicTanks.BulletAbility.RegenerateFull | GameLogic/Abilities/BulletAbility.cs:93-104 | the magazine becomes its refilled state |
| LogicTanks.BulletAbility.UpdateFrom | GameLogic/Abilities/BulletAbility.cs:110-114 | the count and countdown become the snapshot's |
| LogicTanks.DoubleBulletAbility.constructor | GameLogic/Models/Turret.cs:44 | a double-bullet ability starts unused, with the given usability |
| LogicTanks.DoubleBulletAbility.Use | GameLogic/Systems/Combat/BulletSystem.cs:134 | a use is counted once |
| LogicTanks.RadarAbility.constructor | GameLogic/Abilities/RadarAbility.cs:7-17 | a new radar is inactive with no countdown |
| LogicTanks.RadarAbility.InitTimer | GameLogic/Abilities/RadarAbility.cs:50-62 | a negative initial countdown throws and leaves the timer; any other value is stored |
| LogicTanks.RadarAbility.Use | GameLogic/Abilities/RadarAbility.cs:70-79 | the radar becomes active; in a STEREO build the countdown starts at 200, otherwise the tank gives up its item |
| LogicTanks.RadarAbility.Reset | GameLogic/Abilities/RadarAbility.cs:82-85 | the radar is inactive |
| LogicTanks.RadarAbility.RegenerateTick | GameLogic/Abilities/RadarAbility.cs:90-93 | the countdown takes one regeneration step |
| LogicTanks.RadarAbility.RegenerateFull | GameLogic/Abilities/RadarAbility.cs:96-99 | the countdown is null |
| LogicTanks.RadarAbility.UpdateFrom | GameLogic/Abilities/RadarAbility.cs:107-114 | the active flag becomes the snapshot's, and in a STEREO build the countdown too |
| LogicTanks.LaserAbility.constructor | GameLogic/Abilities/LaserAbility.cs:7-21 | a new laser ability has no countdown |
| LogicTanks.LaserAbility.InitTimer | GameLogic/Abilities/LaserAbility.cs:39-51 | a negative initial countdown throws and leaves the timer; any other value is stored |
| LogicTanks.LaserAbility.Use | GameLogic/Abilities/LaserAbility.cs:59-66 | in a STEREO build the countdown starts at 400, otherwise the tank gives up its item |
| LogicTanks.LaserAbility.RegenerateTick | GameLogic/Abilities/LaserAbility.cs:71-74 | the countdown takes one regeneration step |
| LogicTanks.LaserAbility.RegenerateFull | GameLogic/Abilities/LaserAbility.cs:77-80 | the countdown is null |
| LogicTanks.LaserAbility.UpdateFrom | GameLogic/Abilities/LaserAbility.cs:88-93 | only a STEREO build takes the snapshot's countdown |
| LogicTanks.MineAbility.constructor | GameLogic/Abilities/MineAbility.cs:7-21 | a new mine ability has no countdown |
| LogicTanks.MineAbility.InitTimer | GameLogic/Abilities/MineAbility.cs:39-51 | a negative initial countdown throws and leaves the timer; any other value is stored |
| LogicTanks.MineAbility.Use | GameLogic/Abilities/MineAbility.cs:59-66 | in a STEREO build the countdown starts at 80, otherwise the tank gives up its item |
| LogicTanks.MineAbility.RegenerateTick | GameLogic/Abilities/MineAbility.cs:71-74 | the countdown takes one regeneration step |
| LogicTanks.MineAbility.RegenerateFull | GameLogic/Abilities/MineAbility.cs:77-80 | the countdown is null |
| LogicTanks.MineAbility.UpdateFrom | GameLogic/Abilities/MineAbility.cs:88-93 | only a STEREO build takes the snapshot's countdown |
| LogicTanks.StunBulletAbility.constructor | GameLogic/Abilities/StunBulletAbility.cs:9-17 | a new stun-bullet ability has no countdown |
| LogicTanks.StunBulletAbility.InitTimer | GameLogic/Abilities/StunBulletAbility.cs:29-41 | a negative initial countdown throws and leaves the timer; any other value is stored |
| LogicTanks.StunBulletAbility.Use | GameLogic/Abilities/StunBulletAbility.cs:47-50 | the countdown starts at 200 |
| LogicTanks.StunBulletAbility.RegenerateTick | GameLogic/Abilities/StunBulletAbility.cs:53-56 | the countdown takes one regeneration step |
| LogicTanks.StunBulletAbility.RegenerateFull | GameLogic/Abilities/StunBulletAbility.cs:59-62 | the countdown is null |
| LogicTanks.StunBulletAbility.UpdateFrom | GameLogic/Abilities/StunBulletAbility.cs:68-71 | the countdown becomes the snapshot's |
| LogicTanks.CooldownAfterUse | GameLogic/Abilities/RadarAbility.cs:47-75 | after `Use` an ability's countdown is running for fewer than its total ticks and null from then on, so it is unusable for exactly that long (likewise LaserAbility.cs 36-62, MineAbility.cs 36-62 and StunBulletAbility.cs 26-49) |
| LogicTanks.Team.constructor | GameLogic/Models/Team.cs:21-26 | a new team has its name, no score and no players |
| LogicTanks.Team.AddPlayer | GameLogic/Models/Team.cs:155-158 | the player is appended |
| LogicTanks.Team.RemovePlayer | GameLogic/Models/Team.cs:168-171 | the first player with the same id is removed, and the result is true exactly when there was one |
| LogicTanks.Team.CombinedVisibilityGrid | GameLogic/Models/Team.cs:67-97 | null exactly when no member's tank has a grid; otherwise a fresh grid where each cell is true exactly when some member's grid is true there; a member grid smaller than the first throws index-out-of-range |
| LogicTanks.Combine | GameLogic/Models/Team.cs:71-95 | the loop over the members' grids yields the combined grid, null when no grid is present, and throws exactly when some grid does not fit |
| LogicTanks.RemoveFirstAt | GameLogic/Models/Team.cs:170 | removing the first player with an id found at index i drops exactly that index; when none is found the list is unchanged |
| LogicTanks.GridsOf | GameLogic/Models/Team.cs:73-75 | the grids are the members' tanks' grids, one per member, in order |
| LogicTanks.FirstGrid | GameLogic/Models/Team.cs:80-84 | the first present grid, none exactly when no grid is present |
| LogicTanks.FirstGridAppend | GameLogic/Models/Team.cs:80-84 | the first grid of a concatenation is the first part's when it has one, otherwise the second part's |
| LogicTanks.AllFitPrefix | GameLogic/Models/Team.cs:86-92 | a prefix of grids that all fit still fits |
| LogicTanks.FirstGridNone | GameLogic/Models/Team.cs:75-78 | a member without a grid changes neither the first grid, nor the fit, nor the cells seen |
| LogicTanks.FirstGridSome | GameLogic/Models/Team.cs:80-92 | a member with a grid fixes the size when it is the first, fits exactly when it is no smaller, and adds exactly its true cells |
| LogicTanks.Fold | GameLogic/Models/Team.cs:75-92 | one member's step keeps the combination exactly the OR of the grids so far, creating the grid at the first member with one, and fails exactly when the member's grid is too small |
| LogicTanks.OrInto | GameLogic/Models/Team.cs:86-92 | each cell of the combined grid becomes itself OR the member's cell, and the step fails exactly when the member's grid is smaller |
| LogicTanks.PlayerEqualsIsEquivalence | GameLogic/Models/Player.cs:184-187 | player equality holds exactly when the ids agree, never with null, and is reflexive, symmetric and transitive |
| LogicTanks.TankEqualsIsEquivalence | GameLogic/Models/Tank.cs:174-177 | tank equality holds exactly when the owners' ids agree, never with null, and is reflexive, symmetric and transitive |
| LogicTanks.TeamEqualsIsEquivalence | GameLogic/Models/Team.cs:106-109 | team equality holds exactly when the names agree, never with null, and is reflexive, symmetric and transitive |
| LogicZones.WithTicks | GameLogic/Zones/ZoneContext.cs:154-157 | setting a capture state's remaining ticks keeps its capturer and owner and changes nothing in a state without a capturer |
| LogicZones.Settled | GameLogic/Zones/ZoneContext.cs:150-158 | after `UpdateState` the next state keeps the capturer and owner its state system chose |
| LogicZones.Capturing | GameLogic/Zones/ZoneContext.cs:186-200 | a capturer present in the zone is tracked afterwards, starting at 50 or one tick closer; every other tracked player is unchanged and no one else is added |
| LogicZones.OwnerChangesOnlyByCapture | GameLogic/Zones/StateSystems/BeingCapturedZoneStateSystem.cs:34-64 | a zone that is not neutral changes owner only when exactly one tank is inside and its owner has no ticks left, and then it is captured by that player (likewise BeingRetakenZoneStateSystem.cs 36-65, CapturedZoneStateSystem.cs 45-66 and BeingContestedZoneStateSystem.cs 36-76) |
| LogicZones.CrowdContests | GameLogic/Zones/StateSystems/BeingCapturedZoneStateSystem.cs:63 | two or more tanks in a zone that is not neutral make it contested, keeping its owner (likewise BeingRetakenZoneStateSystem.cs 64, CapturedZoneStateSystem.cs 65 and BeingContestedZoneStateSystem.cs 75) |
| LogicZones.EmptyZoneKeepsOwner | GameLogic/Zones/StateSystems/BeingCapturedZoneStateSystem.cs:36-42 | an empty zone that is not neutral keeps its owner and is not contested (likewise BeingRetakenZoneStateSystem.cs 38-44, CapturedZoneStateSystem.cs 47-50 and BeingContestedZoneStateSystem.cs 38-49) |
| LogicZones.RemovalForgetsPlayer | GameLogic/Zones/StateSystems/BeingCapturedZoneStateSystem.cs:67-78 | after a player is removed, no zone that was not neutral is owned or being captured by that player, unless it was being retaken by its own owner (likewise BeingRetakenZoneStateSystem.cs 68-79, CapturedZoneStateSystem.cs 69-74 and BeingContestedZoneStateSystem.cs 79-84) |
| LogicZones.RetakenOwnerRemovedGivesFullCount | GameLogic/Zones/StateSystems/BeingRetakenZoneStateSystem.cs:70-74 | when the owner of a zone being retaken is removed, the retaker captures from the full 50 ticks, because the removed player's progress is already gone (with the full count of ZoneContext.cs 208-212) |
| LogicZones.OutsideEffect | GameLogic/Zones/ZoneContext.cs:171-184 | a tracked player outside the zone is one tick further, or dropped once past 50; a player not outside is unchanged |
| LogicZones.AloneCapturerCompletes | GameLogic/Zones/ZoneContext.cs:186-200 | a tracked player alone in a zone it is capturing comes one tick closer and captures the zone when the count reaches zero (with the completion step of BeingCapturedZoneStateSystem.cs 44-55) |
| LogicZones.Zone.constructor | GameLogic/Models/Zone.cs:8-38 | a new zone has its rectangle and index and is neutral |
| LogicZones.Zone.Snapshot | GameLogic/Networking/JsonConverters/GameState/ZoneJsonConverter.cs:13-30 | a zone read from a payload has the snapshot's rectangle, index and state |
| LogicZones.Zone.UpdateFrom | GameLogic/Models/Zone.cs:95-98 | only the state becomes the snapshot's |
| LogicZones.ZoneEqualsIsEquivalence | GameLogic/Models/Zone.cs:49-83 | zone equality is reflexive, symmetric and transitive, ignores the state, and equal zones contain the same cells |
| LogicZones.ZoneContext.constructor | GameLogic/Zones/ZoneContext.cs:78-80 | a new context is for its zone and tracks no player |
| LogicZones.ZoneContext.GetRemainingTicks | GameLogic/Zones/ZoneContext.cs:98-103 | a tracked player's stored count, and 50 for anyone else |
| LogicZones.ZoneContext.GetCapturingPlayers | GameLogic/Zones/ZoneContext.cs:112-115 | exactly the tracked players, each once |
| LogicZones.ZoneContext.GetClosestToCapturePlayer | GameLogic/Zones/ZoneContext.cs:125-132 | nothing exactly when no player is tracked, else a tracked player with the fewest remaining ticks and that count |
| LogicZones.ZoneContext.UpdateProgress | GameLogic/Zones/ZoneContext.cs:169-201 | the progress becomes the outside players' step followed by the capturer's step |
| LogicZones.ZoneContext.UpdateState | GameLogic/Zones/ZoneContext.cs:150-158 | the state becomes its system's next state from the owners inside, the progress and the closest player, carrying the capturer's remaining ticks |
| LogicZones.ZoneContext.OnPlayerRemoved | GameLogic/Zones/ZoneContext.cs:208-212 | the player's progress goes, then the state becomes its system's reaction to the removal |
| LogicZoneSystem.InsideIds | GameLogic/Systems/Zones/ZoneSystem.cs:62 | exactly the owners of the tanks inside the zone, no more than there are tanks |
| LogicZoneSystem.OutsideIds | GameLogic/Systems/Zones/ZoneSystem.cs:63 | exactly the owners of the tanks outside the zone, no more than there are tanks |
| LogicZoneSystem.OwnerIds | GameLogic/Systems/Zones/ZoneSystem.cs:62-63 | the owners of all tanks, one per tank, in order |
| LogicZoneSystem.SpotsOf | GameLogic/Systems/Zones/ZoneSystem.cs:62-63 | one spot per tank, in tank order, with where the tank stands and whose it is |
| LogicZoneSystem.InsideOutsidePartition | GameLogic/Systems/Zones/ZoneSystem.cs:62-63 | every tank is counted exactly once, inside the zone or outside it |
| LogicZoneSystem.TwinsFree | GameLogic/Systems/Zones/ZoneSystem.cs:43 | contexts for unequal zones are distinct objects with distinct zones |
| LogicZoneSystem.Kept | GameLogic/Systems/Zones/ZoneSystem.cs:55 | `RemoveAll` keeps exactly the contexts whose zone is still on the grid, with no two for equal zones |
| LogicZoneSystem.Award | GameLogic/Zones/StateSystems/CapturedZoneStateSystem.cs:32-42 | `HandleTick` rewards someone exactly when the zone is captured, and then its owner |
| LogicZoneSystem.ZoneSystem.constructor | GameLogic/Systems/Zones/ZoneSystem.cs:14-21 | a new zone system has no contexts and rewards through the score and heal systems it is given |
| LogicZoneSystem.ZoneSystem.SyncContexts | GameLogic/Systems/Zones/ZoneSystem.cs:41-55 | afterwards every zone of the grid has exactly one context, every context is for a zone of the grid, a kept context keeps its progress, and a new one starts with none |
| LogicZoneSystem.ZoneSystem.SyncAndRecord | GameLogic/Systems/Zones/ZoneSystem.cs:41-55 | as `SyncContexts`, and the recorded progress and states are a kept context's own and, for a new context, no progress and its zone's state |
| LogicZoneSystem.ZoneSystem.HandleCaptured | GameLogic/Zones/StateSystems/CapturedZoneStateSystem.cs:32-42 | the owner of a captured zone gains half a point through the score buffer (its team in STEREO builds); outside STEREO builds its tank, when alive and below 80 health, heals a quarter point through the heal buffer and is otherwise untouched; a missing team (STEREO) or tank throws, and exactly then |
| LogicZoneSystem.ZoneSystem.Reward | GameLogic/Zones/ZoneContext.cs:139-142 | `HandleTick` rewards only the owner of a captured zone, as `HandleCaptured` does; every other player's score and every other tank's health stay as they were, and a zone in any other state rewards no one and throws nothing |
| LogicZoneSystem.ZoneSystem.Tick | GameLogic/Systems/Zones/ZoneSystem.cs:62-66 | a context's turn first rewards the owner of a captured zone, found among the players by id: the half point (and, outside STEREO, the quarter-point heal of a tank below 80) goes through the buffers into the owner's or its team's score and the tank's health, and no other player or tank changes; a throwing reward leaves the context as it was, otherwise its progress moves on from the owners outside and inside, then its state |
| LogicZoneSystem.ZoneSystem.Advance | GameLogic/Systems/Zones/ZoneSystem.cs:65-66 | the progress becomes the outside players' step followed by the capturer's step, then the state becomes its system's next state from that progress and the closest player |
| LogicZoneSystem.ZoneSystem.TickAll | GameLogic/Systems/Zones/ZoneSystem.cs:57-68 | the contexts take their turns in order until a reward throws: each finished turn moved on from the context's own old progress and state with the owners inside and outside its zone, the rest are as they were, the rewards are those of the captured zones, and every context took its turn exactly when none threw |
| LogicZoneSystem.ZoneSystem.Update | GameLogic/Systems/Zones/ZoneSystem.cs:39-69 | the contexts match the grid's zones one to one, then each takes its turn from its old progress and state (a new one from none) with the owners of the tanks inside and outside its zone, until a reward throws; the rewards are the owners of the captured zones |
| LogicZoneSystem.ZoneSystem.OnPlayerRemoved | GameLogic/Systems/Zones/ZoneSystem.cs:134-140 | every context forgets the player and its state becomes its system's reaction to the removal |

## Left out

- Network, process and serialisation plumbing is not part of this model: the sockets, threads, JSON parsing and writing, the server's tick loop, logging and the client UI. The bot's caches and decisions take the parsed game state as input.
- FogOfWarManager and PathFinder are not part of this model, because they rest on floating-point angles, costs and a float simulation of bullets.
- Floating-point numbers are modelled as `real`: the fractional heal and score buffers and the bot's capture probability. Rounding is not modelled. Only the clamp, the truncation and the remainder facts are stated.
- Randomness becomes explicit parameters. The bot's `mt19937` draws are the fields of `Chance`. The search lookups are not draws: `bfs` is deterministic (see the `BotTactics.TankState.BfsStrategy` line below). The map generator's draws are nondeterministic choices within the range each draw promises. `EnumUtils.Random` is not part of this model.
- MapGenerator's main random wall loop (`GenerateWalls`) is not part of this model, nor is the falloff mask it builds from floats (`GeneratePenetrableMaskWithFalloff`). `ConnectEnclosedAreas` is not part of it either: its loop ends only when the random draws allow. `FindPathsToNearbyAreas`, `SealSmallEnclosedAreas` and `BreakThroughClosedAreas` are left out, since they exist only to serve that loop.
- `DirectionUtils.ToRadians` is not part of this model: it is a float conversion.
- LogicDirections: the `_ =>` default arms of the direction and rotation switches are not modelled, because the enum datatypes have no other values. That includes the `ArgumentOutOfRangeException` that `ToOrientation` throws for such a value.
- LogicDamage: the damage system's own rules are not shown in the source. A damage call is therefore recorded as a `DamageRequest` in an ordered log, and the amount it reports is a parameter. Health changes from damage are not modelled.
- LogicZones.NextState and LogicZones.StateAfterRemoval: the neutral zone state's system is not part of this model. Its choices enter as the parameters `neutralNext` and `neutralAfterRemoval`.
- The STEREO-only zone logic is not part of this model: `ZoneSystem.TryCaptureZone`, `ZoneSystem.OnTeamRemoved`, the STEREO `ZoneContext` with its shares arithmetic, and `DespawnSystem.RemoveTeam`.
- LogicTanks.Tank.UpdateFrom, LogicTanks.RadarAbility.UpdateFrom, LogicTanks.LaserAbility.UpdateFrom and LogicTanks.MineAbility.UpdateFrom: the build's STEREO symbol becomes a `stereo` flag (a parameter or a constant field), so one model covers both builds. The flag is not tied to the rest of the build.
- LogicTanks.DoubleBulletAbility: `DoubleBulletAbility.cs` is not part of this model. Its state is the fields `usable` and `uses`, and `Use` records one use.
- LogicMineSystem.MineSystem.Update: the source removes mines from the grid's list inside its loop. Here the kept list is built and assigned once, which is equivalent because nothing in the loop reads the list. It needs mine ids to be distinct, since `Remove` matches by id. When an explosion throws partway through, the model leaves the list as it was, whereas the source would already have removed the earlier mines.
- LogicLaserSystem.LaserSystem.Update: when a hit or an explosion throws part-way through the list, the model leaves the laser list as it was; the source has by then already removed the spent lasers met before the failing one.
- LogicBulletSystem.BulletSystem.Update: states that the queue drains and that the grid stays valid. It does not state the bullets' new positions, because `Bullet.UpdatePosition` steps over floats. It does not state the collision outcomes of its two resolutions either: bullets removed or replaced, damage requested, stuns, and scores awarded. Those are stated one bullet at a time by `ResolveOne`.
- LogicBulletSystem.BulletSystem.ResolveBulletCollisions: states only that the list never lengthens and gains only new bullets, and that the grid and stun system stay valid. The per-bullet outcome is stated by `ResolveOne`, which the loop calls on each bullet of the list as it stood. It is not composed over the loop, because each resolution changes the grid that the next bullet's check reads.
- LogicZoneSystem.ZoneSystem.TickAll: states the turns taken and whom each rewards, but not the scores and health the rewards change. `Tick` states them for one turn; across the loop a later owner may be the same player or team, so the buffers are not composed.
- LogicZoneSystem.ZoneSystem.Update: as `TickAll`, it names each turn's rewarded owner but not the resulting scores and health.
- LogicBullets: `Bullet.cs` has no `UpdateFrom`. Applying a bullet snapshot therefore changes only the bullet's shooter.
- LogicZones.ZoneContext.GetClosestToCapturePlayer: returns some tracked player with the fewest remaining ticks. It does not model which player the stable `OrderBy` picks among ties.
- LogicTanks.Tank.Snapshot and LogicZones.Zone.Snapshot: these stand for what the JSON converters copy into a snapshot. The converters themselves are not modelled.
- LogicTanks.Tank.Snapshot: the turret, radar and mine are references set only while the objects are built. In the source they are settable properties, which the backward-compatible radar assignment uses.
- LogicTanks.Turret.UpdateFrom: `DoubleBulletAbility.cs` and `HealingBulletAbility.cs` are not part of this model. The double-bullet and healing-bullet updates (`Turret.cs:115` and `Turret.cs:118`), with the null references they can throw, are not modelled. One turret holds the laser and the stun bullet, each present only in the build that has it.
- LogicApplyTanks.ApplyTankSnapshots and LogicApplyTanks.UpdateTanks: the turret, radar and mine state is stated per snapshot (`Holds` in TankStep, TankPlace and TankUpdate), not over the final list, because a later snapshot for the same tank overwrites it. On a throw, the partial list is not stated.
- LogicStateApplier.ApplyToGrid: models the non-STEREO client build only. The backward-compatible visibility and radar block (`GameStateApplier.cs:74-89`) is not modelled. Grid notifications are an ordered sequence of `GridEvent` values, not event handlers.
- LogicGrid: `Grid.GetPlayerTank` and `Grid.ToMapPayload` are not part of this model. They are lookups used only by serialisation.
- BotTactics.Bot.NextMove, BotTactics.Bot.Refresh and BotTactics.Bot.InitShares: require exactly one zone with non-negative shares. The source states this with an `assert`, and the shares are fractions sent by the server. They also require `Armed`: the server always sends bullet counts for the bot's own tanks.
- BotTactics.TankState.BfsStrategy: the search's result is a parameter that `Searched` constrains to an answer `bfs` may give: nothing exactly when no reachable state is accepted, otherwise a nearest accepted state at its distance with the first move of a shortest walk. `bfs` itself is deterministic: its FIFO queue expands the states in `ALL_ACTIONS` order, and that order decides which of several equally near accepted states, and which first move, it returns. The model does not pin that tie-break. The tactics state their answers up to it, and `BotSearch.Bfs` proves the search's own contract separately.
- BotTactics.TankState.FindEnemy: the enemy found is stated up to `bfs`'s tie-break among equally near accepted states (see `BfsStrategy`).
- BotTactics.TankState.RotateToEnemy: the turn is towards the enemy `FindEnemy` finds, so it is stated up to the same tie-break.
- BotTactics.TankState.Evade: the flee and healing moves are stated up to `bfs`'s tie-break among equally near accepted states.
- BotTactics.TankState.ZonePlay: the move towards the zone, and the turn towards an enemy, are stated up to `bfs`'s tie-break.
- BotTactics.TankState.NextMove: the answer equals the cascade for search results that `Looked` constrains, so it is stated up to `bfs`'s tie-break among equally near accepted states.
- BotTactics.Bot.Decide: its `Answered` decision is the cascade's for search results that `Looked` constrains, so it is stated up to `bfs`'s tie-break.
- BotTactics.Bot.RefreshAndDecide: its decision is stated up to `bfs`'s tie-break, as for `Decide`.
- BotTactics.Bot.FirstNextMove: its decision is stated up to `bfs`'s tie-break, as for `Decide`.
- BotTactics.Bot.NextMove: its decision is stated up to `bfs`'s tie-break, as for `Decide`.
- BotTactics.TankState.WillBeHitByBullet: guards against cells off the grid, where the source reads out of bounds. See "## Findings".
- ClientConnection.ConnectionData.GetUrlParameters and ClientConnection.ConnectionData.GetServerUrl: the process-wide setting for string enums becomes the parameter `stringEnums`. `QuickJoin` is a debug-build field that the model keeps as a plain field.

## Findings

| source | as written | input that shows it | evidently intended | confidence | as-written member | corrected member |
|---|---|---|---|---|---|---|
| Bots/Hard/src/bot/bot.h:122-133 | `bfsStrategy` probes `willBeHitByBullet` (bot.cpp, lines 170-174) at the state after the chosen move. When the search accepts its own start, that move is the reversal of the default forward move, i.e. a step backward. `isOnBulletTraj` then reads a tile outside the grid. | a tank at (0, 0) facing down, whose goal accepts its start: the probe reads cell (-1, 0). Of `bfsStrategy`'s callers only the healing search (bot.cpp, lines 325-345) can accept its start, when a healing bullet will reach the tank's own cell; the flee search's goal excludes the start's row and column (bot.cpp, lines 303-313) and the zone search runs only outside the zone (bot.cpp, lines 366 and 391). So it takes a tank on the border that the healing search keeps on its own cell | a cell off the grid is never hit by a bullet | not executed | BotRules.StrategyProbeLeavesGrid | BotTactics.TankState.WillBeHitByBullet |
