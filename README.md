# Battleship game engine in Dafny

This project models the game-state engine of a single-player Battleship
game. It has two parts:

- **The board.** This is a square grid of cells. Each cell is empty, holds
  part of a ship, or has been hit or missed. A cell that holds part of a ship
  also carries that ship's id. The board supports placing a ship on given
  cells, placing a whole fleet at random within a bounded number of
  attempts, resolving an attack (off-grid and repeated shots change nothing,
  and the attack reports a sunk ship), and asking whether every ship is sunk.
- **The computer opponent.** A cell is a valid target when it is on the
  grid, has been neither hit nor missed, and is not in the AI's shot history.
  There are three strategies:
  - *easy* picks uniformly among the valid cells, in row-major order;
  - *medium* fires at the first valid cell of its hunt queue, then at the
    first valid neighbour of its hit streak, and otherwise plays like easy;
  - *hard* builds a heat map. Each entry counts the ship placements that
    cover the cell. A valid cell next to a hit on a ship still afloat gets
    the boost `v -> 4v + 1` once per such hit. Hard then picks uniformly
    among the valid cells at the map's maximum.

  After every shot the AI's memory is updated: the shot history, the hunt
  queue, the hit streak, the last hit and the direction.

Boards and the AI's memory are values (the engine is copy-on-write).
Operations that compute by loops or in-place updates are methods (building
the board, placing a ship, the random placement loop, scanning for available
cells, rebuilding medium's queue, filling the heat map in an `array2`,
collecting hard's candidates). Each method is proved equal to a
specification function, and the properties of each function are proved as
lemmas. Every draw of `Math.random()` is a fraction `num/den` in `[0, 1)`.
`Math.floor(r * n)` is `Scale(r, n)`. Random placement reads its draws from
a stream `rng: nat -> Random01`, starting at a position it returns advanced.

Modules: `Types` (records), `Random` (draws), `Lists` (`filter`), `Scan`
(row-major sweeps), `BoardEngine` and `Placement` (board.ts), `AiCore`,
`AiTargeting`, `AiUpdate`, `AiHeat`, `HeatBounds`, `AiHard` and `AiTurn`
(ai.ts), and `AiScenarios` (the situations of the AI's unit tests).

## Model

| member | source | states |
|---|---|---|
| BoardEngine.IsWithinBounds | src/game/board.ts:17-18 | on a well-formed board, a coordinate is in bounds exactly when row y and column x of the grid exist |
| BoardEngine.GetCellStatus | src/game/board.ts:17-23 | no status exactly when the coordinate is off the grid; otherwise the status of the cell at row y, column x |
| BoardEngine.EmptyBoard | src/game/board.ts:25-40 | a well-formed board of the requested size with no ships, where every on-grid cell is empty, has no ship id and records its own coordinates |
| BoardEngine.CreateEmptyBoard | src/game/board.ts:25-40 | the nested row/column loops build exactly that empty board: n rows of n empty cells, each with its own coordinates, and no ships |
| BoardEngine.CanPlaceShipAt | src/game/board.ts:42-45 | a placement is accepted when every coordinate is on the grid over an empty cell (so an empty list is always accepted), and rejected as soon as one coordinate is off the grid or lands on a cell that is not empty |
| BoardEngine.Placed | src/game/board.ts:47-64 | the board after placing a ship keeps the input's size and is well formed |
| BoardEngine.PlaceShipAt | src/game/board.ts:47-64 | the marking loop yields a new board of the same size whose ship list is the old list plus the ship with the given coordinates, appended last; the target cells become ship cells carrying the ship's id and every other cell is unchanged |
| BoardEngine.Run | src/game/board.ts:84-91 | the run built from an anchor has `length` cells, and a cell is in it exactly when it lies in the anchor's row (horizontal) or column (vertical), from the anchor on, fewer than `length` steps away |
| BoardEngine.FindShipIndex | src/game/board.ts:124-125 | `findIndex`: the index of the first ship with the given id, or none exactly when no ship has that id |
| BoardEngine.SetStatus | src/game/board.ts:118-122 | setting a status on the cloned board changes that one cell's status only; every other cell and the ship list are unchanged |
| BoardEngine.StrikeShip | src/game/board.ts:121-145 | the cell becomes a hit and nothing else on the grid changes. If no ship has the cell's id, the ship list is unchanged and nothing sinks. Otherwise the first ship with that id, and only it, gains exactly one hit, and it is reported sunk, as updated, exactly when its hits reach its length |
| BoardEngine.ReceiveAttack | src/game/board.ts:104-149 | off the grid: the same board and no hit. An already hit or missed cell: the same board, and `hit` reports whether it was a hit. A ship cell with a non-empty id becomes a hit: if no ship has that id the ship list is unchanged and nothing sinks; otherwise the first ship with that id gains exactly one hit and every other ship is unchanged, and the reported sunk ship is that updated ship exactly when its hits reach its length. Any other unresolved cell becomes a miss, with the ship list unchanged and no sink. No other cell changes. |
| BoardEngine.AllShipsSunk | src/game/board.ts:151-152 | false with no ships; false when some ship has fewer hits than its length; true when there is a ship and every ship's hits reach its length |
| BoardEngine.EmptyBoardConsistent | src/game/board.ts:25-40 | an empty board satisfies the fleet invariant: ships on the grid, apart, with non-empty ids |
| BoardEngine.PlacedKeepsShipsOnGrid | src/game/board.ts:42-64 | placing a ship where the placement check accepts it keeps every ship on its own on-grid cells and keeps the ships apart |
| BoardEngine.AttackKeepsFleetConsistent | src/game/board.ts:104-149 | an attack preserves the fleet invariant |
| BoardEngine.AttackKeepsAllSunk | src/game/board.ts:151-152 | once the fleet is non-empty and every ship has hits at least its length, every further attack keeps it so |
| BoardEngine.AttackUnchangedIff | src/game/board.ts:108-116 | the returned board equals the input exactly when the target is off the grid or already resolved (the caller's no-op check) |
| BoardEngine.AttackTwiceIsAttackOnce | src/game/board.ts:112-116 | attacking the same cell again returns the once-attacked board unchanged, with the same hit flag and no sunk ship |
| BoardEngine.PlacementBlocksItsCells | src/game/board.ts:42-64 | after a placement its own (non-empty) cells are no longer placeable, and any other candidate is placeable exactly when it was before and avoids the placed cells |
| Placement.MaxAttempts | src/game/board.ts:67 | the attempt budget size * size * 10 is never negative |
| Placement.AttemptIsRun | src/game/board.ts:72-91 | every attempt that gets past the orientation check is a straight run of the ship's length |
| Placement.AttemptTried | src/game/board.ts:72-91 | when the drawn orientation leaves room, the attempt is the run from the anchor drawn over 0..maxX and 0..maxY |
| Placement.DrawAttempt | src/game/board.ts:72-91 | the loop body's draws and run construction compute exactly the attempt at that stream position |
| Placement.BuildRun | src/game/board.ts:84-91 | the `push` loop builds exactly the run of the ship's length from the anchor |
| Placement.Choose | src/game/board.ts:66-99 | the attempt loop reads at most three draws per attempt within its budget, and a chosen run is accepted by the placement check |
| Placement.ChooseRejected | src/game/board.ts:93-96 | an attempt the placement check rejects costs one unit of the budget and the loop goes on with the next three draws |
| Placement.ChosenAttempt | src/game/board.ts:84-95 | the chosen run is exactly the run tried by the last attempt read |
| Placement.ChosenIsRun | src/game/board.ts:84-95 | when every attempt is a straight run, so is the chosen one |
| Placement.AttemptsAreRuns | src/game/board.ts:72-91 | every tried attempt in the stream is a straight run of the ship's length |
| Placement.PlaceRandomly | src/game/board.ts:66-99 | a successful random placement is a well-formed board of the same size |
| Placement.PlaceShipRandomly | src/game/board.ts:66-99 | the `while` loop with its attempt counter and `break` returns exactly the result and stream position of the specification |
| Placement.PlaceRandomlyProperties | src/game/board.ts:66-99 | success places the ship, via placeShipAt, on a straight run of its length whose cells were all in bounds and empty; failure names the ship and the board size; at most 3 * size * size * 10 draws are read |
| Placement.TooLongFailsAtOnce | src/game/board.ts:74-79 | a ship longer than a non-empty board fails after reading exactly one draw, whatever it is |
| Placement.EmptyBoardFails | src/game/board.ts:67-70 | on a board of size 0 the budget is 0 and placement fails without reading a draw |
| Placement.PlaceFleet | src/game/board.ts:101-102 | a successful fleet placement appends the fleet's ships in list order after the old ones; each is unchanged but for its coordinates, which form a straight run of its length |
| Placement.PlaceFleetRandomly | src/game/board.ts:101-102 | the `reduce` loop threads the board and the stream through the ships and equals the specification |
| Placement.PlacedOne | src/game/board.ts:93-95 | one successful placement appends the ship on a straight run and keeps ships on the grid and apart |
| Placement.PlaceFleetStep | src/game/board.ts:101-102 | placing the first ship and then the rest extends the board by the whole fleet, in order |
| Placement.PlaceFleetOnGrid | src/game/board.ts:101-102 | placing a fleet on a consistent board leaves every ship on its own on-grid cells |
| Placement.PlaceFleetFailure | src/game/board.ts:98-102 | a failed fleet placement reports a ship of the fleet and the board size |
| Placement.PlacedFleetDisjoint | src/game/board.ts:93-94 | the ships of a successful fleet placement never share a cell |
| Random.Scale | src/game/ai.ts:48 | `Math.floor(r * n)` of a draw in [0, 1) is an index below n (0 for n = 0) |
| Random.ScaleIs | src/game/ai.ts:48 | the index is the i with i <= r * n < i + 1 |
| Random.ScaleFirst | src/game/ai.ts:48 | a draw below 1/n picks index 0 |
| Random.ScaleLast | src/game/ai.ts:48 | a draw of at least (n - 1)/n picks index n - 1 |
| Lists.Filter | src/game/ai.ts:54-56 | `filter` keeps exactly the elements that pass, and never lengthens the list |
| Lists.FilterEmpty | src/game/ai.ts:54-58 | the filtered list is empty exactly when no element passes |
| Lists.FilterFirst | src/game/ai.ts:58-59 | the head of a non-empty filtered list is the first element that passes |
| Lists.FilterInOrder | src/game/ai.ts:270-273 | `filter` picks its survivors at strictly increasing positions of the input, so it keeps their relative order |
| Lists.FilterNoDuplicates | src/game/ai.ts:270-273 | filtering a list without repeats gives a list without repeats |
| Lists.FilterAll | src/game/ai.ts:270-273 | when every element passes, the list is unchanged |
| Lists.FilterDropsOne | src/game/ai.ts:284-288 | when only the k-th element fails, filtering drops exactly that element and keeps the order |
| Lists.Count | src/game/ai.ts:167-172 | the number of occurrences is at most the length, and 0 exactly when the element is absent |
| Lists.CountAppend | src/game/ai.ts:167-172 | occurrences in a concatenation add up |
| Lists.CountNoDuplicates | src/game/ai.ts:284-290 | a list without repeats holds each element at most once |
| Lists.NoDuplicatesConcat | src/game/ai.ts:290 | two repeat-free lists with no common element concatenate to a repeat-free list |
| Scan.RowScanMember | src/game/ai.ts:28-33 | a cell is in one row's sweep exactly when it is in that row, within the width, and passes the test |
| Scan.RowScanMembers | src/game/ai.ts:28-33 | the same for all cells at once |
| Scan.RowScanSorted | src/game/ai.ts:28-33 | one row's sweep is in increasing column order |
| Scan.GridScanMember | src/game/ai.ts:27-34 | a cell is in the grid sweep exactly when it is within width and height and passes the test |
| Scan.GridScanMembers | src/game/ai.ts:27-34 | the same for all cells at once |
| Scan.GridScanSorted | src/game/ai.ts:27-34 | the grid sweep is in row-major order |
| Scan.GridScanProperties | src/game/ai.ts:27-34 | the grid sweep holds exactly the passing cells, in row-major order, without repeats |
| Scan.RowScanFull | src/game/ai.ts:28-33 | when every cell of a row passes, the sweep is the whole row from column 0 |
| AiCore.CreateInitialAiState | src/game/ai.ts:3-9 | the AI starts with no shots, an empty queue and streak, no last hit and no direction |
| AiCore.CoordsEqual | src/game/ai.ts:11-12 | true exactly when the coordinates are equal |
| AiCore.Includes | src/game/ai.ts:22 | `some(coordsEqual)` holds exactly when the coordinate is in the list |
| AiCore.IsValidTarget | src/game/ai.ts:14-23 | valid exactly when on the grid, neither hit nor missed, and not in the shot history |
| AiCore.GetAdjacentCells | src/game/ai.ts:38-43 | four distinct cells, exactly the orthogonal neighbours |
| AiCore.Neighbours | src/game/ai.ts:66-67 | the neighbour list of a streak has four entries per hit |
| AiCore.NeighboursMembership | src/game/ai.ts:66-67 | a cell is in the streak's neighbour list exactly when it is next to some hit of the streak |
| AiTargeting.AvailableProperties | src/game/ai.ts:25-36 | the available cells are exactly the valid targets, in row-major order and without repeats |
| AiTargeting.AvailableMembers | src/game/ai.ts:25-36 | a cell is available exactly when it is a valid target |
| AiTargeting.AvailableInRow | src/game/ai.ts:28-33 | the inner loop collects exactly the valid cells of row y, left to right |
| AiTargeting.GetAvailableCells | src/game/ai.ts:25-36 | the nested loops collect exactly the available cells |
| AiTargeting.EasyMove | src/game/ai.ts:45-50 | no move exactly when no cell is available; otherwise an available, valid cell |
| AiTargeting.EasyPicks | src/game/ai.ts:47-49 | with n available cells, easy takes the one at index floor(r * n) |
| AiTargeting.GetEasyMove | src/game/ai.ts:45-50 | the method computes easy's move |
| AiTargeting.Keep | src/game/ai.ts:65-75 | the rebuilt list holds exactly the valid candidates, without repeats |
| AiTargeting.KeepFirst | src/game/ai.ts:65-79 | the head of the rebuilt list is the first valid candidate |
| AiTargeting.KeepNext | src/game/ai.ts:68-73 | offering one more candidate appends it exactly when it is valid and not yet kept |
| AiTargeting.KeepEach | src/game/ai.ts:67-74 | the inner loop over one hit's neighbours extends the kept list as the specification does |
| AiTargeting.RebuildQueue | src/game/ai.ts:64-75 | the nested loops over the streak and its neighbours build exactly the rebuilt queue |
| AiTargeting.MediumMove | src/game/ai.ts:52-85 | any move is a valid target, and there is no move exactly when no cell is available |
| AiTargeting.GetMediumMove | src/game/ai.ts:52-85 | the method computes medium's move |
| AiTargeting.MediumPrefersQueue | src/game/ai.ts:54-60 | when some queue entry is valid, medium fires at the first valid entry |
| AiTargeting.MediumTakesValidHead | src/game/ai.ts:54-60 | a valid queue head is medium's move |
| AiTargeting.MediumChasesStreak | src/game/ai.ts:64-80 | with no valid queue entry but a valid streak neighbour, medium fires at the first valid neighbour (streak order, then up, down, left, right), which is next to a hit of the streak |
| AiTargeting.MediumFallsBackToEasy | src/game/ai.ts:84 | with neither a valid queue entry nor a valid streak neighbour, medium plays easy's move |
| AiUpdate.NewNeighbours | src/game/ai.ts:284-288 | at most four distinct cells: exactly the target's neighbours that are valid and not yet queued |
| AiUpdate.NeighboursButLeft | src/game/ai.ts:284-288 | when only the left neighbour is not fresh, a hit queues up, down and right, in that order |
| AiUpdate.NeighboursButRight | src/game/ai.ts:284-288 | when only the right neighbour is not fresh, a hit queues up, down and left, in that order |
| AiUpdate.UpdateAiStateAfterShot | src/game/ai.ts:257-298 | the target is always appended to the history. A sink empties the streak, clears the last hit and the direction, and the new queue is the queue filtered, in order, to the cells not holding the sunk ship. A hit that sinks nothing appends the target to the streak, makes it the last hit, and puts its fresh neighbours in front of the queue. A miss leaves the queue filtered, in order, to the cells other than the target and changes nothing else. |
| AiUpdate.UpdateKeepsQueueOrder | src/game/ai.ts:269-295 | after a sink or a miss the surviving queue entries appear in the same relative order as before |
| AiUpdate.UpdateKeepsQueueOk | src/game/ai.ts:269-295 | a hunt queue of distinct on-grid cells stays so after every update |
| AiUpdate.UpdateKeepsHistoryDistinct | src/game/ai.ts:264-267 | firing at a cell not yet in the history keeps the history free of repeats |
| AiHeat.RemainingShips | src/game/ai.ts:87-89 | exactly the ships whose hits are below their length |
| AiHeat.Lengths | src/game/ai.ts:127 | the list of the remaining ships' lengths, in order |
| AiHeat.FitsAtMeans | src/game/ai.ts:91-112 | a placement fits exactly when every cell of its run is on the grid and not a miss; hits do not block |
| AiHeat.CanShipFitAt | src/game/ai.ts:91-112 | the loop with its early returns decides exactly whether the placement fits |
| AiHeat.NotFitting | src/game/ai.ts:102-109 | one blocked cell of the run makes the placement not fit |
| AiHeat.Boost | src/game/ai.ts:172 | boosting never lowers a non-negative entry, and at least one boost lifts v to 4v + 1 or more |
| AiHeat.RowMax | src/game/ai.ts:178-185 | the running maximum, started at 0, is never negative |
| AiHeat.GridMax | src/game/ai.ts:178-185 | the running maximum over the grid, started at 0, is never negative |
| AiHeat.RowMaxProperties | src/game/ai.ts:180-184 | one row's running maximum bounds every entry of the row, and is 0 or attained in the row |
| AiHeat.GridMaxProperties | src/game/ai.ts:178-185 | the grid maximum bounds every entry, and is 0 or attained |
| AiHeat.GridMaxZero | src/game/ai.ts:178-185 | when no entry is positive, the maximum is 0 |
| AiHeat.RowMaxZero | src/game/ai.ts:180-184 | when no entry of a row is positive, that row's running maximum is 0 |
| AiHeat.AddRun | src/game/ai.ts:133-147 | one fitting placement adds one to each unresolved cell it covers and leaves every other entry as it was |
| AiHeat.AddRow | src/game/ai.ts:131-149 | both orientations at every anchor of row y add, to each unresolved cell, the number of fitting placements anchored in that row that cover it |
| AiHeat.AddLength | src/game/ai.ts:130-150 | every anchor of the board adds, to each unresolved cell, the number of fitting placements of that length covering it |
| AiHeat.AddFleet | src/game/ai.ts:127-151 | from an all-zero map, every entry becomes the number of fitting placements, over the remaining lengths, covering the cell when it is unresolved, and 0 otherwise |
| AiHeat.CollectUnfinishedInRow | src/game/ai.ts:155-162 | one row's loop collects exactly its hits on ships still afloat, left to right |
| AiHeat.CollectUnfinishedHits | src/game/ai.ts:153-164 | the nested loops collect exactly the unfinished hits in row-major order |
| AiHeat.BoostAround | src/game/ai.ts:168-174 | the loop over one hit's neighbours boosts each valid cell once per time it appears in the list |
| AiHeat.ApplyBoosts | src/game/ai.ts:166-176 | every valid cell is boosted once per unfinished hit next to it; other entries are unchanged |
| AiHeat.MaxOfMap | src/game/ai.ts:178-185 | the scan returns the grid maximum of the map |
| AiHeat.GetHardProbabilityMap | src/game/ai.ts:114-188 | a fresh size x size map whose every entry is the cell's heat, and the maximum of the map |
| AiHeat.NoShipsLeftCold | src/game/ai.ts:118-125 | with every ship sunk, the map is all zero and its maximum is 0 |
| AiHeat.AdjacentCount | src/game/ai.ts:166-176 | the number of hits next to a cell is 0 exactly when no hit is next to it |
| AiHeat.NeighbourCount | src/game/ai.ts:167-169 | a cell appears in the neighbour list of the hits once per hit next to it |
| AiHeat.UnfinishedHitsMeans | src/game/ai.ts:153-164 | the unfinished hits are exactly the hit cells whose ship is still afloat, without repeats |
| AiHeat.HeatProperties | src/game/ai.ts:114-176 | every heat is non-negative; a hit or missed cell has heat 0; otherwise the placement count is boosted once per unfinished hit next to the cell when the cell is a valid target |
| AiHeat.BoostOnlyNearUnfinishedHits | src/game/ai.ts:166-176 | an entry that differs from the placement count belongs to a valid target next to a hit on a ship still afloat |
| AiHeat.BoostNearUnfinishedHit | src/game/ai.ts:166-176 | a valid target next to an unfinished hit has heat at least 4 times its placement count plus 1 |
| HeatBounds.CoverageAtMostTwiceLength | src/game/ai.ts:129-151 | a cell is covered by at most 2 * length fitting placements of one length |
| HeatBounds.FleetCoverageBound | src/game/ai.ts:129-151 | summed over the remaining lengths, at most twice the total length |
| HeatBounds.RawBound | src/game/ai.ts:127-151 | an unboosted entry is at most twice the total length of the ships afloat |
| AiHard.CandidatesMeans | src/game/ai.ts:197-214 | the candidates are exactly the valid targets whose heat equals the maximum |
| AiHard.HardMove | src/game/ai.ts:190-222 | any move is a valid target, and there is no move exactly when no cell is available |
| AiHard.CandidatesInRow | src/game/ai.ts:200-213 | one row's loop collects exactly its valid cells at the maximum, left to right |
| AiHard.CollectCandidates | src/game/ai.ts:197-214 | the nested loops collect exactly the candidates in row-major order |
| AiHard.GetHardMove | src/game/ai.ts:190-222 | the method computes hard's move |
| AiHard.MaxHeatProperties | src/game/ai.ts:178-185 | the maximum is non-negative, bounds every on-grid heat, and is 0 or attained on the grid |
| AiHard.HardMoveProperties | src/game/ai.ts:193-221 | hard plays easy when the maximum is at most 0 or no valid cell reaches it; otherwise it fires at a valid cell whose heat is the maximum |
| AiHard.AiMove | src/game/ai.ts:224-240 | whatever the difficulty, any move is a valid target, and there is no move exactly when no cell is available |
| AiHard.GetAiMoveForDifficulty | src/game/ai.ts:224-254 | the dispatch returns the move of the game's difficulty |
| AiTurn.HardChasesUnfinishedHit | src/game/ai.ts:166-221 | when a valid neighbour of an unfinished hit is boosted above every possible unboosted entry, hard fires, for every draw, at a valid cell next to an unfinished hit |
| AiTurn.TurnKeepsHistoryDistinct | src/game/ai.ts:224-298 | firing where any strategy points and updating the memory keeps the shot history free of repeats |
| AiScenarios.TestBoard | src/game/ai.test.ts:9-22 | the test boards: given hit cells on ship1, every other cell empty |
| AiScenarios.OneHitQueuesFourNeighbours | src/game/ai.test.ts:372-404 | a lone hit at (2,2) on 5x5 queues exactly (2,1), (2,3), (1,2), (3,2), in that order, and records the shot and the streak |
| AiScenarios.OneHitAvailable | src/game/ai.test.ts:71-104 | after the hit at (2,2), 24 cells are available, from (0,0) to (4,4) |
| AiScenarios.OneHitMiddleRow | src/game/ai.test.ts:71-104 | row 2 offers four cells, all but the hit |
| AiScenarios.EasyFirstOnOneHit | src/game/ai.test.ts:129-163 | a draw below 1/24, such as 0, makes easy take (0,0) |
| AiScenarios.EasyLastOnOneHit | src/game/ai.test.ts:71-104 | a draw of at least 23/24, such as 0.99, makes easy take (4,4), which is not next to the hit |
| AiScenarios.EasyIgnoresTheQueue | src/game/ai.test.ts:129-163 | easy takes (0,0), which is not in the hunt queue |
| AiScenarios.OneHitUnfinished | src/game/ai.test.ts:285-314 | (2,2) is the only hit on a ship still afloat |
| AiScenarios.OneHitFleet | src/game/ai.test.ts:285-314 | an unboosted entry on that board is at most 6 |
| AiScenarios.OneHitRawAbove | src/game/ai.test.ts:285-314 | two placements of ship1 cover (2,1) |
| AiScenarios.HardChasesTheHit | src/game/ai.test.ts:316-348 | hard fires next to the hit at (2,2) for every draw |
| AiScenarios.MediumHuntsNextToTheHit | src/game/ai.test.ts:167-226 | medium fires at (2,1), next to the hit, whatever the draw |
| AiScenarios.FreshThreeAvailable | src/game/ai.test.ts:106-127 | on a fresh 3x3 board all nine cells are available, row by row |
| AiScenarios.EasyReachesDifferentCells | src/game/ai.test.ts:106-127 | draws 0, 0.5 and 0.99 make easy take the different cells (0,0), (1,1) and (2,2) |
| AiScenarios.MediumFallsBackOnFreshBoard | src/game/ai.test.ts:228-238 | with an empty queue and streak, medium still finds a cell on a fresh 5x5 board |
| AiScenarios.HardWithoutHits | src/game/ai.test.ts:350-368 | with no hits, hard still finds a cell, whatever the draw |
| AiScenarios.ClusterFirstHit | src/game/ai.test.ts:240-281 | the hit at (3,3) queues up, down and left; right is the other hit |
| AiScenarios.ClusterSecondNeighbours | src/game/ai.test.ts:240-281 | around (4,3), up, down and right are new; left is the first hit |
| AiScenarios.ClusterSecondHit | src/game/ai.test.ts:240-281 | the second hit puts (4,2), (4,4), (5,3) in front of the first hit's queue |
| AiScenarios.MediumOnCluster | src/game/ai.test.ts:240-281 | with (4,2) at the head of the queue, medium fires there |
| AiScenarios.MediumStaysOnTheCluster | src/game/ai.test.ts:240-281 | after both hits, medium fires at (4,2), next to the second hit, whatever the draw |
| AiScenarios.SinkResetsTheChase | src/game/ai.test.ts:406-438 | sinking ship1 empties the streak, clears the last hit and direction, and keeps the queued cells of other ships |
| AiScenarios.MissIsRemembered | src/game/ai.test.ts:440-448 | a miss at (1,1) is recorded in the history and changes nothing else |

## Left out

- `Math.random()` is not modelled as floating point. Each draw is an exact fraction in [0, 1) passed in as a parameter. Easy, medium and hard take one draw per move. Random placement reads an explicit stream of draws.
- The debug `console.log` block of getAiMoveForDifficulty (src/game/ai.ts:242-252) is left out, because it is output only.
- The `default` branch of the difficulty switch (src/game/ai.ts:238-239) cannot be reached: difficulty is a three-valued datatype.
- The thrown `Error` of placeShipRandomly (src/game/board.ts:98) becomes an `Err` value. It carries the ship id and the board size but not the message text.
- BoardEngine.Placed: the ensures states only the size and well-formedness. The ship list and cell contents are stated by BoardEngine.PlaceShipAt, which is proved equal to it.
- Placement.PlaceRandomly: the ensures states only well-formedness. The full promise (a straight run of free cells, the failure's naming, the draw budget) is in Placement.PlaceRandomlyProperties.
- BoardEngine.PlaceShipAt requires every coordinate to be on the grid. For an off-grid coordinate the source throws a TypeError while indexing the cloned cells.
- AiUpdate.UpdateAiStateAfterShot requires, on a sink, every queued cell to be on the grid. The source indexes the board with each queued cell and throws otherwise. The queue invariant in AiUpdate.UpdateKeepsQueueOk guarantees this precondition.
- AiTurn.HardChasesUnfinishedHit proves the chase only when some boosted neighbour exceeds twice the total length afloat. The model makes no claim that hard chases hits in general.
- HeatBounds.RawBound requires non-negative ship lengths.
- Boards and the AI's memory are values, so the copy-on-write cloning (cloneBoard, src/game/board.ts:8-15) and aliasing are not modelled. Nothing can observe them through the engine's interface.
- Coordinates, sizes and lengths are unbounded integers. Fractional or non-finite JavaScript numbers are not modelled.
- createEmptyBoard does not reject a non-positive size. It returns a board with no rows, and the model follows this.
- `currentDirection` is kept as an inert field. Only the sink path writes it, and no strategy reads it.
- The UI components (src/App.tsx, src/components/*) are not part of this model, and neither is the `scores` field that the test fixture in src/game/ai.test.ts:50 adds to its game state.
- Game.tsx, which sequences an attack and the memory update, is not part of this model. Its no-op check on the returned board is stated by BoardEngine.AttackUnchangedIff.
- The probability map's shape as an array of arrays is modelled as an `array2`.
