/**
 * The situations exercised by the AI's unit tests, as lemmas: a 5x5 board
 * with one hit on an unsunk ship of length 3, a fresh 3x3 board, a 7x7
 * board with two hits in a row, and the sink and miss updates. Each board
 * is described by what its cells hold; TestBoard builds one.
 */
module AiScenarios {
  import opened Types
  import opened Random
  import opened BoardEngine
  import opened Lists
  import opened Scan
  import opened AiCore
  import opened AiTargeting
  import opened AiUpdate
  import opened AiHeat
  import opened HeatBounds
  import opened AiHard
  import opened AiTurn

  function Ship1(length: int, coords: seq<Coord>, hits: int): Ship
  {
    Ship("ship1", "Ship-ship1", length, coords, hits)
  }

  /** The board has the given size and ships, its `hits` cells are hits on ship1 and the rest is empty. */
  ghost predicate Shows(b: Board, size: int, hits: seq<Coord>, ships: seq<Ship>)
  {
    WellFormed(b) && b.size == size && b.ships == ships &&
    forall c :: IsWithinBounds(b, c) ==>
      CellAt(b, c) == if c in hits then Cell(c, Hit, Some("ship1")) else Cell(c, Empty, None)
  }

  /** A board of the given size whose `hits` cells are hits on ship1; every other cell is empty. */
  function TestBoard(size: nat, hits: seq<Coord>, ships: seq<Ship>): (b: Board)
    ensures Shows(b, size, hits, ships)
  {
    Board(size, seq(size, y => seq(size, x => if Coord(x, y) in hits then Cell(Coord(x, y), Hit, Some("ship1"))
                                              else EmptyCell(x, y))), ships)
  }

  /** 5x5, (2,2) hit on ship1 of length 3 with one hit. */
  ghost predicate OneHit(b: Board)
  {
    Shows(b, 5, [Coord(2, 2)], [Ship1(3, [Coord(2, 2), Coord(3, 2), Coord(4, 2)], 1)])
  }

  /** The AI's memory after its hit at (2,2). */
  function AfterOneHit(b: Board): AiState
    requires WellFormed(b)
  {
    UpdateAiStateAfterShot(CreateInitialAiState(), Coord(2, 2), true, b, None)
  }

  /** A hit at (2,2) queues its four neighbours, up, down, left, right. */
  lemma OneHitQueuesFourNeighbours(b: Board)
    requires OneHit(b)
    ensures AfterOneHit(b).huntQueue == [Coord(2, 1), Coord(2, 3), Coord(1, 2), Coord(3, 2)]
    ensures AfterOneHit(b).shotHistory == [Coord(2, 2)] && AfterOneHit(b).hitStreak == [Coord(2, 2)]
    ensures AfterOneHit(b).lastHit == Some(Coord(2, 2))
  {
    var s0 := CreateInitialAiState();
    var h := s0.shotHistory + [Coord(2, 2)];
    assert h == [Coord(2, 2)];
    assert NewNeighbours(b, Coord(2, 2), h, []) == [Coord(2, 1), Coord(2, 3), Coord(1, 2), Coord(3, 2)] by {
      var p := Fresh(b, h, []);
      assert p(Coord(2, 1)) && p(Coord(2, 3)) && p(Coord(1, 2)) && p(Coord(3, 2));
      FilterAll([Coord(2, 1), Coord(2, 3), Coord(1, 2), Coord(3, 2)], p);
    }
  }

  /** Every cell of row y is a valid target. */
  lemma FullRow(b: Board, shotHistory: seq<Coord>, y: int, n: nat)
    requires WellFormed(b)
    requires forall x :: 0 <= x < n ==> IsValidTarget(b, Coord(x, y), shotHistory)
    ensures RowScan(ValidAt(b, shotHistory), y, n) == seq(n, x => Coord(x, y))
  {
    RowScanFull(ValidAt(b, shotHistory), y, n);
  }

  /** After the hit at (2,2) the 24 other cells are available, from (0,0) to (4,4). */
  lemma OneHitAvailable(b: Board, h: seq<Coord>)
    requires OneHit(b) && h == [Coord(2, 2)]
    ensures |Available(b, h)| == 24
    ensures Available(b, h)[0] == Coord(0, 0)
    ensures Available(b, h)[23] == Coord(4, 4)
  {
    var p := ValidAt(b, h);
    FullRow(b, h, 0, 5);
    FullRow(b, h, 1, 5);
    FullRow(b, h, 3, 5);
    FullRow(b, h, 4, 5);
    OneHitMiddleRow(b, h);
    assert |GridScan(p, 5, 4)| == 19;
    assert GridScan(p, 5, 5) == GridScan(p, 5, 4) + seq(5, x => Coord(x, 4));
    assert GridScan(p, 5, 1) == seq(5, x => Coord(x, 0));
    GridScanPrefix(p, 5, 1, 5);
  }

  /** Row 2 offers every cell but the hit at (2,2). */
  lemma OneHitMiddleRow(b: Board, h: seq<Coord>)
    requires OneHit(b) && h == [Coord(2, 2)]
    ensures |RowScan(ValidAt(b, h), 2, 5)| == 4
  {
    var p := ValidAt(b, h);
    assert !p(Coord(2, 2));
    assert p(Coord(0, 2)) && p(Coord(1, 2)) && p(Coord(3, 2)) && p(Coord(4, 2));
    assert RowScan(p, 2, 2) == [Coord(0, 2), Coord(1, 2)];
    assert RowScan(p, 2, 3) == [Coord(0, 2), Coord(1, 2)];
  }

  lemma {:induction false} GridScanPrefix(p: Coord -> bool, width: nat, rows: nat, more: nat)
    requires rows <= more
    ensures GridScan(p, width, rows) <= GridScan(p, width, more)
    decreases more
  {
    if rows < more {
      GridScanPrefix(p, width, rows, more - 1);
    }
  }

  /** Easy after the hit at (2,2), with a draw below 1/24 (such as 0), takes the first of the 24 other cells, (0,0). */
  lemma EasyFirstOnOneHit(b: Board, ai: AiState, r: Random01)
    requires OneHit(b) && ai.shotHistory == [Coord(2, 2)]
    requires r.num * 24 < r.den
    ensures EasyMove(b, ai, r) == Some(Coord(0, 0))
  {
    assert |Available(b, ai.shotHistory)| == 24 && Available(b, ai.shotHistory)[0] == Coord(0, 0) by {
      OneHitAvailable(b, ai.shotHistory);
    }
    ScaleFirst(r, 24);
    EasyPicks(b, ai, r, 24, 0);
  }

  /**
   * Easy after the hit at (2,2), with a draw of at least 23/24 (such as 0.99),
   * takes the last of the 24 other cells, (4,4), which is not next to the hit.
   */
  lemma EasyLastOnOneHit(b: Board, ai: AiState, r: Random01)
    requires OneHit(b) && ai.shotHistory == [Coord(2, 2)]
    requires 23 * r.den <= r.num * 24
    ensures EasyMove(b, ai, r) == Some(Coord(4, 4))
  {
    assert |Available(b, ai.shotHistory)| == 24 && Available(b, ai.shotHistory)[23] == Coord(4, 4) by {
      OneHitAvailable(b, ai.shotHistory);
    }
    ScaleLast(r, 24);
    EasyPicks(b, ai, r, 24, 23);
  }

  /** Easy ignores the hunt queue: after the hit at (2,2) a draw of 0 takes (0,0), which is not queued. */
  lemma EasyIgnoresTheQueue(b: Board, r: Random01)
    requires OneHit(b)
    requires r.num * 24 < r.den
    ensures EasyMove(b, AfterOneHit(b), r) == Some(Coord(0, 0))
    ensures Coord(0, 0) !in AfterOneHit(b).huntQueue
  {
    OneHitQueuesFourNeighbours(b);
    EasyFirstOnOneHit(b, AfterOneHit(b), r);
  }

  /** The hit at (2,2) is the only hit on a ship still afloat. */
  lemma OneHitUnfinished(b: Board)
    requires OneHit(b)
    ensures UnfinishedAt(b, Coord(2, 2))
    ensures forall h :: UnfinishedAt(b, h) ==> h == Coord(2, 2)
  {
    assert FindShipIndex(b.ships, Some("ship1")) == Some(0);
  }

  /** Ship1 is afloat, so an unboosted entry is at most twice its length, 6. */
  lemma OneHitFleet(b: Board)
    requires OneHit(b)
    ensures forall s :: s in b.ships ==> s.length >= 0
    ensures 2 * Total(Lengths(RemainingShips(b.ships)), |RemainingShips(b.ships)|) == 6
  {
    var remaining := RemainingShips(b.ships);
    assert b.ships[0] in remaining;
    assert remaining == b.ships;
    assert Lengths(remaining) == [3];
  }

  /** Two placements of ship1 cover (2,1): across from (1,1) and down from (2,1) over the hit. */
  lemma OneHitRawAbove(b: Board)
    requires OneHit(b)
    ensures Raw(b, Coord(2, 1)) >= 2
  {
    var c := Coord(2, 1);
    assert FitsAt(b, Coord(1, 1), 3, true) by {
      FitsPrefixFromCells(b, Coord(1, 1), true, 3);
    }
    assert FitsAt(b, Coord(2, 1), 3, false) by {
      FitsPrefixFromCells(b, Coord(2, 1), false, 3);
    }
    assert RowCoverage(b, 3, 1, 3, c) >= 2 by {
      RowCoverageMono(b, 3, 1, 2, 2, c);
      assert RowCoverage(b, 3, 1, 2, c) >= Covers(b, 3, Coord(1, 1), true, c);
    }
    RowCoverageMono(b, 3, 1, 3, 5, c);
    GridCoverageMono(b, 3, 1, 5, c);
    assert RemainingShips(b.ships) == b.ships by {
      OneHitFleet(b);
      assert b.ships[0] in RemainingShips(b.ships);
    }
    assert Lengths(b.ships) == [3];
  }

  /**
   * Hard after the hit at (2,2), for every draw: (2,1) is boosted to at
   * least 4 * 2 + 1 = 9, above the 6 any unboosted entry can reach, so the
   * move is a cell next to the hit.
   */
  lemma HardChasesTheHit(b: Board, ai: AiState, r: Random01)
    requires OneHit(b) && ai.shotHistory == [Coord(2, 2)]
    ensures HardMove(b, ai, r).Some?
    ensures IsAdjacent(Coord(2, 2), HardMove(b, ai, r).value)
  {
    OneHitUnfinished(b);
    OneHitFleet(b);
    OneHitRawAbove(b);
    assert IsValidTarget(b, Coord(2, 1), ai.shotHistory);
    HardChasesUnfinishedHit(b, ai, r, Coord(2, 1), Coord(2, 2));
  }

  /** Medium after the hit at (2,2) fires at the head of the hunt queue, (2,1), whatever the draw. */
  lemma MediumHuntsNextToTheHit(b: Board, r: Random01)
    requires OneHit(b)
    ensures MediumMove(b, AfterOneHit(b), r) == Some(Coord(2, 1))
    ensures IsAdjacent(Coord(2, 2), Coord(2, 1))
  {
    var ai := AfterOneHit(b);
    assert ai.huntQueue == [Coord(2, 1), Coord(2, 3), Coord(1, 2), Coord(3, 2)] && ai.shotHistory == [Coord(2, 2)] by {
      OneHitQueuesFourNeighbours(b);
    }
    MediumTakesValidHead(b, ai, r);
  }

  /** 3x3 with nothing fired at: all nine cells are available, row by row. */
  lemma FreshThreeAvailable(b: Board, h: seq<Coord>)
    requires Shows(b, 3, [], []) && h == []
    ensures |Available(b, h)| == 9
    ensures Available(b, h)[0] == Coord(0, 0) && Available(b, h)[4] == Coord(1, 1) && Available(b, h)[8] == Coord(2, 2)
  {
    var p := ValidAt(b, h);
    var g1, g2, g3 := GridScan(p, 3, 1), GridScan(p, 3, 2), GridScan(p, 3, 3);
    assert g1 == seq(3, x => Coord(x, 0)) by {
      FullRow(b, h, 0, 3);
    }
    assert g2 == g1 + seq(3, x => Coord(x, 1)) by {
      FullRow(b, h, 1, 3);
    }
    assert g3 == g2 + seq(3, x => Coord(x, 2)) by {
      FullRow(b, h, 2, 3);
    }
    assert g3[0] == g2[0] == g1[0];
    assert g3[4] == g2[4];
  }

  /**
   * Easy on a fresh 3x3 board reaches different cells for different draws:
   * 0 takes (0,0), 0.5 (index 4) takes (1,1) and 0.99 (index 8) takes (2,2).
   */
  lemma EasyReachesDifferentCells(b: Board, ai: AiState, r0: Random01, r1: Random01, r2: Random01)
    requires Shows(b, 3, [], []) && ai.shotHistory == []
    requires r0.num * 9 < r0.den
    requires 4 * r1.den <= r1.num * 9 < 5 * r1.den
    requires 8 * r2.den <= r2.num * 9
    ensures EasyMove(b, ai, r0) == Some(Coord(0, 0))
    ensures EasyMove(b, ai, r1) == Some(Coord(1, 1))
    ensures EasyMove(b, ai, r2) == Some(Coord(2, 2))
  {
    assert |Available(b, ai.shotHistory)| == 9 && Available(b, ai.shotHistory)[0] == Coord(0, 0) &&
           Available(b, ai.shotHistory)[4] == Coord(1, 1) && Available(b, ai.shotHistory)[8] == Coord(2, 2) by {
      FreshThreeAvailable(b, ai.shotHistory);
    }
    ScaleFirst(r0, 9);
    ScaleIs(r1, 9, 4);
    ScaleLast(r2, 9);
    EasyPicks(b, ai, r0, 9, 0);
    EasyPicks(b, ai, r1, 9, 4);
    EasyPicks(b, ai, r2, 9, 8);
  }

  /** Medium with an empty queue and no streak falls back to easy, which finds a cell on a fresh 5x5 board. */
  lemma MediumFallsBackOnFreshBoard(b: Board, r: Random01)
    requires Shows(b, 5, [], [])
    ensures MediumMove(b, CreateInitialAiState(), r).Some?
  {
    var ai := CreateInitialAiState();
    AvailableMembers(b, ai.shotHistory);
    assert IsValidTarget(b, Coord(0, 0), ai.shotHistory);
  }

  /** 5x5 with ship1 on (0,0)-(2,0), untouched: no hit anywhere. */
  ghost predicate Untouched(b: Board)
  {
    Shows(b, 5, [], [Ship1(3, [Coord(0, 0), Coord(1, 0), Coord(2, 0)], 0)])
  }

  /** Hard with no hits yet still finds a cell, whatever the draw. */
  lemma HardWithoutHits(b: Board, r: Random01)
    requires Untouched(b)
    ensures HardMove(b, CreateInitialAiState(), r).Some?
  {
    var ai := CreateInitialAiState();
    AvailableMembers(b, ai.shotHistory);
    assert IsValidTarget(b, Coord(0, 0), ai.shotHistory);
  }

  /** 7x7, hits at (3,3) and (4,3) on ship1 of length 3 with two hits: not yet sunk. */
  ghost predicate Cluster(b: Board)
  {
    Shows(b, 7, [Coord(3, 3), Coord(4, 3)], [Ship1(3, [Coord(3, 3), Coord(4, 3), Coord(5, 3)], 2)])
  }

  /** The AI's memory after its hit at (3,3). */
  function AfterFirstHit(b: Board): AiState
    requires WellFormed(b)
  {
    UpdateAiStateAfterShot(CreateInitialAiState(), Coord(3, 3), true, b, None)
  }

  /** The AI's memory after its hits at (3,3) and then (4,3). */
  function AfterSecondHit(b: Board): AiState
    requires WellFormed(b)
  {
    UpdateAiStateAfterShot(AfterFirstHit(b), Coord(4, 3), true, b, None)
  }

  /** The hit at (3,3) queues up, down and left; right is the already hit (4,3). */
  lemma ClusterFirstHit(b: Board)
    requires Cluster(b)
    ensures AfterFirstHit(b).huntQueue == [Coord(3, 2), Coord(3, 4), Coord(2, 3)]
    ensures AfterFirstHit(b).shotHistory == [Coord(3, 3)] && AfterFirstHit(b).hitStreak == [Coord(3, 3)]
  {
    var s0 := CreateInitialAiState();
    var h := s0.shotHistory + [Coord(3, 3)];
    assert h == [Coord(3, 3)];
    assert NewNeighbours(b, Coord(3, 3), h, []) == [Coord(3, 2), Coord(3, 4), Coord(2, 3)] by {
      var p := Fresh(b, h, []);
      assert p(Coord(3, 2)) && p(Coord(3, 4)) && p(Coord(2, 3)) && !p(Coord(4, 3));
      NeighboursButRight(b, Coord(3, 3), h, []);
    }
  }

  /** Around (4,3), after both hits and with the first hit's queue: up, down and right are new; left is the hit (3,3). */
  lemma ClusterSecondNeighbours(b: Board, h: seq<Coord>, queue: seq<Coord>)
    requires Cluster(b) && h == [Coord(3, 3)] + [Coord(4, 3)] && queue == [Coord(3, 2), Coord(3, 4), Coord(2, 3)]
    ensures NewNeighbours(b, Coord(4, 3), h, queue) == [Coord(4, 2), Coord(4, 4), Coord(5, 3)]
  {
    var p := Fresh(b, h, queue);
    assert p(Coord(4, 2)) && p(Coord(4, 4)) && !p(Coord(3, 3)) && p(Coord(5, 3));
    NeighboursButLeft(b, Coord(4, 3), h, queue);
  }

  /**
   * The hit at (4,3) then puts up, down and right of it, (4,2), (4,4) and
   * (5,3), in front of the first hit's queue.
   */
  lemma ClusterSecondHit(b: Board)
    requires Cluster(b)
    ensures AfterSecondHit(b).huntQueue ==
            [Coord(4, 2), Coord(4, 4), Coord(5, 3)] + [Coord(3, 2), Coord(3, 4), Coord(2, 3)]
    ensures AfterSecondHit(b).shotHistory == [Coord(3, 3)] + [Coord(4, 3)]
    ensures AfterSecondHit(b).hitStreak == [Coord(3, 3)] + [Coord(4, 3)]
  {
    var s1 := AfterFirstHit(b);
    assert s1.huntQueue == [Coord(3, 2), Coord(3, 4), Coord(2, 3)] &&
           s1.shotHistory == [Coord(3, 3)] && s1.hitStreak == [Coord(3, 3)] by {
      ClusterFirstHit(b);
    }
    ClusterSecondNeighbours(b, s1.shotHistory + [Coord(4, 3)], s1.huntQueue);
  }

  /** Medium at the cluster's queue fires at its head (4,2), above the second hit, whatever the draw. */
  lemma MediumOnCluster(b: Board, ai: AiState, r: Random01)
    requires Cluster(b) && ai.shotHistory == [Coord(3, 3)] + [Coord(4, 3)]
    requires ai.huntQueue != [] && ai.huntQueue[0] == Coord(4, 2)
    ensures MediumMove(b, ai, r) == Some(Coord(4, 2))
  {
    assert IsValidTarget(b, Coord(4, 2), ai.shotHistory);
    MediumTakesValidHead(b, ai, r);
  }

  /** Medium keeps firing next to the cluster: (4,2), above the second hit, whatever the draw. */
  lemma MediumStaysOnTheCluster(b: Board, r: Random01)
    requires Cluster(b)
    ensures MediumMove(b, AfterSecondHit(b), r) == Some(Coord(4, 2))
    ensures IsAdjacent(Coord(4, 3), Coord(4, 2))
  {
    ClusterSecondHit(b);
    MediumOnCluster(b, AfterSecondHit(b), r);
  }

  /** 5x5, (2,2) hit on ship1 of length 1: the hit sinks it. */
  ghost predicate SinkBoard(b: Board)
  {
    Shows(b, 5, [Coord(2, 2)], [Ship1(1, [Coord(2, 2)], 1)])
  }

  /**
   * Sinking ship1 empties the streak and forgets the last hit and direction;
   * the queued (2,1) and (2,3) hold no part of ship1 and stay queued.
   */
  lemma SinkResetsTheChase(b: Board)
    requires SinkBoard(b)
    ensures var s := UpdateAiStateAfterShot(AiState([], [Coord(2, 1), Coord(2, 3)], Some(Coord(2, 2)), Some(Right), [Coord(2, 2)]),
                                            Coord(2, 2), true, b, Some(b.ships[0]));
            s.hitStreak == [] && s.lastHit.None? && s.currentDirection.None? &&
            s.shotHistory == [Coord(2, 2)] && s.huntQueue == [Coord(2, 1), Coord(2, 3)]
  {
    var p := NotOfShip(b, "ship1");
    assert p(Coord(2, 1)) && p(Coord(2, 3));
    FilterAll([Coord(2, 1), Coord(2, 3)], p);
  }

  /** A miss at (1,1) on a fresh board is remembered in the history and changes nothing else. */
  lemma MissIsRemembered(b: Board)
    requires Shows(b, 5, [], [])
    ensures UpdateAiStateAfterShot(CreateInitialAiState(), Coord(1, 1), false, b, None) ==
            AiState([Coord(1, 1)], [], None, None, [])
  {
    var s := UpdateAiStateAfterShot(CreateInitialAiState(), Coord(1, 1), false, b, None);
    assert |s.huntQueue| == 0;
  }
}
