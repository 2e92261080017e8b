/**
 * updateAiStateAfterShot: the AI's memory after one of its shots. The shot
 * always joins the history; a sink clears the streak and drops the queued
 * cells of the sunk ship; any other hit extends the streak and queues the
 * target's fresh neighbours in front; a miss unqueues the target.
 */
module AiUpdate {
  import opened Types
  import opened BoardEngine
  import opened Lists
  import opened AiCore

  /** The neighbours of `target` a hit puts in front of the queue: valid and not yet queued. */
  function NewNeighbours(b: Board, target: Coord, shotHistory: seq<Coord>, huntQueue: seq<Coord>): (r: seq<Coord>)
    requires WellFormed(b)
    ensures |r| <= 4 && NoDuplicates(r)
    ensures forall c :: c in r <==> IsAdjacent(target, c) && IsValidTarget(b, c, shotHistory) && c !in huntQueue
  {
    FilterNoDuplicates(GetAdjacentCells(target), Fresh(b, shotHistory, huntQueue));
    Filter(GetAdjacentCells(target), Fresh(b, shotHistory, huntQueue))
  }

  /** A valid target that is not queued yet. */
  function Fresh(b: Board, shotHistory: seq<Coord>, huntQueue: seq<Coord>): Coord -> bool
    requires WellFormed(b)
  {
    c => IsValidTarget(b, c, shotHistory) && !Includes(huntQueue, c)
  }

  /** When every neighbour but the left one is fresh, a hit queues up, down and right, in that order. */
  lemma NeighboursButLeft(b: Board, t: Coord, shotHistory: seq<Coord>, huntQueue: seq<Coord>)
    requires WellFormed(b)
    requires var p := Fresh(b, shotHistory, huntQueue);
             p(Coord(t.x, t.y - 1)) && p(Coord(t.x, t.y + 1)) && !p(Coord(t.x - 1, t.y)) && p(Coord(t.x + 1, t.y))
    ensures NewNeighbours(b, t, shotHistory, huntQueue) == [Coord(t.x, t.y - 1), Coord(t.x, t.y + 1), Coord(t.x + 1, t.y)]
  {
    FilterDropsOne(GetAdjacentCells(t), 2, Fresh(b, shotHistory, huntQueue));
  }

  /** When every neighbour but the right one is fresh, a hit queues up, down and left, in that order. */
  lemma NeighboursButRight(b: Board, t: Coord, shotHistory: seq<Coord>, huntQueue: seq<Coord>)
    requires WellFormed(b)
    requires var p := Fresh(b, shotHistory, huntQueue);
             p(Coord(t.x, t.y - 1)) && p(Coord(t.x, t.y + 1)) && p(Coord(t.x - 1, t.y)) && !p(Coord(t.x + 1, t.y))
    ensures NewNeighbours(b, t, shotHistory, huntQueue) == [Coord(t.x, t.y - 1), Coord(t.x, t.y + 1), Coord(t.x - 1, t.y)]
  {
    FilterDropsOne(GetAdjacentCells(t), 3, Fresh(b, shotHistory, huntQueue));
  }

  /** Queue entries to keep after a miss: everything but the target. */
  function Other(target: Coord): Coord -> bool
  {
    c => !CoordsEqual(c, target)
  }

  /** Queue entries to keep after a sink: cells not holding the sunk ship. */
  function NotOfShip(b: Board, id: string): Coord -> bool
    requires WellFormed(b)
  {
    c => IsWithinBounds(b, c) ==> CellAt(b, c).shipId != Some(id)
  }

  function UpdateAiStateAfterShot(ai: AiState, target: Coord, wasHit: bool, b: Board, sunkShip: Option<Ship>): (s: AiState)
    requires WellFormed(b)
    requires sunkShip.Some? ==> forall c :: c in ai.huntQueue ==> IsWithinBounds(b, c)
    ensures s.shotHistory == ai.shotHistory + [target]
    ensures sunkShip.Some? ==>
              s.hitStreak == [] && s.lastHit.None? && s.currentDirection.None? &&
              |s.huntQueue| <= |ai.huntQueue| &&
              (forall c :: c in s.huntQueue <==> c in ai.huntQueue && CellAt(b, c).shipId != Some(sunkShip.value.id)) &&
              s.huntQueue == Filter(ai.huntQueue, NotOfShip(b, sunkShip.value.id))
    ensures sunkShip.None? && wasHit ==>
              s.hitStreak == ai.hitStreak + [target] && s.lastHit == Some(target) &&
              s.currentDirection == ai.currentDirection &&
              s.huntQueue == NewNeighbours(b, target, s.shotHistory, ai.huntQueue) + ai.huntQueue
    ensures sunkShip.None? && !wasHit ==>
              s.hitStreak == ai.hitStreak && s.lastHit == ai.lastHit && s.currentDirection == ai.currentDirection &&
              |s.huntQueue| <= |ai.huntQueue| &&
              (forall c :: c in s.huntQueue <==> c in ai.huntQueue && c != target) &&
              s.huntQueue == Filter(ai.huntQueue, Other(target))
  {
    var history := ai.shotHistory + [target];
    match sunkShip
    case Some(sunk) =>
      ai.(shotHistory := history, huntQueue := Filter(ai.huntQueue, NotOfShip(b, sunk.id)),
          hitStreak := [], lastHit := None, currentDirection := None)
    case None =>
      if wasHit then
        var added := NewNeighbours(b, target, history, ai.huntQueue);
        ai.(shotHistory := history, hitStreak := ai.hitStreak + [target], lastHit := Some(target),
            huntQueue := added + ai.huntQueue)
      else
        ai.(shotHistory := history, huntQueue := Filter(ai.huntQueue, Other(target)))
  }

  /** The hunt queue holds distinct cells of the board. */
  ghost predicate QueueOk(b: Board, ai: AiState)
  {
    NoDuplicates(ai.huntQueue) && forall c :: c in ai.huntQueue ==> IsWithinBounds(b, c)
  }

  /** Every update keeps the hunt queue distinct and on the board. */
  lemma UpdateKeepsQueueOk(ai: AiState, target: Coord, wasHit: bool, b: Board, sunkShip: Option<Ship>)
    requires WellFormed(b) && QueueOk(b, ai)
    ensures QueueOk(b, UpdateAiStateAfterShot(ai, target, wasHit, b, sunkShip))
  {
    var history := ai.shotHistory + [target];
    match sunkShip
    case Some(sunk) =>
      FilterNoDuplicates(ai.huntQueue, NotOfShip(b, sunk.id));
    case None =>
      if wasHit {
        NoDuplicatesConcat(NewNeighbours(b, target, history, ai.huntQueue), ai.huntQueue);
      } else {
        FilterNoDuplicates(ai.huntQueue, Other(target));
      }
  }

  /** Firing at a cell never fired at before keeps the history free of repeats. */
  lemma UpdateKeepsHistoryDistinct(ai: AiState, target: Coord, wasHit: bool, b: Board, sunkShip: Option<Ship>)
    requires WellFormed(b)
    requires sunkShip.Some? ==> forall c :: c in ai.huntQueue ==> IsWithinBounds(b, c)
    requires NoDuplicates(ai.shotHistory) && target !in ai.shotHistory
    ensures NoDuplicates(UpdateAiStateAfterShot(ai, target, wasHit, b, sunkShip).shotHistory)
  {
    NoDuplicatesConcat(ai.shotHistory, [target]);
  }

  /** A miss or a sink only drops queued cells: the survivors keep their order. */
  lemma UpdateKeepsQueueOrder(ai: AiState, target: Coord, wasHit: bool, b: Board, sunkShip: Option<Ship>)
    requires WellFormed(b)
    requires sunkShip.Some? ==> forall c :: c in ai.huntQueue ==> IsWithinBounds(b, c)
    requires sunkShip.Some? || !wasHit
    ensures exists idx :: Picks(UpdateAiStateAfterShot(ai, target, wasHit, b, sunkShip).huntQueue, ai.huntQueue, idx)
  {
    var s := UpdateAiStateAfterShot(ai, target, wasHit, b, sunkShip);
    var keep := if sunkShip.Some? then NotOfShip(b, sunkShip.value.id) else Other(target);
    assert s.huntQueue == Filter(ai.huntQueue, keep);
    FilterInOrder(ai.huntQueue, keep);
    var idx :| Picks(Filter(ai.huntQueue, keep), ai.huntQueue, idx);
    assert Picks(s.huntQueue, ai.huntQueue, idx);
  }
}
