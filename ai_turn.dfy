/**
 * Guarantees about a whole turn of the AI: the hard strategy chases a
 * damaged ship once the boost outweighs every unboosted entry, and firing
 * where any strategy points keeps the shot history free of repeats.
 */
module AiTurn {
  import opened Types
  import opened Random
  import opened BoardEngine
  import opened AiCore
  import opened AiHeat
  import opened HeatBounds
  import opened AiHard
  import opened AiUpdate

  /**
   * When some valid neighbour c0 of an unfinished hit has a boosted entry
   * above twice the total length afloat (the most any unboosted entry can
   * reach), every cell at the maximum is boosted: the hard move, for every
   * draw, is a valid target next to a hit on a ship still afloat.
   */
  lemma HardChasesUnfinishedHit(b: Board, ai: AiState, r: Random01, c0: Coord, h0: Coord)
    requires WellFormed(b) && forall s :: s in b.ships ==> s.length >= 0
    requires IsValidTarget(b, c0, ai.shotHistory) && UnfinishedAt(b, h0) && IsAdjacent(h0, c0)
    requires 2 * Total(Lengths(RemainingShips(b.ships)), |RemainingShips(b.ships)|) < 4 * Raw(b, c0) + 1
    ensures HardMove(b, ai, r).Some?
    ensures IsValidTarget(b, HardMove(b, ai, r).value, ai.shotHistory)
    ensures exists h :: UnfinishedAt(b, h) && IsAdjacent(h, HardMove(b, ai, r).value)
  {
    MaxHeatProperties(b, ai);
    BoostNearUnfinishedHit(b, ai, c0, h0);
    assert MaxHeat(b, ai) > 0;
    var c :| IsWithinBounds(b, c) && Heat(b, ai, c) == MaxHeat(b, ai);
    RawBound(b, c);
    BoostOnlyNearUnfinishedHits(b, ai, c);
    HardMoveProperties(b, ai, r);
    var m := HardMove(b, ai, r).value;
    RawBound(b, m);
    BoostOnlyNearUnfinishedHits(b, ai, m);
  }

  /** Every strategy fires at a cell not yet in the history, so a turn keeps the history free of repeats. */
  lemma TurnKeepsHistoryDistinct(g: GameState, r: Random01, wasHit: bool, sunkShip: Option<Ship>)
    requires WellFormed(g.playerBoard) && NoDuplicates(g.aiState.shotHistory)
    requires AiMove(g, r).Some?
    requires sunkShip.Some? ==> forall c :: c in g.aiState.huntQueue ==> IsWithinBounds(g.playerBoard, c)
    ensures NoDuplicates(UpdateAiStateAfterShot(g.aiState, AiMove(g, r).value, wasHit, g.playerBoard, sunkShip).shotHistory)
  {
    UpdateKeepsHistoryDistinct(g.aiState, AiMove(g, r).value, wasHit, g.playerBoard, sunkShip);
  }
}
