/**
 * The hard strategy (a uniform pick among the valid targets of maximal
 * heat) and the per-difficulty dispatch of the AI's move.
 */
module AiHard {
  import opened Types
  import opened Random
  import opened BoardEngine
  import opened Scan
  import opened AiCore
  import opened AiTargeting
  import opened AiHeat

  /** Valid targets whose entry in the map h equals `max`. */
  function CandidateTest(b: Board, shotHistory: seq<Coord>, h: Coord -> int, max: int): Coord -> bool
    requires WellFormed(b)
  {
    c => IsValidTarget(b, c, shotHistory) && h(c) == max
  }

  /** The candidates of getHardMove, swept in row-major order. */
  function Candidates(b: Board, ai: AiState): seq<Coord>
    requires WellFormed(b)
  {
    GridScan(CandidateTest(b, ai.shotHistory, HeatOf(b, ai), MaxHeat(b, ai)), Dim(b.size), Dim(b.size))
  }

  lemma CandidatesMeans(b: Board, ai: AiState)
    requires WellFormed(b)
    ensures forall c :: c in Candidates(b, ai) <==> IsValidTarget(b, c, ai.shotHistory) && Heat(b, ai, c) == MaxHeat(b, ai)
  {
    GridScanMembers(CandidateTest(b, ai.shotHistory, HeatOf(b, ai), MaxHeat(b, ai)), Dim(b.size), Dim(b.size));
  }

  /** getHardMove with the draw r. */
  function HardMove(b: Board, ai: AiState, r: Random01): (m: Option<Coord>)
    requires WellFormed(b)
    ensures m.Some? ==> IsValidTarget(b, m.value, ai.shotHistory)
    ensures m.None? <==> Available(b, ai.shotHistory) == []
  {
    if MaxHeat(b, ai) <= 0 then EasyMove(b, ai, r)
    else
      var candidates := Candidates(b, ai);
      if |candidates| == 0 then EasyMove(b, ai, r)
      else
        CandidatesMeans(b, ai);
        AvailableMembers(b, ai.shotHistory);
        assert candidates[Scale(r, |candidates|)] in candidates;
        Some(candidates[Scale(r, |candidates|)])
  }

  /** The inner `for x` loop of getHardMove's candidate sweep, over row y. */
  method CandidatesInRow(m: array2<int>, b: Board, shotHistory: seq<Coord>, ghost h: Coord -> int, max: int, y: int)
    returns (row: seq<Coord>)
    requires WellFormed(b) && m.Length0 == Dim(b.size) && m.Length1 == Dim(b.size) && 0 <= y < Dim(b.size)
    requires forall yy, xx :: 0 <= yy < m.Length0 && 0 <= xx < m.Length1 ==> m[yy, xx] == h(Coord(xx, yy))
    ensures row == RowScan(CandidateTest(b, shotHistory, h, max), y, Dim(b.size))
  {
    ghost var p := CandidateTest(b, shotHistory, h, max);
    row := [];
    var x := 0;
    while x < b.size
      invariant 0 <= x <= Dim(b.size)
      invariant row == RowScan(p, y, x)
    {
      var cell := b.cells[y][x];
      CandidateAt(b, shotHistory, h, max, x, y);
      if cell.status != Hit && cell.status != Miss && !Includes(shotHistory, Coord(x, y)) && m[y, x] == max {
        row := row + [Coord(x, y)];
      }
      x := x + 1;
      RowScanNext(p, y, x - 1, x);
    }
    assert x == Dim(b.size);
  }

  /** The candidate test at an on-grid cell, spelled out on the cell itself. */
  lemma CandidateAt(b: Board, shotHistory: seq<Coord>, h: Coord -> int, max: int, x: int, y: int)
    requires WellFormed(b) && 0 <= x < b.size && 0 <= y < b.size
    ensures CandidateTest(b, shotHistory, h, max)(Coord(x, y)) <==>
              b.cells[y][x].status != Hit && b.cells[y][x].status != Miss &&
              !Includes(shotHistory, Coord(x, y)) && h(Coord(x, y)) == max
  {
    var c := Coord(x, y);
    assert CandidateTest(b, shotHistory, h, max)(c) == (IsValidTarget(b, c, shotHistory) && h(c) == max);
    assert IsWithinBounds(b, c) && GetCellStatus(b, c) == Some(b.cells[y][x].status);
  }

  method CollectCandidates(m: array2<int>, b: Board, shotHistory: seq<Coord>, ghost h: Coord -> int, max: int)
    returns (candidates: seq<Coord>)
    requires WellFormed(b) && m.Length0 == Dim(b.size) && m.Length1 == Dim(b.size)
    requires forall yy, xx :: 0 <= yy < m.Length0 && 0 <= xx < m.Length1 ==> m[yy, xx] == h(Coord(xx, yy))
    ensures candidates == GridScan(CandidateTest(b, shotHistory, h, max), Dim(b.size), Dim(b.size))
  {
    ghost var p := CandidateTest(b, shotHistory, h, max);
    candidates := [];
    var y := 0;
    while y < b.size
      invariant 0 <= y <= Dim(b.size)
      invariant candidates == GridScan(p, Dim(b.size), y)
    {
      var row := CandidatesInRow(m, b, shotHistory, h, max, y);
      candidates := candidates + row;
      y := y + 1;
      GridScanNext(p, Dim(b.size), y - 1, y);
    }
    assert y == Dim(b.size);
  }

  method GetHardMove(b: Board, ai: AiState, r: Random01) returns (m: Option<Coord>)
    requires WellFormed(b)
    ensures m == HardMove(b, ai, r)
  {
    var probabilityMap, max := GetHardProbabilityMap(b, ai);
    if max <= 0 {
      m := GetEasyMove(b, ai, r);
      return;
    }
    var candidates := CollectCandidates(probabilityMap, b, ai.shotHistory, HeatOf(b, ai), max);
    if |candidates| == 0 {
      m := GetEasyMove(b, ai, r);
      return;
    }
    var index := Scale(r, |candidates|);
    m := Some(candidates[index]);
  }

  /** The maximum bounds every entry, and is 0 or the entry of some cell. */
  lemma MaxHeatProperties(b: Board, ai: AiState)
    requires WellFormed(b)
    ensures MaxHeat(b, ai) >= 0
    ensures forall c :: IsWithinBounds(b, c) ==> Heat(b, ai, c) <= MaxHeat(b, ai)
    ensures MaxHeat(b, ai) == 0 || exists c :: IsWithinBounds(b, c) && Heat(b, ai, c) == MaxHeat(b, ai)
  {
    var h := HeatOf(b, ai);
    GridMaxProperties(h, Dim(b.size), Dim(b.size));
    forall c | IsWithinBounds(b, c)
      ensures Heat(b, ai, c) <= MaxHeat(b, ai)
    {
      assert h(Coord(c.x, c.y)) <= GridMax(h, Dim(b.size), Dim(b.size));
    }
    if MaxHeat(b, ai) != 0 {
      var y, x :| 0 <= y < Dim(b.size) && 0 <= x < Dim(b.size) && h(Coord(x, y)) == MaxHeat(b, ai);
      assert IsWithinBounds(b, Coord(x, y));
    }
  }

  /**
   * The hard move falls back to the easy one when the maximum is not
   * positive or no valid target reaches it; otherwise it is a valid target
   * at the maximum.
   */
  lemma HardMoveProperties(b: Board, ai: AiState, r: Random01)
    requires WellFormed(b)
    ensures MaxHeat(b, ai) <= 0 ==> HardMove(b, ai, r) == EasyMove(b, ai, r)
    ensures (forall c :: IsValidTarget(b, c, ai.shotHistory) ==> Heat(b, ai, c) != MaxHeat(b, ai)) ==>
              HardMove(b, ai, r) == EasyMove(b, ai, r)
    ensures MaxHeat(b, ai) > 0 && (exists c :: IsValidTarget(b, c, ai.shotHistory) && Heat(b, ai, c) == MaxHeat(b, ai)) ==>
              HardMove(b, ai, r).Some? && Heat(b, ai, HardMove(b, ai, r).value) == MaxHeat(b, ai)
  {
    CandidatesMeans(b, ai);
    var candidates := Candidates(b, ai);
    if MaxHeat(b, ai) > 0 && |candidates| > 0 {
      assert candidates[Scale(r, |candidates|)] in candidates;
    }
  }

  datatype Difficulty = Easy | Medium | Hard

  datatype PlayerType = Human | Ai

  datatype GamePhase = Placing | Playing | Finished

  /** The game record the move dispatch reads (scores are not part of this model). */
  datatype GameState = GameState(
    playerBoard: Board,
    aiBoard: Board,
    currentTurn: PlayerType,
    phase: GamePhase,
    winner: Option<PlayerType>,
    turnCount: int,
    difficulty: Difficulty,
    aiState: AiState)

  /** The move the AI makes against the player's board at the state's difficulty. */
  function AiMove(g: GameState, r: Random01): (m: Option<Coord>)
    requires WellFormed(g.playerBoard)
    ensures m.Some? ==> IsValidTarget(g.playerBoard, m.value, g.aiState.shotHistory)
    ensures m.None? <==> Available(g.playerBoard, g.aiState.shotHistory) == []
  {
    match g.difficulty
    case Easy => EasyMove(g.playerBoard, g.aiState, r)
    case Medium => MediumMove(g.playerBoard, g.aiState, r)
    case Hard => HardMove(g.playerBoard, g.aiState, r)
  }

  method GetAiMoveForDifficulty(g: GameState, r: Random01) returns (target: Option<Coord>)
    requires WellFormed(g.playerBoard)
    ensures target == AiMove(g, r)
  {
    match g.difficulty {
      case Easy => target := GetEasyMove(g.playerBoard, g.aiState, r);
      case Medium => target := GetMediumMove(g.playerBoard, g.aiState, r);
      case Hard => target := GetHardMove(g.playerBoard, g.aiState, r);
    }
  }
}
