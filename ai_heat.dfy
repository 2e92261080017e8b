/**
 * The hard strategy's heat map. Every placement of every unsunk ship that
 * fits (inside the board, on no miss; hits do not block) adds one to each
 * unresolved cell it covers; then each valid target next to a hit on an
 * unsunk ship is boosted to 4v + 1 once per such hit; `max` is the largest
 * entry, or 0.
 */
module AiHeat {
  import opened Types
  import opened BoardEngine
  import opened Lists
  import opened Scan
  import opened AiCore

  /** getRemainingShips: the ships not yet sunk, in order. */
  function RemainingShips(ships: seq<Ship>): (r: seq<Ship>)
    ensures forall s :: s in r <==> s in ships && s.hits < s.length
  {
    Filter(ships, (s: Ship) => s.hits < s.length)
  }

  function Lengths(ships: seq<Ship>): (r: seq<int>)
    ensures |r| == |ships| && forall i :: 0 <= i < |ships| ==> r[i] == ships[i].length
  {
    seq(|ships|, i requires 0 <= i < |ships| => ships[i].length)
  }

  /** Cell i of the run from `start` (i = 0 is `start` itself). */
  function RunCell(start: Coord, horizontal: bool, i: int): Coord
  {
    if horizontal then Coord(start.x + i, start.y) else Coord(start.x, start.y + i)
  }

  /** `c` is one of the `length` cells of the run from `start`: the membership test of Run. */
  predicate Along(start: Coord, length: int, horizontal: bool, c: Coord)
  {
    if horizontal then c.y == start.y && start.x <= c.x < start.x + length
    else c.x == start.x && start.y <= c.y < start.y + length
  }

  /** A cell a placement may cover: on the board and not a miss (hits do not block). */
  predicate Open(b: Board, c: Coord)
    requires WellFormed(b)
  {
    IsWithinBounds(b, c) && CellAt(b, c).status != Miss
  }

  /** The first k cells of the run from `start` are all open. */
  predicate FitsPrefix(b: Board, start: Coord, horizontal: bool, k: nat)
    requires WellFormed(b)
  {
    k == 0 || (FitsPrefix(b, start, horizontal, k - 1) && Open(b, RunCell(start, horizontal, k - 1)))
  }

  /** canShipFitAt: every cell of the run of `length` from `start` is open. */
  predicate FitsAt(b: Board, start: Coord, length: int, horizontal: bool)
    requires WellFormed(b)
  {
    FitsPrefix(b, start, horizontal, Dim(length))
  }

  lemma {:induction false} FitsPrefixCell(b: Board, start: Coord, horizontal: bool, k: nat, i: int)
    requires WellFormed(b) && FitsPrefix(b, start, horizontal, k) && 0 <= i < k
    ensures Open(b, RunCell(start, horizontal, i))
  {
    if i < k - 1 {
      FitsPrefixCell(b, start, horizontal, k - 1, i);
    }
  }

  lemma {:induction false} FitsPrefixFromCells(b: Board, start: Coord, horizontal: bool, k: nat)
    requires WellFormed(b)
    requires forall i :: 0 <= i < k ==> Open(b, RunCell(start, horizontal, i))
    ensures FitsPrefix(b, start, horizontal, k)
  {
    if k > 0 {
      FitsPrefixFromCells(b, start, horizontal, k - 1);
    }
  }

  /**
   * A placement fits exactly when every cell of its run is on the board and
   * not a miss; hit cells and cells holding ships do not block it.
   */
  lemma FitsAtMeans(b: Board, start: Coord, length: int, horizontal: bool)
    requires WellFormed(b)
    ensures FitsAt(b, start, length, horizontal) <==>
            forall c :: c in Run(start, length, horizontal) ==> IsWithinBounds(b, c) && CellAt(b, c).status != Miss
  {
    var run := Run(start, length, horizontal);
    if FitsAt(b, start, length, horizontal) {
      forall c | c in run
        ensures Open(b, c)
      {
        var i := if horizontal then c.x - start.x else c.y - start.y;
        assert c == RunCell(start, horizontal, i);
        FitsPrefixCell(b, start, horizontal, Dim(length), i);
      }
    } else if forall c :: c in run ==> Open(b, c) {
      forall i | 0 <= i < Dim(length)
        ensures Open(b, RunCell(start, horizontal, i))
      {
        assert RunCell(start, horizontal, i) in run;
      }
      FitsPrefixFromCells(b, start, horizontal, Dim(length));
    }
  }

  method CanShipFitAt(b: Board, startX: int, startY: int, length: int, horizontal: bool) returns (r: bool)
    requires WellFormed(b)
    ensures r == FitsAt(b, Coord(startX, startY), length, horizontal)
  {
    var i := 0;
    while i < length
      invariant 0 <= i <= Dim(length)
      invariant FitsPrefix(b, Coord(startX, startY), horizontal, i)
    {
      var x := if horizontal then startX + i else startX;
      var y := if horizontal then startY else startY + i;
      if x < 0 || y < 0 || x >= b.size || y >= b.size {
        NotFitting(b, Coord(startX, startY), length, horizontal, i);
        return false;
      }
      var cell := b.cells[y][x];
      if cell.status == Miss {
        NotFitting(b, Coord(startX, startY), length, horizontal, i);
        return false;
      }
      i := i + 1;
    }
    r := true;
  }

  lemma NotFitting(b: Board, start: Coord, length: int, horizontal: bool, i: int)
    requires WellFormed(b) && 0 <= i < length && !Open(b, RunCell(start, horizontal, i))
    ensures !FitsAt(b, start, length, horizontal)
  {
    if FitsAt(b, start, length, horizontal) {
      FitsPrefixCell(b, start, horizontal, Dim(length), i);
    }
  }

  /** On the board and neither hit nor missed: the cells the heat map counts. */
  predicate Unresolved(b: Board, c: Coord)
    requires WellFormed(b)
  {
    IsWithinBounds(b, c) && CellAt(b, c).status != Hit && CellAt(b, c).status != Miss
  }

  /** 1 when the run of `length` from `start` fits and covers `c`. */
  function Covers(b: Board, length: int, start: Coord, horizontal: bool, c: Coord): nat
    requires WellFormed(b)
  {
    if FitsAt(b, start, length, horizontal) && Along(start, length, horizontal, c) then 1 else 0
  }

  /** Fitting placements covering `c` whose anchor is in row y, columns 0 .. n - 1. */
  function RowCoverage(b: Board, length: int, y: int, n: nat, c: Coord): nat
    requires WellFormed(b)
  {
    if n == 0 then 0
    else RowCoverage(b, length, y, n - 1, c) + Covers(b, length, Coord(n - 1, y), true, c)
                                             + Covers(b, length, Coord(n - 1, y), false, c)
  }

  /** Fitting placements covering `c` anchored in rows 0 .. rows - 1. */
  function GridCoverage(b: Board, length: int, rows: nat, c: Coord): nat
    requires WellFormed(b)
  {
    if rows == 0 then 0
    else GridCoverage(b, length, rows - 1, c) + RowCoverage(b, length, rows - 1, Dim(b.size), c)
  }

  /** Fitting placements covering `c`, summed over the first k lengths. */
  function FleetCoverage(b: Board, lengths: seq<int>, k: nat, c: Coord): nat
    requires WellFormed(b) && k <= |lengths|
  {
    if k == 0 then 0
    else FleetCoverage(b, lengths, k - 1, c) + GridCoverage(b, lengths[k - 1], Dim(b.size), c)
  }

  /** The map before boosting: placement counts on unresolved cells, 0 elsewhere. */
  function Raw(b: Board, c: Coord): nat
    requires WellFormed(b)
  {
    var lengths := Lengths(RemainingShips(b.ships));
    if Unresolved(b, c) then FleetCoverage(b, lengths, |lengths|, c) else 0
  }

  /** A hit cell whose ship (the first with the cell's id) is not yet sunk. */
  predicate UnfinishedAt(b: Board, c: Coord)
    requires WellFormed(b)
  {
    IsWithinBounds(b, c) && CellAt(b, c).status == Hit &&
    var k := FindShipIndex(b.ships, CellAt(b, c).shipId);
    k.Some? && b.ships[k.value].hits < b.ships[k.value].length
  }

  function UnfinishedTest(b: Board): Coord -> bool
    requires WellFormed(b)
  {
    c => UnfinishedAt(b, c)
  }

  /** The unfinished hits, swept in row-major order. */
  function UnfinishedHits(b: Board): seq<Coord>
    requires WellFormed(b)
  {
    GridScan(UnfinishedTest(b), Dim(b.size), Dim(b.size))
  }

  /** `v` boosted k times by v -> 4v + 1. */
  function Boost(v: int, k: nat): (r: int)
    ensures v >= 0 ==> r >= v
    ensures v >= 0 && k > 0 ==> r >= 4 * v + 1
  {
    if k == 0 then v else Boost(v, k - 1) * 4 + 1
  }

  /** How often a valid target `c` is boosted by the neighbour list `cands`. */
  function BoostCount(b: Board, shotHistory: seq<Coord>, cands: seq<Coord>, c: Coord): nat
    requires WellFormed(b)
  {
    if IsValidTarget(b, c, shotHistory) then Count(cands, c) else 0
  }

  /** The heat map entry of `c`, as getHardProbabilityMap leaves it. */
  function Heat(b: Board, ai: AiState, c: Coord): int
    requires WellFormed(b)
  {
    if RemainingShips(b.ships) == [] then 0
    else Boost(Raw(b, c), BoostCount(b, ai.shotHistory, Neighbours(UnfinishedHits(b)), c))
  }

  function HeatOf(b: Board, ai: AiState): Coord -> int
    requires WellFormed(b)
  {
    c => Heat(b, ai, c)
  }

  function Max(a: int, b: int): int
  {
    if a < b then b else a
  }

  /** The running maximum, from 0, of h over cells (0, y) .. (n - 1, y). */
  function RowMax(h: Coord -> int, y: int, n: nat): (r: int)
    ensures r >= 0
  {
    if n == 0 then 0 else Max(RowMax(h, y, n - 1), h(Coord(n - 1, y)))
  }

  /** The running maximum, from 0, of h over rows 0 .. rows - 1 of the given width. */
  function GridMax(h: Coord -> int, width: nat, rows: nat): (r: int)
    ensures r >= 0
  {
    if rows == 0 then 0 else Max(GridMax(h, width, rows - 1), RowMax(h, rows - 1, width))
  }

  /** The `max` getHardProbabilityMap returns. */
  function MaxHeat(b: Board, ai: AiState): int
    requires WellFormed(b)
  {
    GridMax(HeatOf(b, ai), Dim(b.size), Dim(b.size))
  }

  /** The running maximum bounds every entry and is 0 or one of them. */
  lemma {:induction false} RowMaxProperties(h: Coord -> int, y: int, n: nat)
    ensures forall x :: 0 <= x < n ==> h(Coord(x, y)) <= RowMax(h, y, n)
    ensures RowMax(h, y, n) == 0 || exists x :: 0 <= x < n && h(Coord(x, y)) == RowMax(h, y, n)
  {
    if n > 0 {
      RowMaxProperties(h, y, n - 1);
    }
  }

  lemma {:induction false} GridMaxProperties(h: Coord -> int, width: nat, rows: nat)
    ensures forall y, x :: 0 <= y < rows && 0 <= x < width ==> h(Coord(x, y)) <= GridMax(h, width, rows)
    ensures GridMax(h, width, rows) == 0 ||
            exists y, x :: 0 <= y < rows && 0 <= x < width && h(Coord(x, y)) == GridMax(h, width, rows)
  {
    if rows > 0 {
      GridMaxProperties(h, width, rows - 1);
      RowMaxProperties(h, rows - 1, width);
    }
  }

  lemma {:induction false} GridMaxZero(h: Coord -> int, width: nat, rows: nat)
    requires forall y, x :: 0 <= y < rows && 0 <= x < width ==> h(Coord(x, y)) <= 0
    ensures GridMax(h, width, rows) == 0
  {
    if rows > 0 {
      GridMaxZero(h, width, rows - 1);
      RowMaxZero(h, rows - 1, width);
    }
  }

  lemma {:induction false} RowMaxZero(h: Coord -> int, y: int, n: nat)
    requires forall x :: 0 <= x < n ==> h(Coord(x, y)) <= 0
    ensures RowMax(h, y, n) == 0
  {
    if n > 0 {
      RowMaxZero(h, y, n - 1);
    }
  }

  // ---------------------------------------------------------------------
  // Building the map in place.

  /** The inner `for i` loop: one fitting run adds one to each unresolved cell it covers. */
  method AddRun(m: array2<int>, b: Board, start: Coord, length: int, horizontal: bool)
    requires WellFormed(b) && m.Length0 == Dim(b.size) && m.Length1 == Dim(b.size)
    requires FitsAt(b, start, length, horizontal)
    modifies m
    ensures forall y, x :: 0 <= y < m.Length0 && 0 <= x < m.Length1 ==>
              m[y, x] == old(m[y, x]) +
                         (if Along(start, length, horizontal, Coord(x, y)) && Unresolved(b, Coord(x, y)) then 1 else 0)
  {
    var i := 0;
    while i < length
      invariant 0 <= i <= Dim(length)
      invariant forall y, x :: 0 <= y < m.Length0 && 0 <= x < m.Length1 ==>
                  m[y, x] == old(m[y, x]) +
                             (if Along(start, i, horizontal, Coord(x, y)) && Unresolved(b, Coord(x, y)) then 1 else 0)
    {
      var x := if horizontal then start.x + i else start.x;
      var y := if horizontal then start.y else start.y + i;
      FitsPrefixCell(b, start, horizontal, Dim(length), i);
      var cell := b.cells[y][x];
      if cell.status != Hit && cell.status != Miss {
        m[y, x] := m[y, x] + 1;
      }
      i := i + 1;
    }
  }

  /** The `for x` loop: both orientations of every anchor in row y. */
  method AddRow(m: array2<int>, b: Board, length: int, y: int)
    requires WellFormed(b) && m.Length0 == Dim(b.size) && m.Length1 == Dim(b.size)
    modifies m
    ensures forall yy, xx :: 0 <= yy < m.Length0 && 0 <= xx < m.Length1 ==>
              m[yy, xx] == old(m[yy, xx]) +
                           (if Unresolved(b, Coord(xx, yy)) then RowCoverage(b, length, y, Dim(b.size), Coord(xx, yy)) else 0)
  {
    var x := 0;
    while x < b.size
      invariant 0 <= x <= Dim(b.size)
      invariant forall yy, xx :: 0 <= yy < m.Length0 && 0 <= xx < m.Length1 ==>
                  m[yy, xx] == old(m[yy, xx]) +
                               (if Unresolved(b, Coord(xx, yy)) then RowCoverage(b, length, y, x, Coord(xx, yy)) else 0)
    {
      var fitsAcross := CanShipFitAt(b, x, y, length, true);
      if fitsAcross {
        AddRun(m, b, Coord(x, y), length, true);
      }
      var fitsDown := CanShipFitAt(b, x, y, length, false);
      if fitsDown {
        AddRun(m, b, Coord(x, y), length, false);
      }
      x := x + 1;
    }
    assert x == Dim(b.size);
  }

  /** The `for y` loop: every anchor on the board for one ship length. */
  method AddLength(m: array2<int>, b: Board, length: int)
    requires WellFormed(b) && m.Length0 == Dim(b.size) && m.Length1 == Dim(b.size)
    modifies m
    ensures forall yy, xx :: 0 <= yy < m.Length0 && 0 <= xx < m.Length1 ==>
              m[yy, xx] == old(m[yy, xx]) +
                           (if Unresolved(b, Coord(xx, yy)) then GridCoverage(b, length, Dim(b.size), Coord(xx, yy)) else 0)
  {
    var y := 0;
    while y < b.size
      invariant 0 <= y <= Dim(b.size)
      invariant forall yy, xx :: 0 <= yy < m.Length0 && 0 <= xx < m.Length1 ==>
                  m[yy, xx] == old(m[yy, xx]) +
                               (if Unresolved(b, Coord(xx, yy)) then GridCoverage(b, length, y, Coord(xx, yy)) else 0)
    {
      AddRow(m, b, length, y);
      y := y + 1;
    }
    assert y == Dim(b.size);
  }

  method CollectUnfinishedHits(b: Board) returns (hits: seq<Coord>)
    requires WellFormed(b)
    ensures hits == UnfinishedHits(b)
  {
    ghost var p := UnfinishedTest(b);
    hits := [];
    var y := 0;
    while y < b.size
      invariant 0 <= y <= Dim(b.size)
      invariant hits == GridScan(p, Dim(b.size), y)
    {
      var row := CollectUnfinishedInRow(b, y);
      hits := hits + row;
      y := y + 1;
      GridScanNext(p, Dim(b.size), y - 1, y);
    }
    assert y == Dim(b.size);
  }

  /** The inner `for x` loop of the unfinished-hit sweep, over row y. */
  method CollectUnfinishedInRow(b: Board, y: int) returns (row: seq<Coord>)
    requires WellFormed(b) && 0 <= y < Dim(b.size)
    ensures row == RowScan(UnfinishedTest(b), y, Dim(b.size))
  {
    ghost var p := UnfinishedTest(b);
    row := [];
    var x := 0;
    while x < b.size
      invariant 0 <= x <= Dim(b.size)
      invariant row == RowScan(p, y, x)
    {
      var cell := b.cells[y][x];
      if cell.status == Hit {
        var k := FindShipIndex(b.ships, cell.shipId);
        if k.Some? && b.ships[k.value].hits < b.ships[k.value].length {
          row := row + [Coord(x, y)];
        }
      }
      x := x + 1;
      RowScanNext(p, y, x - 1, x);
    }
    assert x == Dim(b.size);
  }

  lemma {:induction false} BoostAdd(v: int, j: nat, k: nat)
    ensures Boost(Boost(v, j), k) == Boost(v, j + k)
  {
    if k > 0 {
      BoostAdd(v, j, k - 1);
    }
  }

  lemma BoostSplit(b: Board, shotHistory: seq<Coord>, done: seq<Coord>, more: seq<Coord>, v: int, c: Coord)
    requires WellFormed(b)
    ensures Boost(Boost(v, BoostCount(b, shotHistory, done, c)), BoostCount(b, shotHistory, more, c)) ==
            Boost(v, BoostCount(b, shotHistory, done + more, c))
  {
    CountAppend(done, more, c);
    BoostAdd(v, BoostCount(b, shotHistory, done, c), BoostCount(b, shotHistory, more, c));
  }

  /** The inner loop over one hit's neighbours: boost each valid one. */
  method BoostAround(m: array2<int>, b: Board, shotHistory: seq<Coord>, adjacent: seq<Coord>)
    requires WellFormed(b) && m.Length0 == Dim(b.size) && m.Length1 == Dim(b.size)
    modifies m
    ensures forall y, x :: 0 <= y < m.Length0 && 0 <= x < m.Length1 ==>
              m[y, x] == Boost(old(m[y, x]), BoostCount(b, shotHistory, adjacent, Coord(x, y)))
  {
    var k := 0;
    while k < |adjacent|
      invariant 0 <= k <= |adjacent|
      invariant forall y, x :: 0 <= y < m.Length0 && 0 <= x < m.Length1 ==>
                  m[y, x] == Boost(old(m[y, x]), BoostCount(b, shotHistory, adjacent[..k], Coord(x, y)))
    {
      var adj := adjacent[k];
      assert adjacent[..k + 1][..k] == adjacent[..k];
      if IsValidTarget(b, adj, shotHistory) {
        m[adj.y, adj.x] := m[adj.y, adj.x] * 4 + 1;
      }
      k := k + 1;
    }
    assert adjacent[..k] == adjacent;
  }

  /** The boost loops: every neighbour of every unfinished hit, in order. */
  method ApplyBoosts(m: array2<int>, b: Board, shotHistory: seq<Coord>, hits: seq<Coord>)
    requires WellFormed(b) && m.Length0 == Dim(b.size) && m.Length1 == Dim(b.size)
    modifies m
    ensures forall y, x :: 0 <= y < m.Length0 && 0 <= x < m.Length1 ==>
              m[y, x] == Boost(old(m[y, x]), BoostCount(b, shotHistory, Neighbours(hits), Coord(x, y)))
  {
    var i := 0;
    while i < |hits|
      invariant 0 <= i <= |hits|
      invariant forall y, x :: 0 <= y < m.Length0 && 0 <= x < m.Length1 ==>
                  m[y, x] == Boost(old(m[y, x]), BoostCount(b, shotHistory, Neighbours(hits[..i]), Coord(x, y)))
    {
      ghost var done := Neighbours(hits[..i]);
      var adjacent := GetAdjacentCells(hits[i]);
      BoostAround(m, b, shotHistory, adjacent);
      assert hits[..i + 1][..i] == hits[..i];
      assert Neighbours(hits[..i + 1]) == done + adjacent;
      forall y, x | 0 <= y < m.Length0 && 0 <= x < m.Length1
        ensures Boost(Boost(old(m[y, x]), BoostCount(b, shotHistory, done, Coord(x, y))),
                      BoostCount(b, shotHistory, adjacent, Coord(x, y))) ==
                Boost(old(m[y, x]), BoostCount(b, shotHistory, done + adjacent, Coord(x, y)))
      {
        BoostSplit(b, shotHistory, done, adjacent, old(m[y, x]), Coord(x, y));
      }
      i := i + 1;
    }
    assert hits[..i] == hits;
  }

  /** The final sweep keeping the running maximum, from 0. */
  method MaxOfMap(m: array2<int>, b: Board, ghost h: Coord -> int) returns (max: int)
    requires m.Length0 == Dim(b.size) && m.Length1 == Dim(b.size)
    requires forall y, x :: 0 <= y < m.Length0 && 0 <= x < m.Length1 ==> m[y, x] == h(Coord(x, y))
    ensures max == GridMax(h, Dim(b.size), Dim(b.size))
  {
    max := 0;
    var y := 0;
    while y < b.size
      invariant 0 <= y <= Dim(b.size)
      invariant max == GridMax(h, Dim(b.size), y)
    {
      var x := 0;
      while x < b.size
        invariant 0 <= x <= Dim(b.size)
        invariant max == Max(GridMax(h, Dim(b.size), y), RowMax(h, y, x))
      {
        if m[y, x] > max {
          max := m[y, x];
        }
        x := x + 1;
      }
      assert x == Dim(b.size);
      y := y + 1;
    }
    assert y == Dim(b.size);
  }

  /** The `for (const length of shipLengths)` loop over a zeroed map. */
  method AddFleet(m: array2<int>, b: Board, lengths: seq<int>)
    requires WellFormed(b) && m.Length0 == Dim(b.size) && m.Length1 == Dim(b.size)
    requires forall y, x :: 0 <= y < m.Length0 && 0 <= x < m.Length1 ==> m[y, x] == 0
    modifies m
    ensures forall y, x :: 0 <= y < m.Length0 && 0 <= x < m.Length1 ==>
              m[y, x] == if Unresolved(b, Coord(x, y)) then FleetCoverage(b, lengths, |lengths|, Coord(x, y)) else 0
  {
    var k := 0;
    while k < |lengths|
      invariant 0 <= k <= |lengths|
      invariant forall y, x :: 0 <= y < m.Length0 && 0 <= x < m.Length1 ==>
                  m[y, x] == if Unresolved(b, Coord(x, y)) then FleetCoverage(b, lengths, k, Coord(x, y)) else 0
    {
      AddLength(m, b, lengths[k]);
      k := k + 1;
    }
    assert k == |lengths|;
  }

  /** getHardProbabilityMap: the map and its maximum. */
  method GetHardProbabilityMap(b: Board, ai: AiState) returns (m: array2<int>, max: int)
    requires WellFormed(b)
    ensures fresh(m) && m.Length0 == Dim(b.size) && m.Length1 == Dim(b.size)
    ensures forall y, x :: 0 <= y < m.Length0 && 0 <= x < m.Length1 ==> m[y, x] == Heat(b, ai, Coord(x, y))
    ensures max == MaxHeat(b, ai)
  {
    var remaining := RemainingShips(b.ships);
    m := new int[Dim(b.size), Dim(b.size)]((y, x) => 0);
    if |remaining| == 0 {
      NoShipsLeftCold(b, ai);
      return m, 0;
    }
    AddFleet(m, b, Lengths(remaining));
    assert forall y, x :: 0 <= y < m.Length0 && 0 <= x < m.Length1 ==> m[y, x] == Raw(b, Coord(x, y));
    var hits := CollectUnfinishedHits(b);
    if |hits| > 0 {
      ApplyBoosts(m, b, ai.shotHistory, hits);
    } else {
      assert Neighbours(hits) == [];
    }
    assert forall y, x :: 0 <= y < m.Length0 && 0 <= x < m.Length1 ==> m[y, x] == HeatOf(b, ai)(Coord(x, y));
    max := MaxOfMap(m, b, HeatOf(b, ai));
  }

  // ---------------------------------------------------------------------
  // Properties of the map.

  /** With every ship sunk the map is all zero and its maximum is 0. */
  lemma NoShipsLeftCold(b: Board, ai: AiState)
    requires WellFormed(b) && RemainingShips(b.ships) == []
    ensures forall c :: Heat(b, ai, c) == 0
    ensures MaxHeat(b, ai) == 0
  {
    GridMaxZero(HeatOf(b, ai), Dim(b.size), Dim(b.size));
  }

  /** How many of `hits` are orthogonally adjacent to `c`. */
  function AdjacentCount(hits: seq<Coord>, c: Coord): (n: nat)
    ensures n == 0 <==> forall h :: h in hits ==> !IsAdjacent(h, c)
  {
    if hits == [] then 0
    else
      assert hits == hits[..|hits| - 1] + [hits[|hits| - 1]];
      AdjacentCount(hits[..|hits| - 1], c) + (if IsAdjacent(hits[|hits| - 1], c) then 1 else 0)
  }

  /** A cell occurs in the neighbour lists once for every hit next to it. */
  lemma {:induction false} NeighbourCount(hits: seq<Coord>, c: Coord)
    ensures Count(Neighbours(hits), c) == AdjacentCount(hits, c)
  {
    if hits != [] {
      var init, last := hits[..|hits| - 1], hits[|hits| - 1];
      NeighbourCount(init, c);
      CountAppend(Neighbours(init), GetAdjacentCells(last), c);
      CountNoDuplicates(GetAdjacentCells(last), c);
    }
  }

  /** The unfinished hits are exactly the hit cells of unsunk ships. */
  lemma UnfinishedHitsMeans(b: Board)
    requires WellFormed(b)
    ensures forall h :: h in UnfinishedHits(b) <==> UnfinishedAt(b, h)
    ensures NoDuplicates(UnfinishedHits(b))
  {
    GridScanProperties(UnfinishedTest(b), Dim(b.size), Dim(b.size));
  }

  /**
   * Every entry is at least 0; hit, missed and off-board cells stay 0; and
   * an entry is its placement count boosted once for every unfinished hit
   * next to it, when it is a valid target, and not at all otherwise.
   */
  lemma HeatProperties(b: Board, ai: AiState, c: Coord)
    requires WellFormed(b)
    ensures Heat(b, ai, c) >= 0
    ensures !Unresolved(b, c) ==> Heat(b, ai, c) == 0
    ensures RemainingShips(b.ships) != [] ==>
              Heat(b, ai, c) == Boost(Raw(b, c), if IsValidTarget(b, c, ai.shotHistory)
                                                then AdjacentCount(UnfinishedHits(b), c) else 0)
  {
    NeighbourCount(UnfinishedHits(b), c);
  }

  /** A boosted entry is a valid target next to a hit on a ship that is still afloat. */
  lemma BoostOnlyNearUnfinishedHits(b: Board, ai: AiState, c: Coord)
    requires WellFormed(b)
    ensures Heat(b, ai, c) != Raw(b, c) ==>
              IsValidTarget(b, c, ai.shotHistory) && exists h :: UnfinishedAt(b, h) && IsAdjacent(h, c)
  {
    HeatProperties(b, ai, c);
    UnfinishedHitsMeans(b);
    if RemainingShips(b.ships) == [] {
      assert Raw(b, c) == 0;
    }
  }

  /** A valid target next to an unfinished hit is boosted at least once. */
  lemma BoostNearUnfinishedHit(b: Board, ai: AiState, c: Coord, h: Coord)
    requires WellFormed(b) && IsValidTarget(b, c, ai.shotHistory)
    requires UnfinishedAt(b, h) && IsAdjacent(h, c)
    ensures Heat(b, ai, c) >= 4 * Raw(b, c) + 1
  {
    UnfinishedHitsMeans(b);
    var k := FindShipIndex(b.ships, CellAt(b, h).shipId);
    assert b.ships[k.value] in RemainingShips(b.ships);
    HeatProperties(b, ai, c);
  }
}
