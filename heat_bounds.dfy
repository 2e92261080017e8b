/**
 * Upper bounds on the placement counts of the heat map: a ship of length L
 * covers any one cell in at most L horizontal and at most L vertical
 * placements, so an unboosted entry never exceeds twice the total length
 * of the ships still afloat.
 */
module HeatBounds {
  import opened Types
  import opened BoardEngine
  import opened AiHeat

  /** How many of the columns 0 .. n - 1 lie in lo + 1 .. hi. */
  function Window(n: nat, lo: int, hi: int): nat
  {
    if n == 0 then 0 else Window(n - 1, lo, hi) + (if lo < n - 1 <= hi then 1 else 0)
  }

  lemma {:induction false} WindowBelow(n: nat, lo: int, hi: int)
    requires lo <= hi
    ensures Window(n, lo, hi) <= if n - 1 <= lo then 0 else if n - 1 <= hi then n - 1 - lo else hi - lo
  {
    if n > 0 {
      WindowBelow(n - 1, lo, hi);
    }
  }

  lemma WindowBound(n: nat, lo: int, hi: int)
    requires lo <= hi
    ensures Window(n, lo, hi) <= hi - lo
  {
    WindowBelow(n, lo, hi);
  }

  /** Placements anchored in row y: across ones only in c's row, down ones only in c's column. */
  lemma {:induction false} RowCoverageBound(b: Board, length: int, y: int, n: nat, c: Coord)
    requires WellFormed(b)
    ensures RowCoverage(b, length, y, n, c) <=
            (if y == c.y then Window(n, c.x - length, c.x) else 0) +
            (if c.y - length < y <= c.y && 0 <= c.x < n then 1 else 0)
  {
    if n > 0 {
      RowCoverageBound(b, length, y, n - 1, c);
      assert Covers(b, length, Coord(n - 1, y), true, c) <= if y == c.y && c.x - length < n - 1 <= c.x then 1 else 0;
      assert Covers(b, length, Coord(n - 1, y), false, c) <= if n - 1 == c.x && c.y - length < y <= c.y then 1 else 0;
    }
  }

  lemma {:induction false} GridCoverageBound(b: Board, length: int, rows: nat, c: Coord)
    requires WellFormed(b)
    ensures GridCoverage(b, length, rows, c) <=
            (if 0 <= c.y < rows then Window(Dim(b.size), c.x - length, c.x) else 0) + Window(rows, c.y - length, c.y)
  {
    if rows > 0 {
      GridCoverageBound(b, length, rows - 1, c);
      RowCoverageBound(b, length, rows - 1, Dim(b.size), c);
    }
  }

  /** Sweeping more anchors of a row never lowers the count. */
  lemma {:induction false} RowCoverageMono(b: Board, length: int, y: int, k: nat, n: nat, c: Coord)
    requires WellFormed(b) && k <= n
    ensures RowCoverage(b, length, y, k, c) <= RowCoverage(b, length, y, n, c)
  {
    if k < n {
      RowCoverageMono(b, length, y, k, n - 1, c);
    }
  }

  /** Sweeping more rows never lowers the count, and every swept row adds its own. */
  lemma {:induction false} GridCoverageMono(b: Board, length: int, y: nat, rows: nat, c: Coord)
    requires WellFormed(b) && y < rows
    ensures GridCoverage(b, length, y, c) + RowCoverage(b, length, y, Dim(b.size), c) <= GridCoverage(b, length, rows, c)
  {
    if y + 1 < rows {
      GridCoverageMono(b, length, y, rows - 1, c);
    }
  }

  /** One ship length covers a cell in at most 2 * length placements. */
  lemma CoverageAtMostTwiceLength(b: Board, length: int, c: Coord)
    requires WellFormed(b) && length >= 0
    ensures GridCoverage(b, length, Dim(b.size), c) <= 2 * length
  {
    GridCoverageBound(b, length, Dim(b.size), c);
    WindowBound(Dim(b.size), c.x - length, c.x);
    WindowBound(Dim(b.size), c.y - length, c.y);
  }

  function Total(lengths: seq<int>, k: nat): int
    requires k <= |lengths|
  {
    if k == 0 then 0 else Total(lengths, k - 1) + lengths[k - 1]
  }

  lemma {:induction false} FleetCoverageBound(b: Board, lengths: seq<int>, k: nat, c: Coord)
    requires WellFormed(b) && k <= |lengths|
    requires forall i :: 0 <= i < |lengths| ==> lengths[i] >= 0
    ensures FleetCoverage(b, lengths, k, c) <= 2 * Total(lengths, k)
  {
    if k > 0 {
      FleetCoverageBound(b, lengths, k - 1, c);
      CoverageAtMostTwiceLength(b, lengths[k - 1], c);
    }
  }

  /** An unboosted entry is at most twice the total length of the ships afloat. */
  lemma RawBound(b: Board, c: Coord)
    requires WellFormed(b)
    requires forall s :: s in b.ships ==> s.length >= 0
    ensures Raw(b, c) <= 2 * Total(Lengths(RemainingShips(b.ships)), |RemainingShips(b.ships)|)
  {
    var remaining := RemainingShips(b.ships);
    assert forall i :: 0 <= i < |remaining| ==> remaining[i] in remaining;
    FleetCoverageBound(b, Lengths(remaining), |remaining|, c);
  }
}
