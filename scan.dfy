/**
 * The row-major sweep `for (y = 0; y < n; y++) for (x = 0; x < n; x++)`
 * that collects the coordinates satisfying a test, as the AI does for its
 * available cells, its unfinished hits and its hard-mode candidates.
 */
module Scan {
  import opened Types

  /** `a` comes strictly before `b` in row-major order. */
  predicate Before(a: Coord, b: Coord)
  {
    a.y < b.y || (a.y == b.y && a.x < b.x)
  }

  /** Coordinates (0, y) .. (n - 1, y) that pass `p`, left to right. */
  function RowScan(p: Coord -> bool, y: int, n: nat): seq<Coord>
  {
    if n == 0 then []
    else RowScan(p, y, n - 1) + (if p(Coord(n - 1, y)) then [Coord(n - 1, y)] else [])
  }

  /** Rows 0 .. rows - 1, each of `width` columns, swept in row-major order. */
  function GridScan(p: Coord -> bool, width: nat, rows: nat): seq<Coord>
  {
    if rows == 0 then []
    else GridScan(p, width, rows - 1) + RowScan(p, rows - 1, width)
  }

  /** The sweep of `next` columns extends the sweep of `x` = `next` - 1 columns by column x. */
  lemma RowScanNext(p: Coord -> bool, y: int, x: nat, next: nat)
    requires next == x + 1
    ensures RowScan(p, y, next) == RowScan(p, y, x) + (if p(Coord(x, y)) then [Coord(x, y)] else [])
  {
  }

  /** The sweep of `next` rows extends the sweep of `rows` = `next` - 1 rows by row `rows`. */
  lemma GridScanNext(p: Coord -> bool, width: nat, rows: nat, next: nat)
    requires next == rows + 1
    ensures GridScan(p, width, next) == GridScan(p, width, rows) + RowScan(p, rows, width)
  {
  }

  ghost predicate Sorted(s: seq<Coord>)
  {
    forall i, j :: 0 <= i < j < |s| ==> Before(s[i], s[j])
  }

  /** Two sorted runs, every element of the first before every element of the second, make a sorted run. */
  lemma SortedConcat(s: seq<Coord>, t: seq<Coord>)
    requires Sorted(s) && Sorted(t)
    requires forall i, j :: 0 <= i < |s| && 0 <= j < |t| ==> Before(s[i], t[j])
    ensures Sorted(s + t)
  {
    var r := s + t;
    forall i, j | 0 <= i < j < |r|
      ensures Before(r[i], r[j])
    {
      if j < |s| {
        assert r[i] == s[i] && r[j] == s[j];
      } else if i < |s| {
        assert r[i] == s[i] && r[j] == t[j - |s|];
      } else {
        assert r[i] == t[i - |s|] && r[j] == t[j - |s|];
      }
    }
  }

  lemma {:induction false} RowScanMember(p: Coord -> bool, y: int, n: nat, c: Coord)
    ensures c in RowScan(p, y, n) <==> c.y == y && 0 <= c.x < n && p(c)
  {
    if n > 0 {
      RowScanMember(p, y, n - 1, c);
    }
  }

  lemma RowScanMembers(p: Coord -> bool, y: int, n: nat)
    ensures forall c :: c in RowScan(p, y, n) <==> c.y == y && 0 <= c.x < n && p(c)
  {
    forall c: Coord {
      RowScanMember(p, y, n, c);
    }
  }

  lemma {:induction false} RowScanSorted(p: Coord -> bool, y: int, n: nat)
    ensures Sorted(RowScan(p, y, n))
  {
    if n > 0 {
      RowScanSorted(p, y, n - 1);
      RowScanMembers(p, y, n - 1);
      var init := RowScan(p, y, n - 1);
      var last := if p(Coord(n - 1, y)) then [Coord(n - 1, y)] else [];
      forall i, j | 0 <= i < |init| && 0 <= j < |last|
        ensures Before(init[i], last[j])
      {
        assert init[i] in init;
      }
      SortedConcat(init, last);
    }
  }

  lemma {:induction false} GridScanMember(p: Coord -> bool, width: nat, rows: nat, c: Coord)
    ensures c in GridScan(p, width, rows) <==> 0 <= c.x < width && 0 <= c.y < rows && p(c)
  {
    if rows > 0 {
      var init := GridScan(p, width, rows - 1);
      var last := RowScan(p, rows - 1, width);
      assert GridScan(p, width, rows) == init + last;
      GridScanMember(p, width, rows - 1, c);
      RowScanMember(p, rows - 1, width, c);
      assert c in init + last <==> c in init || c in last;
    }
  }

  /** Membership alone, for callers that do not need the order. */
  lemma GridScanMembers(p: Coord -> bool, width: nat, rows: nat)
    ensures forall c :: c in GridScan(p, width, rows) <==> 0 <= c.x < width && 0 <= c.y < rows && p(c)
  {
    forall c: Coord {
      GridScanMember(p, width, rows, c);
    }
  }

  lemma {:induction false} GridScanSorted(p: Coord -> bool, width: nat, rows: nat)
    ensures Sorted(GridScan(p, width, rows))
  {
    if rows > 0 {
      GridScanSorted(p, width, rows - 1);
      GridScanMembers(p, width, rows - 1);
      RowScanSorted(p, rows - 1, width);
      RowScanMembers(p, rows - 1, width);
      var init := GridScan(p, width, rows - 1);
      var last := RowScan(p, rows - 1, width);
      forall i, j | 0 <= i < |init| && 0 <= j < |last|
        ensures Before(init[i], last[j])
      {
        assert init[i] in init && last[j] in last;
      }
      SortedConcat(init, last);
    }
  }

  /**
   * The sweep holds exactly the in-range coordinates that pass the test,
   * in strictly increasing row-major order, so without repetitions.
   */
  lemma GridScanProperties(p: Coord -> bool, width: nat, rows: nat)
    ensures forall c :: c in GridScan(p, width, rows) <==> 0 <= c.x < width && 0 <= c.y < rows && p(c)
    ensures Sorted(GridScan(p, width, rows))
    ensures NoDuplicates(GridScan(p, width, rows))
  {
    GridScanMembers(p, width, rows);
    GridScanSorted(p, width, rows);
    var r := GridScan(p, width, rows);
    forall i, j | 0 <= i < j < |r|
      ensures r[i] != r[j]
    {
      assert Before(r[i], r[j]);
    }
  }

  /** A row in which every coordinate passes contributes all of its columns. */
  lemma {:induction false} RowScanFull(p: Coord -> bool, y: int, n: nat)
    requires forall x :: 0 <= x < n ==> p(Coord(x, y))
    ensures RowScan(p, y, n) == seq(n, x => Coord(x, y))
  {
    if n > 0 {
      RowScanFull(p, y, n - 1);
    }
  }
}
