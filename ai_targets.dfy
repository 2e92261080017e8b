/**
 * The easy and medium strategies: uniform choice among the available cells,
 * and hunt-queue-first targeting that falls back to the neighbours of the
 * current hit streak and then to easy.
 */
module AiTargeting {
  import opened Types
  import opened Random
  import opened BoardEngine
  import opened Lists
  import opened Scan
  import opened AiCore

  /** The validity test as a predicate on coordinates, for filters and sweeps. */
  function ValidAt(b: Board, shotHistory: seq<Coord>): Coord -> bool
    requires WellFormed(b)
  {
    c => IsValidTarget(b, c, shotHistory)
  }

  /** getAvailableCells: every valid target, swept in row-major order. */
  function Available(b: Board, shotHistory: seq<Coord>): seq<Coord>
    requires WellFormed(b)
  {
    GridScan(ValidAt(b, shotHistory), Dim(b.size), Dim(b.size))
  }

  /** The available cells are exactly the valid targets, row-major and without repetitions. */
  lemma AvailableProperties(b: Board, shotHistory: seq<Coord>)
    requires WellFormed(b)
    ensures forall c :: c in Available(b, shotHistory) <==> IsValidTarget(b, c, shotHistory)
    ensures Sorted(Available(b, shotHistory)) && NoDuplicates(Available(b, shotHistory))
  {
    GridScanProperties(ValidAt(b, shotHistory), Dim(b.size), Dim(b.size));
  }

  lemma AvailableMembers(b: Board, shotHistory: seq<Coord>)
    requires WellFormed(b)
    ensures forall c :: c in Available(b, shotHistory) <==> IsValidTarget(b, c, shotHistory)
  {
    GridScanMembers(ValidAt(b, shotHistory), Dim(b.size), Dim(b.size));
  }

  /** The inner loop of getAvailableCells: the valid targets of row y, left to right. */
  method AvailableInRow(b: Board, shotHistory: seq<Coord>, y: int) returns (row: seq<Coord>)
    requires WellFormed(b)
    ensures row == RowScan(ValidAt(b, shotHistory), y, Dim(b.size))
  {
    ghost var p := ValidAt(b, shotHistory);
    row := [];
    var x := 0;
    while x < b.size
      invariant 0 <= x <= Dim(b.size)
      invariant row == RowScan(p, y, x)
    {
      if IsValidTarget(b, Coord(x, y), shotHistory) {
        row := row + [Coord(x, y)];
      }
      x := x + 1;
      RowScanNext(p, y, x - 1, x);
    }
    assert x == Dim(b.size);
  }

  method GetAvailableCells(b: Board, shotHistory: seq<Coord>) returns (available: seq<Coord>)
    requires WellFormed(b)
    ensures available == Available(b, shotHistory)
  {
    ghost var p := ValidAt(b, shotHistory);
    available := [];
    var y := 0;
    while y < b.size
      invariant 0 <= y <= Dim(b.size)
      invariant available == GridScan(p, Dim(b.size), y)
    {
      var row := AvailableInRow(b, shotHistory, y);
      available := available + row;
      y := y + 1;
      GridScanNext(p, Dim(b.size), y - 1, y);
    }
    assert y == Dim(b.size);
  }

  /** getEasyMove with the draw `r`: the available cell at index floor(r * count). */
  function EasyMove(b: Board, ai: AiState, r: Random01): (m: Option<Coord>)
    requires WellFormed(b)
    ensures m.None? <==> Available(b, ai.shotHistory) == []
    ensures m.Some? ==> m.value in Available(b, ai.shotHistory) && IsValidTarget(b, m.value, ai.shotHistory)
  {
    var available := Available(b, ai.shotHistory);
    if |available| == 0 then None
    else
      AvailableMembers(b, ai.shotHistory);
      Some(available[Scale(r, |available|)])
  }

  /** With n cells available, a draw that scales to i picks the i-th of them. */
  lemma EasyPicks(b: Board, ai: AiState, r: Random01, n: nat, i: nat)
    requires WellFormed(b) && |Available(b, ai.shotHistory)| == n
    requires 0 < n && Scale(r, n) == i
    ensures i < n && EasyMove(b, ai, r) == Some(Available(b, ai.shotHistory)[i])
  {
  }

  method GetEasyMove(b: Board, ai: AiState, r: Random01) returns (m: Option<Coord>)
    requires WellFormed(b)
    ensures m == EasyMove(b, ai, r)
  {
    var available := GetAvailableCells(b, ai.shotHistory);
    if |available| == 0 {
      return None;
    }
    var index := Scale(r, |available|);
    m := Some(available[index]);
  }

  /**
   * The `rebuilt` list: the candidates taken in order, each kept when it is
   * a valid target and not already kept.
   */
  function Keep(b: Board, shotHistory: seq<Coord>, candidates: seq<Coord>): (r: seq<Coord>)
    requires WellFormed(b)
    ensures forall d :: d in r <==> d in candidates && IsValidTarget(b, d, shotHistory)
    ensures NoDuplicates(r)
  {
    if candidates == [] then []
    else
      var kept := Keep(b, shotHistory, candidates[..|candidates| - 1]);
      var c := candidates[|candidates| - 1];
      if IsValidTarget(b, c, shotHistory) && !Includes(kept, c) then kept + [c] else kept
  }

  /** The head of the kept list is the first valid candidate. */
  lemma {:induction false} KeepFirst(b: Board, shotHistory: seq<Coord>, candidates: seq<Coord>)
    requires WellFormed(b)
    ensures Keep(b, shotHistory, candidates) != [] ==>
              exists i :: 0 <= i < |candidates| && candidates[i] == Keep(b, shotHistory, candidates)[0] &&
                          IsValidTarget(b, candidates[i], shotHistory) &&
                          forall j :: 0 <= j < i ==> !IsValidTarget(b, candidates[j], shotHistory)
  {
    if candidates != [] {
      var init := candidates[..|candidates| - 1];
      KeepFirst(b, shotHistory, init);
      var kept := Keep(b, shotHistory, init);
      if kept != [] {
        var i :| 0 <= i < |init| && init[i] == kept[0] && IsValidTarget(b, init[i], shotHistory) &&
                 forall j :: 0 <= j < i ==> !IsValidTarget(b, init[j], shotHistory);
        assert candidates[i] == init[i];
        assert Keep(b, shotHistory, candidates)[0] == kept[0];
        forall j | 0 <= j < i
          ensures !IsValidTarget(b, candidates[j], shotHistory)
        {
          assert candidates[j] == init[j];
        }
      } else if Keep(b, shotHistory, candidates) != [] {
        var n := |candidates| - 1;
        forall j | 0 <= j < n
          ensures !IsValidTarget(b, candidates[j], shotHistory)
        {
          assert candidates[j] == init[j] && init[j] in init;
        }
      }
    }
  }

  /** The queue getMediumMove rebuilds from the hit streak's neighbours. */
  function Rebuilt(b: Board, shotHistory: seq<Coord>, hitStreak: seq<Coord>): seq<Coord>
    requires WellFormed(b)
  {
    Keep(b, shotHistory, Neighbours(hitStreak))
  }

  /** Offering one more candidate `c` to the list kept from `done`. */
  lemma KeepNext(b: Board, shotHistory: seq<Coord>, done: seq<Coord>, c: Coord, next: seq<Coord>)
    requires WellFormed(b) && next == done + [c]
    ensures Keep(b, shotHistory, next) ==
            var kept := Keep(b, shotHistory, done);
            if IsValidTarget(b, c, shotHistory) && !Includes(kept, c) then kept + [c] else kept
  {
    assert next[..|next| - 1] == done;
  }

  /** The inner loop of the rebuild: offer each candidate in turn to the kept list. */
  method KeepEach(b: Board, shotHistory: seq<Coord>, ghost done: seq<Coord>, kept: seq<Coord>, candidates: seq<Coord>)
    returns (r: seq<Coord>)
    requires WellFormed(b) && kept == Keep(b, shotHistory, done)
    ensures r == Keep(b, shotHistory, done + candidates)
  {
    r := kept;
    ghost var seen := done;
    var todo := candidates;
    while todo != []
      invariant seen + todo == done + candidates
      invariant r == Keep(b, shotHistory, seen)
    {
      var c := todo[0];
      ghost var next := seen + [c];
      KeepNext(b, shotHistory, seen, c, next);
      if IsValidTarget(b, c, shotHistory) && !Includes(r, c) {
        r := r + [c];
      }
      ShiftHead(seen, todo, next);
      seen, todo := next, todo[1..];
    }
    assert seen == seen + todo;
  }

  method RebuildQueue(b: Board, shotHistory: seq<Coord>, hitStreak: seq<Coord>) returns (rebuilt: seq<Coord>)
    requires WellFormed(b)
    ensures rebuilt == Rebuilt(b, shotHistory, hitStreak)
  {
    rebuilt := [];
    var i := 0;
    while i < |hitStreak|
      invariant 0 <= i <= |hitStreak|
      invariant rebuilt == Keep(b, shotHistory, Neighbours(hitStreak[..i]))
    {
      var adjacent := GetAdjacentCells(hitStreak[i]);
      rebuilt := KeepEach(b, shotHistory, Neighbours(hitStreak[..i]), rebuilt, adjacent);
      assert hitStreak[..i + 1][..i] == hitStreak[..i];
      i := i + 1;
    }
    assert hitStreak[..i] == hitStreak;
  }

  /**
   * getMediumMove: the first valid hunt-queue entry; failing that, the first
   * valid neighbour of the hit streak; failing that, the easy move.
   */
  function MediumMove(b: Board, ai: AiState, r: Random01): (m: Option<Coord>)
    requires WellFormed(b)
    ensures m.Some? ==> IsValidTarget(b, m.value, ai.shotHistory)
    ensures m.None? <==> Available(b, ai.shotHistory) == []
  {
    var validTargets := Filter(ai.huntQueue, ValidAt(b, ai.shotHistory));
    if |validTargets| > 0 then
      AvailableMembers(b, ai.shotHistory);
      assert validTargets[0] in validTargets;
      Some(validTargets[0])
    else if |ai.hitStreak| > 0 && |Rebuilt(b, ai.shotHistory, ai.hitStreak)| > 0 then
      AvailableMembers(b, ai.shotHistory);
      var rebuilt := Rebuilt(b, ai.shotHistory, ai.hitStreak);
      assert rebuilt[0] in rebuilt;
      Some(rebuilt[0])
    else EasyMove(b, ai, r)
  }

  method GetMediumMove(b: Board, ai: AiState, r: Random01) returns (m: Option<Coord>)
    requires WellFormed(b)
    ensures m == MediumMove(b, ai, r)
  {
    var validTargets := Filter(ai.huntQueue, ValidAt(b, ai.shotHistory));
    if |validTargets| > 0 {
      return Some(validTargets[0]);
    }
    if |ai.hitStreak| > 0 {
      var rebuilt := RebuildQueue(b, ai.shotHistory, ai.hitStreak);
      if |rebuilt| > 0 {
        return Some(rebuilt[0]);
      }
    }
    m := GetEasyMove(b, ai, r);
  }

  /** With a valid entry in the hunt queue, medium fires at the first one, whatever the draw. */
  lemma MediumPrefersQueue(b: Board, ai: AiState, r: Random01)
    requires WellFormed(b)
    requires exists i :: 0 <= i < |ai.huntQueue| && IsValidTarget(b, ai.huntQueue[i], ai.shotHistory)
    ensures exists i :: 0 <= i < |ai.huntQueue| && MediumMove(b, ai, r) == Some(ai.huntQueue[i]) &&
                        IsValidTarget(b, ai.huntQueue[i], ai.shotHistory) &&
                        forall j :: 0 <= j < i ==> !IsValidTarget(b, ai.huntQueue[j], ai.shotHistory)
  {
    FilterEmpty(ai.huntQueue, ValidAt(b, ai.shotHistory));
    FilterFirst(ai.huntQueue, ValidAt(b, ai.shotHistory));
  }

  /** A valid head of the hunt queue is medium's move. */
  lemma MediumTakesValidHead(b: Board, ai: AiState, r: Random01)
    requires WellFormed(b) && ai.huntQueue != [] && IsValidTarget(b, ai.huntQueue[0], ai.shotHistory)
    ensures MediumMove(b, ai, r) == Some(ai.huntQueue[0])
  {
    MediumPrefersQueue(b, ai, r);
  }

  /**
   * With no valid queue entry but a valid neighbour of the streak, medium
   * fires at the first such neighbour (streak order, then up, down, left,
   * right), which is adjacent to a hit of the streak.
   */
  lemma MediumChasesStreak(b: Board, ai: AiState, r: Random01)
    requires WellFormed(b)
    requires forall i :: 0 <= i < |ai.huntQueue| ==> !IsValidTarget(b, ai.huntQueue[i], ai.shotHistory)
    requires exists d :: d in Neighbours(ai.hitStreak) && IsValidTarget(b, d, ai.shotHistory)
    ensures exists i :: 0 <= i < |Neighbours(ai.hitStreak)| &&
              MediumMove(b, ai, r) == Some(Neighbours(ai.hitStreak)[i]) &&
              IsValidTarget(b, Neighbours(ai.hitStreak)[i], ai.shotHistory) &&
              forall j :: 0 <= j < i ==> !IsValidTarget(b, Neighbours(ai.hitStreak)[j], ai.shotHistory)
    ensures exists h :: h in ai.hitStreak && IsAdjacent(h, MediumMove(b, ai, r).value)
  {
    var ns := Neighbours(ai.hitStreak);
    var rebuilt := Rebuilt(b, ai.shotHistory, ai.hitStreak);
    NeighboursMembership(ai.hitStreak);
    assert Filter(ai.huntQueue, ValidAt(b, ai.shotHistory)) == [] by {
      FilterEmpty(ai.huntQueue, ValidAt(b, ai.shotHistory));
    }
    assert |ai.hitStreak| > 0 && rebuilt != [] by {
      var d :| d in ns && IsValidTarget(b, d, ai.shotHistory);
      assert d in rebuilt;
    }
    assert MediumMove(b, ai, r) == Some(rebuilt[0]);
    assert rebuilt[0] in ns by {
      assert rebuilt[0] in rebuilt;
    }
    KeepFirst(b, ai.shotHistory, ns);
  }

  /** With neither a valid queue entry nor a valid streak neighbour, medium is easy. */
  lemma MediumFallsBackToEasy(b: Board, ai: AiState, r: Random01)
    requires WellFormed(b)
    requires forall i :: 0 <= i < |ai.huntQueue| ==> !IsValidTarget(b, ai.huntQueue[i], ai.shotHistory)
    requires forall d :: d in Neighbours(ai.hitStreak) ==> !IsValidTarget(b, d, ai.shotHistory)
    ensures MediumMove(b, ai, r) == EasyMove(b, ai, r)
  {
    FilterEmpty(ai.huntQueue, ValidAt(b, ai.shotHistory));
    KeepFirst(b, ai.shotHistory, Neighbours(ai.hitStreak));
  }
}
