/**
 * The AI's memory and the small helpers every strategy shares: coordinate
 * equality, membership in a coordinate list, the target-validity test and
 * the four orthogonal neighbours of a cell.
 */
module AiCore {
  import opened Types
  import opened BoardEngine

  datatype Direction = Up | Down | Left | Right

  /**
   * What the AI remembers between turns. `currentDirection` is only ever
   * reset, never read.
   */
  datatype AiState = AiState(
    shotHistory: seq<Coord>,
    huntQueue: seq<Coord>,
    lastHit: Option<Coord>,
    currentDirection: Option<Direction>,
    hitStreak: seq<Coord>)

  function CreateInitialAiState(): (s: AiState)
    ensures s.shotHistory == [] && s.huntQueue == [] && s.hitStreak == []
    ensures s.lastHit.None? && s.currentDirection.None?
  {
    AiState([], [], None, None, [])
  }

  /** Field-wise comparison, the same as value equality on coordinates. */
  function CoordsEqual(a: Coord, b: Coord): (r: bool)
    ensures r <==> a == b
  {
    a.x == b.x && a.y == b.y
  }

  /** `s.some((d) => coordsEqual(d, c))`. */
  function Includes(s: seq<Coord>, c: Coord): (r: bool)
    ensures r <==> c in s
  {
    if s == [] then false
    else CoordsEqual(s[0], c) || Includes(s[1..], c)
  }

  /** A cell the AI may still fire at: on the board, not yet resolved, never targeted before. */
  function IsValidTarget(b: Board, c: Coord, shotHistory: seq<Coord>): (r: bool)
    requires WellFormed(b)
    ensures r <==> IsWithinBounds(b, c) && GetCellStatus(b, c) != Some(Hit) &&
                   GetCellStatus(b, c) != Some(Miss) && c !in shotHistory
  {
    if !IsWithinBounds(b, c) then false
    else if CellAt(b, c).status == Hit || CellAt(b, c).status == Miss then false
    else !Includes(shotHistory, c)
  }

  /** Orthogonal adjacency: one step along exactly one axis. */
  predicate IsAdjacent(a: Coord, b: Coord)
  {
    var dx := if a.x < b.x then b.x - a.x else a.x - b.x;
    var dy := if a.y < b.y then b.y - a.y else a.y - b.y;
    (dx == 1 && dy == 0) || (dx == 0 && dy == 1)
  }

  /** Up, down, left, right, in that order; cells off the board are included. */
  function GetAdjacentCells(c: Coord): (r: seq<Coord>)
    ensures |r| == 4 && NoDuplicates(r)
    ensures forall d :: d in r <==> IsAdjacent(c, d)
  {
    [Coord(c.x, c.y - 1), Coord(c.x, c.y + 1), Coord(c.x - 1, c.y), Coord(c.x + 1, c.y)]
  }

  /** The neighbour lists of `hits` concatenated in order. */
  function Neighbours(hits: seq<Coord>): (r: seq<Coord>)
    ensures |r| == 4 * |hits|
  {
    if hits == [] then []
    else Neighbours(hits[..|hits| - 1]) + GetAdjacentCells(hits[|hits| - 1])
  }

  lemma {:induction false} NeighboursMembership(hits: seq<Coord>)
    ensures forall d :: d in Neighbours(hits) <==> exists h :: h in hits && IsAdjacent(h, d)
  {
    if hits != [] {
      var init := hits[..|hits| - 1];
      NeighboursMembership(init);
      forall d
        ensures d in Neighbours(hits) <==> exists h :: h in hits && IsAdjacent(h, d)
      {
        if d in Neighbours(hits) && d !in Neighbours(init) {
          assert IsAdjacent(hits[|hits| - 1], d);
        }
        if h :| h in hits && IsAdjacent(h, d) {
          if h != hits[|hits| - 1] {
            assert h in init by {
              var k :| 0 <= k < |hits| && hits[k] == h;
              assert init[k] == h;
            }
          }
        }
      }
    }
  }
}
