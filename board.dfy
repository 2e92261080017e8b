/**
 * The board model: grid creation, placement checks, copy-on-write ship
 * placement, attack resolution and the end-of-game test. Every operation
 * returns a new board value and leaves its input untouched.
 */
module BoardEngine {
  import opened Types

  /** On a well-formed board, a coordinate is in bounds exactly when `cells[y][x]` exists. */
  predicate IsWithinBounds(b: Board, c: Coord)
    ensures WellFormed(b) ==>
              (IsWithinBounds(b, c) <==> 0 <= c.y < |b.cells| && 0 <= c.x < |b.cells[c.y]|)
  {
    c.x >= 0 && c.y >= 0 && c.x < b.size && c.y < b.size
  }

  function CellAt(b: Board, c: Coord): Cell
    requires WellFormed(b) && IsWithinBounds(b, c)
  {
    b.cells[c.y][c.x]
  }

  /** The status of an in-bounds cell, or None (the source's null) outside the grid. */
  function GetCellStatus(b: Board, c: Coord): (r: Option<CellStatus>)
    requires WellFormed(b)
    ensures r.None? <==> !IsWithinBounds(b, c)
    ensures r.Some? ==> r.value == CellAt(b, c).status
  {
    if !IsWithinBounds(b, c) then None else Some(b.cells[c.y][c.x].status)
  }

  function EmptyCell(x: int, y: int): Cell
  {
    Cell(Coord(x, y), Empty, None)
  }

  /** The board createEmptyBoard builds. */
  function EmptyBoard(size: int): (r: Board)
    ensures WellFormed(r) && r.size == size && r.ships == []
    ensures forall c :: IsWithinBounds(r, c) ==> CellAt(r, c) == Cell(c, Empty, None)
  {
    Board(size, seq(Dim(size), y => seq(Dim(size), x => EmptyCell(x, y))), [])
  }

  /** Builds the grid row by row, as the source's nested loops do. */
  method CreateEmptyBoard(size: int) returns (r: Board)
    ensures r == EmptyBoard(size)
    ensures WellFormed(r) && r.size == size && r.ships == []
    ensures forall c :: IsWithinBounds(r, c) ==> CellAt(r, c) == Cell(c, Empty, None)
  {
    var cells: seq<seq<Cell>> := [];
    var y := 0;
    while y < size
      invariant 0 <= y <= Dim(size)
      invariant cells == seq(y, j => seq(Dim(size), i => EmptyCell(i, j)))
    {
      var row: seq<Cell> := [];
      var x := 0;
      while x < size
        invariant 0 <= x <= Dim(size)
        invariant row == seq(x, i => EmptyCell(i, y))
      {
        row := row + [EmptyCell(x, y)];
        x := x + 1;
      }
      cells := cells + [row];
      y := y + 1;
    }
    r := Board(size, cells, []);
  }

  /** Every coordinate is on the grid and its cell is still empty. */
  predicate CanPlaceShipAt(b: Board, coords: seq<Coord>)
    requires WellFormed(b)
    ensures coords == [] ==> CanPlaceShipAt(b, coords)
    ensures (forall c :: c in coords ==> IsWithinBounds(b, c) && CellAt(b, c).status == Empty) ==> CanPlaceShipAt(b, coords)
    ensures forall c :: c in coords && !IsWithinBounds(b, c) ==> !CanPlaceShipAt(b, coords)
    ensures forall c :: c in coords && IsWithinBounds(b, c) && CellAt(b, c).status != Empty ==> !CanPlaceShipAt(b, coords)
  {
    forall c :: c in coords ==> IsWithinBounds(b, c) && GetCellStatus(b, c) == Some(Empty)
  }

  /** The cell after placing the ship `id` on `coords`. */
  function MarkCell(cell: Cell, at: Coord, id: string, coords: seq<Coord>): Cell
  {
    if at in coords then cell.(status := Occupied, shipId := Some(id)) else cell
  }

  /** The board placeShipAt returns: the ship appended with its coordinates, its cells marked. */
  function Placed(b: Board, ship: Ship, coords: seq<Coord>): (r: Board)
    requires WellFormed(b)
    ensures WellFormed(r) && r.size == b.size
  {
    Board(b.size,
          seq(|b.cells|, y requires 0 <= y < |b.cells| =>
            seq(|b.cells[y]|, x requires 0 <= x < |b.cells[y]| =>
              MarkCell(b.cells[y][x], Coord(x, y), ship.id, coords))),
          b.ships + [ship.(coordinates := coords)])
  }

  /**
   * Clones the board, appends the ship and marks each target cell in turn.
   * It does not re-check the placement: occupied cells are overwritten.
   */
  method PlaceShipAt(b: Board, ship: Ship, coords: seq<Coord>) returns (r: Board)
    requires WellFormed(b)
    requires forall c :: c in coords ==> IsWithinBounds(b, c)
    ensures r == Placed(b, ship, coords)
    ensures WellFormed(r) && r.size == b.size
    ensures r.ships == b.ships + [ship.(coordinates := coords)]
    ensures forall c :: IsWithinBounds(b, c) && c in coords ==>
              CellAt(r, c) == CellAt(b, c).(status := Occupied, shipId := Some(ship.id))
    ensures forall c :: IsWithinBounds(b, c) && c !in coords ==> CellAt(r, c) == CellAt(b, c)
  {
    var cells := b.cells;
    var i := 0;
    while i < |coords|
      invariant 0 <= i <= |coords|
      invariant |cells| == |b.cells|
      invariant forall y :: 0 <= y < |cells| ==> |cells[y]| == |b.cells[y]|
      invariant forall y, x :: 0 <= y < |cells| && 0 <= x < |cells[y]| ==>
                  cells[y][x] == MarkCell(b.cells[y][x], Coord(x, y), ship.id, coords[..i])
    {
      var c := coords[i];
      assert c in coords && IsWithinBounds(b, c);
      cells := cells[c.y := cells[c.y][c.x := cells[c.y][c.x].(status := Occupied, shipId := Some(ship.id))]];
      i := i + 1;
    }
    assert coords[..i] == coords;
    r := Board(b.size, cells, b.ships + [ship.(coordinates := coords)]);
    var p := Placed(b, ship, coords);
    assert |p.cells| == |cells|;
    forall y | 0 <= y < |cells|
      ensures p.cells[y] == cells[y]
    {
      assert |p.cells[y]| == |cells[y]|;
    }
  }

  /** A run of `length` cells from `start`, rightwards or downwards. */
  function Run(start: Coord, length: int, horizontal: bool): (r: seq<Coord>)
    ensures |r| == Dim(length)
    ensures forall c :: c in r <==>
              if horizontal then c.y == start.y && start.x <= c.x < start.x + length
              else c.x == start.x && start.y <= c.y < start.y + length
  {
    var r := seq(Dim(length), i => if horizontal then Coord(start.x + i, start.y) else Coord(start.x, start.y + i));
    forall c: Coord | if horizontal then c.y == start.y && start.x <= c.x < start.x + length
                      else c.x == start.x && start.y <= c.y < start.y + length
      ensures c in r
    {
      assert r[if horizontal then c.x - start.x else c.y - start.y] == c;
    }
    r
  }

  /** The outcome of one shot. */
  datatype AttackResult = AttackResult(board: Board, hit: bool, sunkShip: Option<Ship>)

  /** Array.findIndex: the first ship whose id equals `id`. */
  function FindShipIndex(ships: seq<Ship>, id: Option<string>): (r: Option<nat>)
    ensures r.Some? ==> r.value < |ships| && Some(ships[r.value].id) == id &&
                        forall j :: 0 <= j < r.value ==> Some(ships[j].id) != id
    ensures r.None? ==> forall j :: 0 <= j < |ships| ==> Some(ships[j].id) != id
  {
    if |ships| == 0 then None
    else if Some(ships[0].id) == id then Some(0)
    else match FindShipIndex(ships[1..], id)
      case None => None
      case Some(i) => Some(i + 1)
  }

  /** JavaScript truthiness of `cell.shipId`: present and not the empty string. */
  predicate HasShipId(cell: Cell)
  {
    cell.shipId.Some? && cell.shipId.value != ""
  }

  function SetStatus(b: Board, c: Coord, s: CellStatus): (r: Board)
    requires WellFormed(b) && IsWithinBounds(b, c)
    ensures WellFormed(r) && r.size == b.size && r.ships == b.ships
    ensures CellAt(r, c) == CellAt(b, c).(status := s)
    ensures forall d :: IsWithinBounds(b, d) && d != c ==> CellAt(r, d) == CellAt(b, d)
  {
    b.(cells := b.cells[c.y := b.cells[c.y][c.x := b.cells[c.y][c.x].(status := s)]])
  }

  /**
   * The hit branch of a shot: the cell becomes a hit, and the first ship whose id
   * matches the cell's takes one more hit; it is reported sunk when its hits
   * reach its length. A cell whose id matches no ship only changes colour.
   */
  function StrikeShip(b: Board, t: Coord): (r: AttackResult)
    requires WellFormed(b) && IsWithinBounds(b, t)
    requires CellAt(b, t).status == Occupied && HasShipId(CellAt(b, t))
    ensures WellFormed(r.board) && r.board.size == b.size && r.hit
    ensures CellAt(r.board, t) == CellAt(b, t).(status := Hit)
    ensures forall c :: IsWithinBounds(b, c) && c != t ==> CellAt(r.board, c) == CellAt(b, c)
    ensures FindShipIndex(b.ships, CellAt(b, t).shipId).None? ==>
              r.board.ships == b.ships && r.sunkShip.None?
    ensures FindShipIndex(b.ships, CellAt(b, t).shipId).Some? ==>
              var k := FindShipIndex(b.ships, CellAt(b, t).shipId).value;
              r.board.ships == b.ships[k := b.ships[k].(hits := b.ships[k].hits + 1)] &&
              r.sunkShip == if b.ships[k].hits + 1 >= b.ships[k].length
                            then Some(b.ships[k].(hits := b.ships[k].hits + 1)) else None
  {
    var marked := SetStatus(b, t, Hit);
    match FindShipIndex(b.ships, CellAt(b, t).shipId)
    case None => AttackResult(marked, true, None)
    case Some(i) =>
      var ship := b.ships[i].(hits := b.ships[i].hits + 1);
      AttackResult(marked.(ships := b.ships[i := ship]), true,
                   if ship.hits >= ship.length then Some(ship) else None)
  }

  /**
   * Resolves one shot. Off-grid targets and cells already hit or missed are
   * no-ops that return the very same board. A ship cell with a (truthy) ship id
   * becomes a hit and its owner's hit count rises; any other cell becomes a miss.
   */
  function ReceiveAttack(b: Board, t: Coord): (r: AttackResult)
    requires WellFormed(b)
    ensures WellFormed(r.board) && r.board.size == b.size
    ensures !IsWithinBounds(b, t) ==> r == AttackResult(b, false, None)
    ensures IsWithinBounds(b, t) && CellAt(b, t).status in {Hit, Miss} ==>
              r == AttackResult(b, CellAt(b, t).status == Hit, None)
    ensures IsWithinBounds(b, t) && CellAt(b, t).status !in {Hit, Miss} ==>
              (r.hit <==> CellAt(b, t).status == Occupied && HasShipId(CellAt(b, t))) &&
              CellAt(r.board, t) == CellAt(b, t).(status := if r.hit then Hit else Miss)
    ensures forall c :: IsWithinBounds(b, c) && c != t ==> CellAt(r.board, c) == CellAt(b, c)
    ensures |r.board.ships| == |b.ships|
    ensures forall i :: 0 <= i < |b.ships| && r.board.ships[i] != b.ships[i] ==>
              r.board.ships[i] == b.ships[i].(hits := b.ships[i].hits + 1) &&
              Some(b.ships[i].id) == CellAt(b, t).shipId &&
              forall j :: 0 <= j < |b.ships| && j != i ==> r.board.ships[j] == b.ships[j]
    ensures r.sunkShip.Some? <==>
              exists i :: 0 <= i < |b.ships| && r.board.ships[i] != b.ships[i] &&
                          r.board.ships[i].hits >= r.board.ships[i].length
    ensures r.sunkShip.Some? ==> r.hit && r.sunkShip.value in r.board.ships
    ensures IsWithinBounds(b, t) && CellAt(b, t).status == Occupied && HasShipId(CellAt(b, t)) ==>
              var k := FindShipIndex(b.ships, CellAt(b, t).shipId);
              (k.None? ==> r.board.ships == b.ships && r.sunkShip.None?) &&
              (k.Some? ==> var hit := b.ships[k.value].(hits := b.ships[k.value].hits + 1);
                           r.board.ships == b.ships[k.value := hit] &&
                           r.sunkShip == if hit.hits >= hit.length then Some(hit) else None)
    ensures IsWithinBounds(b, t) && CellAt(b, t).status !in {Hit, Miss} && !(CellAt(b, t).status == Occupied && HasShipId(CellAt(b, t))) ==>
              !r.hit && r.board.ships == b.ships && r.sunkShip.None?
  {
    if !IsWithinBounds(b, t) then AttackResult(b, false, None)
    else
      var cell := b.cells[t.y][t.x];
      if cell.status == Hit || cell.status == Miss then AttackResult(b, cell.status == Hit, None)
      else if cell.status == Occupied && HasShipId(cell) then StrikeShip(b, t)
      else AttackResult(SetStatus(b, t, Miss), false, None)
  }

  /** At least one ship, and every ship has taken as many hits as its length. */
  predicate AllShipsSunk(b: Board)
    ensures b.ships == [] ==> !AllShipsSunk(b)
    ensures forall i :: 0 <= i < |b.ships| && b.ships[i].hits < b.ships[i].length ==> !AllShipsSunk(b)
    ensures |b.ships| > 0 && (forall i :: 0 <= i < |b.ships| ==> b.ships[i].hits >= b.ships[i].length) ==> AllShipsSunk(b)
  {
    |b.ships| > 0 && forall s :: s in b.ships ==> s.hits >= s.length
  }

  /** No two ships list the same cell. */
  ghost predicate ShipsDisjoint(b: Board)
  {
    forall i, j, c :: 0 <= i < j < |b.ships| && c in b.ships[i].coordinates ==>
      c !in b.ships[j].coordinates
  }

  /**
   * Every coordinate a ship lists is an on-grid cell that is a ship part or a
   * hit and carries that ship's id, and no two ships share a cell.
   */
  ghost predicate ShipsOnGrid(b: Board)
  {
    WellFormed(b) &&
    (forall i, c :: 0 <= i < |b.ships| && c in b.ships[i].coordinates ==>
       IsWithinBounds(b, c) && CellAt(b, c).status in {Occupied, Hit} &&
       CellAt(b, c).shipId == Some(b.ships[i].id)) &&
    ShipsDisjoint(b)
  }

  /** The board invariant: ships sit on the grid, apart, and have non-empty ids. */
  ghost predicate FleetConsistent(b: Board)
  {
    ShipsOnGrid(b) && forall i :: 0 <= i < |b.ships| ==> b.ships[i].id != ""
  }

  lemma EmptyBoardConsistent(size: int)
    ensures FleetConsistent(EmptyBoard(size))
  {
  }

  /** Placing a ship where canPlaceShipAt allows it keeps the ships on the grid and apart. */
  lemma PlacedKeepsShipsOnGrid(b: Board, ship: Ship, coords: seq<Coord>)
    requires ShipsOnGrid(b) && CanPlaceShipAt(b, coords)
    ensures ShipsOnGrid(Placed(b, ship, coords))
  {
    var r := Placed(b, ship, coords);
    var n := |b.ships|;
    forall i, c | 0 <= i < |r.ships| && c in r.ships[i].coordinates
      ensures IsWithinBounds(r, c) && CellAt(r, c).status in {Occupied, Hit}
      ensures CellAt(r, c).shipId == Some(r.ships[i].id)
    {
      if i < n {
        assert r.ships[i] == b.ships[i];
        assert c in b.ships[i].coordinates && IsWithinBounds(b, c);
        assert c !in coords;
        assert CellAt(r, c) == MarkCell(CellAt(b, c), c, ship.id, coords);
      } else {
        assert r.ships[i].coordinates == coords;
        assert c in coords && IsWithinBounds(b, c);
        assert CellAt(r, c) == MarkCell(CellAt(b, c), c, ship.id, coords);
      }
    }
    forall i, j, c | 0 <= i < j < |r.ships| && c in r.ships[i].coordinates
      ensures c !in r.ships[j].coordinates
    {
      if j == n {
        assert r.ships[j].coordinates == coords;
        assert r.ships[i] == b.ships[i];
      } else {
        assert r.ships[i] == b.ships[i] && r.ships[j] == b.ships[j];
      }
    }
  }

  /** A shot never breaks the invariant. */
  lemma AttackKeepsFleetConsistent(b: Board, t: Coord)
    requires FleetConsistent(b)
    ensures FleetConsistent(ReceiveAttack(b, t).board)
  {
    var r := ReceiveAttack(b, t).board;
    forall i, c | 0 <= i < |r.ships| && c in r.ships[i].coordinates
      ensures IsWithinBounds(r, c) && CellAt(r, c).status in {Occupied, Hit}
      ensures CellAt(r, c).shipId == Some(r.ships[i].id)
    {
      assert r.ships[i].id == b.ships[i].id && r.ships[i].coordinates == b.ships[i].coordinates;
      assert c in b.ships[i].coordinates;
      assert IsWithinBounds(b, c) && CellAt(b, c).status in {Occupied, Hit};
      if IsWithinBounds(b, t) && c == t && CellAt(b, t).status !in {Hit, Miss} {
        assert HasShipId(CellAt(b, t));
      }
    }
  }

  /** Once every ship is sunk, further shots keep it so: hit counts never fall. */
  lemma AttackKeepsAllSunk(b: Board, t: Coord)
    requires WellFormed(b) && AllShipsSunk(b)
    ensures AllShipsSunk(ReceiveAttack(b, t).board)
  {
    var r := ReceiveAttack(b, t).board;
    forall s | s in r.ships
      ensures s.hits >= s.length
    {
      var i :| 0 <= i < |r.ships| && r.ships[i] == s;
      assert b.ships[i] in b.ships;
    }
  }

  /**
   * The caller's no-op test (comparing the returned board with the input):
   * the board comes back unchanged exactly when the target is off the grid
   * or already resolved.
   */
  lemma AttackUnchangedIff(b: Board, t: Coord)
    requires WellFormed(b)
    ensures ReceiveAttack(b, t).board == b <==>
              !IsWithinBounds(b, t) || CellAt(b, t).status in {Hit, Miss}
  {
    var r := ReceiveAttack(b, t);
    if IsWithinBounds(b, t) && CellAt(b, t).status !in {Hit, Miss} {
      assert CellAt(r.board, t).status != CellAt(b, t).status;
    }
  }

  /** Attacking the same cell twice equals attacking it once; the repeat reports the same hit flag. */
  lemma AttackTwiceIsAttackOnce(b: Board, t: Coord)
    requires WellFormed(b)
    ensures var once := ReceiveAttack(b, t);
            ReceiveAttack(once.board, t) == AttackResult(once.board, once.hit, None)
  {
  }

  /**
   * After a placement the placed cells are no longer free, and any other
   * candidate is placeable exactly when it was before and avoids them.
   */
  lemma PlacementBlocksItsCells(b: Board, ship: Ship, coords: seq<Coord>, other: seq<Coord>)
    requires WellFormed(b) && CanPlaceShipAt(b, coords)
    ensures coords != [] ==> !CanPlaceShipAt(Placed(b, ship, coords), coords)
    ensures CanPlaceShipAt(Placed(b, ship, coords), other) <==>
              CanPlaceShipAt(b, other) && forall c :: c in other ==> c !in coords
  {
    var r := Placed(b, ship, coords);
    if coords != [] {
      assert coords[0] in coords;
      assert GetCellStatus(r, coords[0]) == Some(Occupied);
    }
    if CanPlaceShipAt(r, other) {
      forall c | c in other
        ensures c !in coords && GetCellStatus(b, c) == Some(Empty)
      {
        assert GetCellStatus(r, c) == Some(Empty);
        assert CellAt(r, c) == MarkCell(CellAt(b, c), c, ship.id, coords);
      }
    }
    if CanPlaceShipAt(b, other) && forall c :: c in other ==> c !in coords {
      forall c | c in other
        ensures GetCellStatus(r, c) == Some(Empty)
      {
        assert CellAt(r, c) == MarkCell(CellAt(b, c), c, ship.id, coords);
      }
    }
  }
}
