/**
 * Record shapes shared by the board engine and the AI: coordinates, cells,
 * ships and boards, plus the small Option/Result wrappers the engine returns.
 */
module Types {

  datatype Option<+T> = None | Some(value: T)

  datatype Result<+T, +E> = Ok(value: T) | Err(error: E)

  /** A grid position, 0-indexed: column x, row y. */
  datatype Coord = Coord(x: int, y: int)

  /** The four cell states; `Occupied` is the source's 'ship'. */
  datatype CellStatus = Empty | Occupied | Hit | Miss

  /** A cell remembers its own coordinates and, once a ship is placed on it, the ship's id. */
  datatype Cell = Cell(coordinates: Coord, status: CellStatus, shipId: Option<string>)

  datatype Ship = Ship(id: string, name: string, length: int, coordinates: seq<Coord>, hits: int)

  /** `cells[y][x]` is the cell at column x of row y. */
  datatype Board = Board(size: int, cells: seq<seq<Cell>>, ships: seq<Ship>)

  /** The number of rows (and of columns) that a board of the given size holds. */
  function Dim(size: int): nat
  {
    if size < 0 then 0 else size
  }

  /** The grid is square and matches the declared size. */
  ghost predicate WellFormed(b: Board)
  {
    |b.cells| == Dim(b.size) &&
    forall y :: 0 <= y < |b.cells| ==> |b.cells[y]| == Dim(b.size)
  }

  predicate NoDuplicates<T(==)>(s: seq<T>)
  {
    forall i, j :: 0 <= i < j < |s| ==> s[i] != s[j]
  }
}
