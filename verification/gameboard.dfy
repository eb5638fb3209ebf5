/** The `GameBoard` component of GameBoard.tsx: `createNewBoard`,
    `placeRandomTile` and the unfinished `move`.

    `placeRandomTile` writes into the board it is given; here it returns the
    new board instead.  The two `Math.random()` draws are parameters. */
module GameBoard {
  import opened Lines
  import opened Grid

  /** `placeRandomTile`: the `k`-th empty cell in row-major order gets a 2 or
      a 4 and nothing else changes.  The source has no guard for a full
      board (destructuring the missing list entry throws), so a caller must
      leave an empty cell. */
  function PlaceRandomTile(board: Board, k: nat, belowNineTenths: bool): (r: Board)
    requires IsBoard(board) && k < |EmptyTiles(board)|
    ensures var c := EmptyTiles(board)[k];
            && SpawnedAt(board, r, c, TileValue(belowNineTenths))
            && r[c.x][c.y] in {2, 4}
    ensures TileCount(r) == TileCount(board) + 1
  {
    Spawn(board, k, belowNineTenths)
  }

  /** The list `placeRandomTile` draws from is empty exactly on a full board. */
  lemma PlaceRandomTileNeedsEmptyCell(board: Board)
    requires IsBoard(board)
    ensures |EmptyTiles(board)| > 0 <==> TileCount(board) < Cells
  {
    EmptyTilesCount(board);
  }

  /** `createNewBoard`: a zero board with two tiles placed in turn; the
      second draw picks among the 15 cells the first left empty. */
  function CreateNewBoard(k1: nat, belowNineTenths1: bool, k2: nat, belowNineTenths2: bool): (r: Board)
    requires k1 < Cells && k2 < Cells - 1
    ensures IsBoard(r)
    ensures TileCount(r) == 2
    ensures SpawnValues(r)
  {
    var empty := CreateEmptyBoard();
    EmptyValues(empty);
    TwoPlacements(empty, k1, belowNineTenths1, k2, belowNineTenths2);
    PlaceRandomTile(PlaceRandomTile(empty, k1, belowNineTenths1), k2, belowNineTenths2)
  }

  /** Two placements in turn on a board without tiles. */
  lemma TwoPlacements(b: Board, k1: nat, belowNineTenths1: bool, k2: nat, belowNineTenths2: bool)
    requires IsBoard(b) && TileCount(b) == 0 && SpawnValues(b)
    requires k1 < Cells && k2 < Cells - 1
    ensures k1 < |EmptyTiles(b)|
    ensures var first := PlaceRandomTile(b, k1, belowNineTenths1);
            && k2 < |EmptyTiles(first)|
            && var second := PlaceRandomTile(first, k2, belowNineTenths2);
            && TileCount(second) == 2
            && SpawnValues(second)
  {
    EmptyTilesCount(b);
    var first := PlaceRandomTile(b, k1, belowNineTenths1);
    PlaceKeepsValues(b, k1, belowNineTenths1);
    PlaceKeepsValues(first, k2, belowNineTenths2);
  }

  lemma EmptyValues(b: Board)
    requires IsBoard(b) && forall i, j :: 0 <= i < Size && 0 <= j < Size ==> b[i][j] == 0
    ensures SpawnValues(b)
  {
  }

  lemma PlaceKeepsValues(b: Board, k: nat, belowNineTenths: bool)
    requires IsBoard(b) && SpawnValues(b) && k < |EmptyTiles(b)|
    ensures SpawnValues(PlaceRandomTile(b, k, belowNineTenths))
    ensures |EmptyTiles(PlaceRandomTile(b, k, belowNineTenths))| + 1 == |EmptyTiles(b)|
  {
    var r := PlaceRandomTile(b, k, belowNineTenths);
    SpawnKeepsValues(b, r, EmptyTiles(b)[k], TileValue(belowNineTenths));
    EmptyTilesCount(b);
    EmptyTilesCount(r);
  }

  predicate SpawnValues(b: Board)
    requires IsBoard(b)
  {
    forall i, j :: 0 <= i < Size && 0 <= j < Size ==> b[i][j] in {0, 2, 4}
  }

  lemma SpawnKeepsValues(b: Board, r: Board, c: Cell, v: int)
    requires IsBoard(b) && SpawnValues(b) && SpawnedAt(b, r, c, v) && v in {2, 4}
    ensures SpawnValues(r)
  {
  }

  /** `move`: every direction branch is an empty placeholder, so the board
      is kept as it is and a tile is spawned on it. */
  function Move(board: Board, direction: string, k: nat, belowNineTenths: bool): (r: Board)
    requires IsBoard(board) && k < |EmptyTiles(board)|
    ensures var c := EmptyTiles(board)[k];
            && SpawnedAt(board, r, c, TileValue(belowNineTenths))
            && r[c.x][c.y] in {2, 4}
    ensures TileCount(r) == TileCount(board) + 1
  {
    var newBoard := board;
    PlaceRandomTile(newBoard, k, belowNineTenths)
  }

  /** `move` does not look at its direction. */
  lemma MoveIgnoresDirection(board: Board, d1: string, d2: string, k: nat, belowNineTenths: bool)
    requires IsBoard(board) && k < |EmptyTiles(board)|
    ensures Move(board, d1, k, belowNineTenths) == Move(board, d2, k, belowNineTenths)
  {
  }
}
