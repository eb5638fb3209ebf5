/** The Size x Size board shared by both game components: its shape, the
    ways of reading its lines, the row-major list of empty cells and the
    footprint of a spawned tile. */
module Grid {
  import opened Lines

  /** A board is a list of rows; 0 is an empty cell. */
  type Board = seq<seq<int>>

  /** Number of cells of a board. */
  const Cells := Size * Size

  predicate IsBoard(b: Board)
  {
    |b| == Size && forall i :: 0 <= i < Size ==> |b[i]| == Size
  }

  /** A cell coordinate `{x, y}` as the source builds it: `x` is the row and
      `y` the column. */
  datatype Cell = Cell(x: int, y: int)

  predicate InBounds(c: Cell)
  {
    0 <= c.x < Size && 0 <= c.y < Size
  }

  /** Position of a cell in a row-major scan. */
  function Index(c: Cell): int
  {
    c.x * Size + c.y
  }

  /** `createEmptyBoard` of index.tsx and the zero grid of `createNewBoard`
      in GameBoard.tsx. */
  function CreateEmptyBoard(): (b: Board)
    ensures IsBoard(b)
    ensures forall i, j :: 0 <= i < Size && 0 <= j < Size ==> b[i][j] == 0
    ensures TileCount(b) == 0
  {
    var b := seq(Size, _ => Zeros(Size));
    ZerosAllZero(Size);
    NoTiles(b);
    b
  }

  /** Number of tiles on the board. */
  function TileCount(b: seq<seq<int>>): nat
  {
    if |b| == 0 then 0 else Count(b[0]) + TileCount(b[1..])
  }

  lemma {:induction false} NoTiles(b: seq<seq<int>>)
    requires forall i, j :: 0 <= i < |b| && 0 <= j < |b[i]| ==> b[i][j] == 0
    ensures TileCount(b) == 0
  {
    if |b| > 0 {
      AllZero(b[0]);
      NoTiles(b[1..]);
    }
  }

  /** Sum of all tile values on the board. */
  function BoardSum(b: seq<seq<int>>): int
  {
    if |b| == 0 then 0 else Sum(b[0]) + BoardSum(b[1..])
  }

  function Reverse(s: seq<int>): (r: seq<int>)
    ensures |r| == |s|
    ensures forall i :: 0 <= i < |s| ==> r[i] == s[|s| - 1 - i]
  {
    seq(|s|, i requires 0 <= i < |s| => s[|s| - 1 - i])
  }

  /** Column `c`, read from the top row down. */
  function Column(b: Board, c: int): (r: seq<int>)
    requires IsBoard(b) && 0 <= c < Size
    ensures |r| == Size
    ensures forall i :: 0 <= i < Size ==> r[i] == b[i][c]
  {
    seq(Size, i requires 0 <= i < Size => b[i][c])
  }

  /** The board reflected in its main diagonal: rows become columns. */
  function Transpose(b: Board): (r: Board)
    requires IsBoard(b)
    ensures IsBoard(r)
    ensures forall i, j :: 0 <= i < Size && 0 <= j < Size ==> r[i][j] == b[j][i]
  {
    seq(Size, i requires 0 <= i < Size => Column(b, i))
  }

  /** The board reflected left to right. */
  function Mirror(b: Board): (r: Board)
    requires IsBoard(b)
    ensures IsBoard(r)
    ensures forall i, j :: 0 <= i < Size && 0 <= j < Size ==> r[i][j] == b[i][Size - 1 - j]
  {
    seq(Size, i requires 0 <= i < Size => Reverse(b[i]))
  }

  /** The board reflected top to bottom. */
  function Flip(b: Board): (r: Board)
    requires IsBoard(b)
    ensures IsBoard(r)
    ensures forall i, j :: 0 <= i < Size && 0 <= j < Size ==> r[i][j] == b[Size - 1 - i][j]
  {
    seq(Size, i requires 0 <= i < Size => b[Size - 1 - i])
  }

  // ---------------------------------------------------------------------
  // The row-major list of empty cells

  /** The inner `for j` loop: the empty cells of `row`, which is row `x` of
      the board read from column `y` on. */
  function RowEmpties(row: seq<int>, x: int, y: int): seq<Cell>
    decreases |row|
  {
    if |row| == 0 then []
    else (if row[0] == 0 then [Cell(x, y)] else []) + RowEmpties(row[1..], x, y + 1)
  }

  /** The outer `for i` loop: the empty cells of `rows`, which are the rows
      of the board from row `x` on. */
  function RowsEmpties(rows: seq<seq<int>>, x: int): seq<Cell>
    decreases |rows|
  {
    if |rows| == 0 then [] else RowEmpties(rows[0], x, 0) + RowsEmpties(rows[1..], x + 1)
  }

  /** `emptyTiles` of `generateRandomTile` and `placeRandomTile`. */
  function EmptyTiles(b: Board): seq<Cell>
    requires IsBoard(b)
  {
    RowsEmpties(b, 0)
  }

  /** The list holds exactly the empty cells, each once, in row-major order,
      and there are as many of them as the board has cells without a tile. */
  lemma EmptyTilesSpec(b: Board)
    requires IsBoard(b)
    ensures forall k :: 0 <= k < |EmptyTiles(b)| ==>
              InBounds(EmptyTiles(b)[k]) && b[EmptyTiles(b)[k].x][EmptyTiles(b)[k].y] == 0
    ensures forall i, j :: 0 <= i < Size && 0 <= j < Size && b[i][j] == 0 ==> Cell(i, j) in EmptyTiles(b)
    ensures forall k, l :: 0 <= k < l < |EmptyTiles(b)| ==> Index(EmptyTiles(b)[k]) < Index(EmptyTiles(b)[l])
    ensures |EmptyTiles(b)| + TileCount(b) == Cells
  {
    EmptyTilesSound(b);
    forall i, j | 0 <= i < Size && 0 <= j < Size && b[i][j] == 0
      ensures Cell(i, j) in EmptyTiles(b)
    {
      RowsEmptiesComplete(b, 0, i, j);
    }
    EmptyTilesCount(b);
  }

  /** Every listed cell is an empty cell of the board. */
  lemma EmptyTilesSound(b: Board)
    requires IsBoard(b)
    ensures forall k :: 0 <= k < |EmptyTiles(b)| ==>
              InBounds(EmptyTiles(b)[k]) && b[EmptyTiles(b)[k].x][EmptyTiles(b)[k].y] == 0
    ensures forall k, l :: 0 <= k < l < |EmptyTiles(b)| ==> Index(EmptyTiles(b)[k]) < Index(EmptyTiles(b)[l])
  {
    RowsEmptiesSound(b, 0);
  }

  lemma EmptyTilesCount(b: Board)
    requires IsBoard(b)
    ensures |EmptyTiles(b)| + TileCount(b) == Cells
  {
    RowsEmptiesCount(b, 0);
  }

  lemma {:induction false} RowEmptiesSound(row: seq<int>, x: int, y: int)
    ensures forall k :: 0 <= k < |RowEmpties(row, x, y)| ==>
              && RowEmpties(row, x, y)[k].x == x
              && y <= RowEmpties(row, x, y)[k].y < y + |row|
              && row[RowEmpties(row, x, y)[k].y - y] == 0
    ensures forall k, l :: 0 <= k < l < |RowEmpties(row, x, y)| ==>
              RowEmpties(row, x, y)[k].y < RowEmpties(row, x, y)[l].y
    decreases |row|
  {
    if |row| > 0 {
      RowEmptiesSound(row[1..], x, y + 1);
    }
  }

  lemma {:induction false} RowsEmptiesSound(rows: seq<seq<int>>, x: int)
    requires forall i :: 0 <= i < |rows| ==> |rows[i]| == Size
    ensures forall k :: 0 <= k < |RowsEmpties(rows, x)| ==>
              && x <= RowsEmpties(rows, x)[k].x < x + |rows|
              && 0 <= RowsEmpties(rows, x)[k].y < Size
              && rows[RowsEmpties(rows, x)[k].x - x][RowsEmpties(rows, x)[k].y] == 0
    ensures forall k, l :: 0 <= k < l < |RowsEmpties(rows, x)| ==>
              Index(RowsEmpties(rows, x)[k]) < Index(RowsEmpties(rows, x)[l])
    decreases |rows|
  {
    if |rows| > 0 {
      RowEmptiesSound(rows[0], x, 0);
      RowsEmptiesSound(rows[1..], x + 1);
    }
  }

  lemma {:induction false} RowEmptiesComplete(row: seq<int>, x: int, y: int, j: int)
    requires 0 <= j < |row| && row[j] == 0
    ensures Cell(x, y + j) in RowEmpties(row, x, y)
    decreases j
  {
    if j > 0 {
      RowEmptiesComplete(row[1..], x, y + 1, j - 1);
    }
  }

  lemma {:induction false} RowsEmptiesComplete(rows: seq<seq<int>>, x: int, i: int, j: int)
    requires 0 <= i < |rows| && 0 <= j < |rows[i]| && rows[i][j] == 0
    ensures Cell(x + i, j) in RowsEmpties(rows, x)
    decreases i
  {
    if i == 0 {
      RowEmptiesComplete(rows[0], x, 0, j);
    } else {
      RowsEmptiesComplete(rows[1..], x + 1, i - 1, j);
    }
  }

  lemma {:induction false} RowEmptiesCount(row: seq<int>, x: int, y: int)
    ensures |RowEmpties(row, x, y)| + Count(row) == |row|
    decreases |row|
  {
    if |row| > 0 {
      RowEmptiesCount(row[1..], x, y + 1);
    }
  }

  lemma {:induction false} RowsEmptiesCount(rows: seq<seq<int>>, x: int)
    requires forall i :: 0 <= i < |rows| ==> |rows[i]| == Size
    ensures |RowsEmpties(rows, x)| + TileCount(rows) == Size * |rows|
    decreases |rows|
  {
    if |rows| > 0 {
      RowEmptiesCount(rows[0], x, 0);
      RowsEmptiesCount(rows[1..], x + 1);
    }
  }

  // ---------------------------------------------------------------------
  // Spawning a tile

  /** `Math.random() < 0.9 ? 2 : 4`, with the comparison passed in. */
  function TileValue(belowNineTenths: bool): int
  {
    if belowNineTenths then 2 else 4
  }

  /** The board with cell `c` set to `v`. */
  function WithTile(b: Board, c: Cell, v: int): Board
    requires IsBoard(b) && InBounds(c)
  {
    b[c.x := b[c.x][c.y := v]]
  }

  /** `r` is `b` with a new tile of value `v` in the empty cell `c`, and
      every other cell unchanged. */
  predicate SpawnedAt(b: Board, r: Board, c: Cell, v: int)
    requires IsBoard(b)
  {
    && IsBoard(r)
    && InBounds(c)
    && b[c.x][c.y] == 0
    && r[c.x][c.y] == v
    && forall i, j :: 0 <= i < Size && 0 <= j < Size && (i, j) != (c.x, c.y) ==> r[i][j] == b[i][j]
  }

  /** Placing a tile at the `k`-th entry of the empty-cell list. */
  function Spawn(b: Board, k: nat, belowNineTenths: bool): (r: Board)
    requires IsBoard(b) && k < |EmptyTiles(b)|
    ensures SpawnedAt(b, r, EmptyTiles(b)[k], TileValue(belowNineTenths))
    ensures TileCount(r) == TileCount(b) + 1
    ensures |EmptyTiles(r)| + 1 == |EmptyTiles(b)|
  {
    EmptyTilesSound(b);
    var c := EmptyTiles(b)[k];
    var r := WithTile(b, c, TileValue(belowNineTenths));
    WithTileFootprint(b, c, TileValue(belowNineTenths));
    TileCountUpdate(b, c.x, c.y, TileValue(belowNineTenths));
    EmptyTilesCount(b);
    EmptyTilesCount(r);
    r
  }

  lemma WithTileFootprint(b: Board, c: Cell, v: int)
    requires IsBoard(b) && InBounds(c) && b[c.x][c.y] == 0
    ensures SpawnedAt(b, WithTile(b, c, v), c, v)
  {
  }

  lemma {:induction false} CountUpdate(s: seq<int>, j: nat, v: int)
    requires j < |s| && s[j] == 0 && v != 0
    ensures Count(s[j := v]) == Count(s) + 1
  {
    if j > 0 {
      CountUpdate(s[1..], j - 1, v);
      assert s[j := v][1..] == s[1..][j - 1 := v];
    }
  }

  lemma {:induction false} TileCountUpdate(b: seq<seq<int>>, x: nat, y: nat, v: int)
    requires x < |b| && y < |b[x]| && b[x][y] == 0 && v != 0
    ensures TileCount(b[x := b[x][y := v]]) == TileCount(b) + 1
  {
    if x == 0 {
      CountUpdate(b[0], y, v);
      assert b[x := b[x][y := v]][1..] == b[1..];
    } else {
      TileCountUpdate(b[1..], x - 1, y, v);
      assert b[x := b[x][y := v]][1..] == b[1..][x - 1 := b[x][y := v]];
    }
  }
}
