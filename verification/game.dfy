/** The `Game` component of index.tsx: the directional move
    `slideAndCombine`, the spawner `generateRandomTile` and `resetGame`.

    The component's state (the board and the score held in React state) is
    passed in and returned explicitly; the two `Math.random()` draws of the
    spawner are parameters. */
module Game {
  import opened Lines
  import opened Grid

  datatype Option<T> = None | Some(value: T)

  datatype Direction = Up | Down | Left | Right

  /** The `switch (direction)` of `slideAndCombine`: the four recognised
      names; any other string falls to `default`. */
  function DirectionOf(name: string): (d: Option<Direction>)
    ensures d.Some? <==> name in {"up", "down", "left", "right"}
  {
    if name == "up" then Some(Up)
    else if name == "down" then Some(Down)
    else if name == "left" then Some(Left)
    else if name == "right" then Some(Right)
    else None
  }

  lemma DirectionNames()
    ensures DirectionOf("up") == Some(Up) && DirectionOf("down") == Some(Down)
    ensures DirectionOf("left") == Some(Left) && DirectionOf("right") == Some(Right)
  {
  }

  /** What `slideAndCombine` computes: `newBoard`, `newScore` and the flag
      `moved`. */
  datatype Outcome = Outcome(board: Board, score: int, moved: bool)

  /** The state the component keeps. */
  datatype GameState = GameState(board: Board, score: int)

  /** `newScore += scoreGained`, line after line. */
  function AddGains(score: int, results: seq<LineResult>): int
    decreases |results|
  {
    if |results| == 0 then score else AddGains(score + results[0].gain, results[1..])
  }

  /** `slideAndCombine` up to the `if (moved)` test: `moved` starts false
      and no branch sets it. */
  function SlideAndCombine(board: Board, score: int, direction: string): (r: Outcome)
    requires IsBoard(board)
    ensures IsBoard(r.board)
    ensures !r.moved
    ensures DirectionOf(direction).None? ==> r.board == board && r.score == score
  {
    var moved := false;
    match DirectionOf(direction)
    case Some(d) =>
      var next := Slide(board, score, d);
      Outcome(next.board, next.score, moved)
    case None =>
      Outcome(board, score, moved)
  }

  /** The four cases of the `switch`. */
  function Slide(board: Board, score: int, d: Direction): (r: GameState)
    requires IsBoard(board)
    ensures IsBoard(r.board)
  {
    match d
    case Up => SlideUp(board, score)
    case Down => SlideDown(board, score)
    case Left => SlideLeft(board, score)
    case Right => SlideRight(board, score)
  }

  /** `case 'up'`: each column, top first, through the primitive. */
  function SlideUp(board: Board, score: int): (r: GameState)
    requires IsBoard(board)
    ensures IsBoard(r.board)
  {
    var results := seq(Size, col requires 0 <= col < Size => SlideLine(Column(board, col)));
    GameState(seq(Size, i requires 0 <= i < Size => seq(Size, col requires 0 <= col < Size => results[col].line[i])),
              AddGains(score, results))
  }

  /** `case 'down'`: each column reversed, through the primitive, and the
      result written back bottom first (`movedColumn[3 - i]`). */
  function SlideDown(board: Board, score: int): (r: GameState)
    requires IsBoard(board)
    ensures IsBoard(r.board)
  {
    var results := seq(Size, col requires 0 <= col < Size => SlideLine(Reverse(Column(board, col))));
    GameState(seq(Size, i requires 0 <= i < Size => seq(Size, col requires 0 <= col < Size => results[col].line[Size - 1 - i])),
              AddGains(score, results))
  }

  /** `case 'left'`: each row through the primitive. */
  function SlideLeft(board: Board, score: int): (r: GameState)
    requires IsBoard(board)
    ensures IsBoard(r.board)
  {
    var results := seq(Size, row requires 0 <= row < Size => SlideLine(board[row]));
    GameState(seq(Size, row requires 0 <= row < Size => results[row].line), AddGains(score, results))
  }

  /** `case 'right'`: each row reversed, through the primitive, and reversed
      back. */
  function SlideRight(board: Board, score: int): (r: GameState)
    requires IsBoard(board)
    ensures IsBoard(r.board)
  {
    var results := seq(Size, row requires 0 <= row < Size => SlideLine(Reverse(board[row])));
    GameState(seq(Size, row requires 0 <= row < Size => Reverse(results[row].line)), AddGains(score, results))
  }

  // ---------------------------------------------------------------------
  // Spawning, committing and resetting

  /** The random index is drawn below the length of the empty-cell list
      whenever that list is not empty. */
  predicate ValidDraw(board: Board, k: nat)
    requires IsBoard(board)
  {
    |EmptyTiles(board)| == 0 || k < |EmptyTiles(board)|
  }

  /** `generateRandomTile`: on a full board it returns early and the state is
      left alone (`None`); otherwise the `k`-th empty cell in row-major order
      gets a 2 or a 4. */
  function GenerateRandomTile(board: Board, k: nat, belowNineTenths: bool): (r: Option<Board>)
    requires IsBoard(board) && ValidDraw(board, k)
    ensures r.None? <==> TileCount(board) == Cells
    ensures |EmptyTiles(board)| > 0 ==>
              && r.Some?
              && var c := EmptyTiles(board)[k];
              && SpawnedAt(board, r.value, c, TileValue(belowNineTenths))
              && r.value[c.x][c.y] in {2, 4}
              && TileCount(r.value) == TileCount(board) + 1
  {
    EmptyTilesCount(board);
    if |EmptyTiles(board)| == 0 then None else Some(Spawn(board, k, belowNineTenths))
  }

  /** Lines 101-105 of `slideAndCombine`: when `moved` holds, the new board
      and score are stored and `generateRandomTile` runs.  It reads `board`
      of the render that created the handler (passed in as `state.board`,
      rows already written by the switch), and when it finds an empty cell
      its own `setBoard` is the one that lands. */
  function Commit(state: GameState, out: Outcome, k: nat, belowNineTenths: bool): (r: GameState)
    requires IsBoard(state.board) && (out.moved ==> ValidDraw(state.board, k))
    ensures !out.moved ==> r == state
    ensures out.moved ==> r.score == out.score
  {
    if out.moved then
      match GenerateRandomTile(state.board, k, belowNineTenths)
      case None => GameState(out.board, out.score)
      case Some(spawned) => GameState(spawned, out.score)
    else state
  }

  /** One swipe handled by `slideAndCombine`, commit included.  `moved` is
      never set, so nothing is stored through `setBoard` or `setScore`; the
      board the state holds changes only through the rows it shares with
      `newBoard` (see `SharedRowsAfter`). */
  function Step(state: GameState, direction: string, k: nat, belowNineTenths: bool): (r: GameState)
    requires IsBoard(state.board)
    ensures r.score == state.score
    ensures DirectionOf(direction).None? || DirectionOf(direction) == Some(Left) ==> r == state
  {
    var out := SlideAndCombine(state.board, state.score, direction);
    Commit(GameState(SharedRowsAfter(state.board, direction), state.score), out, k, belowNineTenths)
  }

  /** What a swipe does to the stored board: moving up or down moves the
      stored tiles too, without a score or a new tile; moving right leaves
      every stored row reversed. */
  lemma StepBoard(state: GameState, direction: string, k: nat, belowNineTenths: bool)
    requires IsBoard(state.board)
    ensures var r := Step(state, direction, k, belowNineTenths);
            && (direction == "up" || direction == "down" ==> r.board == SlideAndCombine(state.board, state.score, direction).board)
            && (direction == "right" ==> r.board == Mirror(state.board))
  {
    var r := Step(state, direction, k, belowNineTenths);
    assert r.board == SharedRowsAfter(state.board, direction);
    DirectionNames();
    if direction == "up" {
      SharedRowsUp(state.board, state.score, direction);
    } else if direction == "down" {
      SharedRowsDown(state.board, state.score, direction);
    } else if direction == "right" {
      SharedRowsRight(state.board, direction);
    }
  }

  lemma SharedRowsRight(board: Board, direction: string)
    requires IsBoard(board) && DirectionOf(direction) == Some(Right)
    ensures SharedRowsAfter(board, direction) == Mirror(board)
  {
    ReverseRowsMirrors(board, board, 0);
  }

  lemma SharedRowsUp(board: Board, score: int, direction: string)
    requires IsBoard(board) && DirectionOf(direction) == Some(Up)
    ensures SharedRowsAfter(board, direction) == SlideAndCombine(board, score, direction).board
  {
    SlideUpIgnoresScore(board, score);
    WriteUpFromStart(board);
  }

  lemma SharedRowsDown(board: Board, score: int, direction: string)
    requires IsBoard(board) && DirectionOf(direction) == Some(Down)
    ensures SharedRowsAfter(board, direction) == SlideAndCombine(board, score, direction).board
  {
    SlideDownIgnoresScore(board, score);
    WriteDownFromStart(board);
  }

  lemma SlideUpIgnoresScore(board: Board, score: int)
    requires IsBoard(board)
    ensures SlideUp(board, score).board == SlideUp(board, 0).board
  {
  }

  lemma SlideDownIgnoresScore(board: Board, score: int)
    requires IsBoard(board)
    ensures SlideDown(board, score).board == SlideDown(board, 0).board
  {
  }

  // ---------------------------------------------------------------------
  // Rows shared with the stored board

  /** `[...board]` copies only the outer array: `newBoard` starts out holding
      the very rows of the stored board.  The 'up' and 'down' cases assign
      `row[col]` on those rows and the 'right' case calls `reverse()` on
      them before replacing them in the copy; the 'left' case only replaces
      them in the copy.  This is the stored board afterwards. */
  function SharedRowsAfter(board: Board, direction: string): (r: Board)
    requires IsBoard(board)
    ensures IsBoard(r)
    ensures DirectionOf(direction).None? || DirectionOf(direction) == Some(Left) ==> r == board
  {
    match DirectionOf(direction)
    case Some(Up) => WriteUp(board, 0)
    case Some(Down) => WriteDown(board, 0)
    case Some(Right) => ReverseRows(board, 0)
    case Some(Left) => board
    case None => board
  }

  /** `row[col] = line[i]` on every row `i`. */
  function WithColumn(b: Board, col: int, line: seq<int>): (r: Board)
    requires IsBoard(b) && 0 <= col < Size && |line| == Size
    ensures IsBoard(r)
    ensures forall i, j :: 0 <= i < Size && 0 <= j < Size ==> r[i][j] == (if j == col then line[i] else b[i][j])
  {
    seq(Size, i requires 0 <= i < Size => b[i][col := line[i]])
  }

  /** The 'up' loop from column `col` on, each column read from the rows as
      the earlier columns left them. */
  function WriteUp(b: Board, col: nat): (r: Board)
    requires IsBoard(b) && col <= Size
    ensures IsBoard(r)
    decreases Size - col
  {
    if col == Size then b
    else WriteUp(WithColumn(b, col, SlideLine(Column(b, col)).line), col + 1)
  }

  /** The 'down' loop from column `col` on: `row[col] = movedColumn[3 - i]`. */
  function WriteDown(b: Board, col: nat): (r: Board)
    requires IsBoard(b) && col <= Size
    ensures IsBoard(r)
    decreases Size - col
  {
    if col == Size then b
    else WriteDown(WithColumn(b, col, Reverse(SlideLine(Reverse(Column(b, col))).line)), col + 1)
  }

  /** `newBoard[row].reverse()` from row `row` on. */
  function ReverseRows(b: Board, row: nat): (r: Board)
    requires IsBoard(b) && row <= Size
    ensures IsBoard(r)
    decreases Size - row
  {
    if row == Size then b
    else ReverseRows(b[row := Reverse(b[row])], row + 1)
  }

  lemma SameCells(a: Board, b: Board)
    requires IsBoard(a) && IsBoard(b)
    requires forall i, j :: 0 <= i < Size && 0 <= j < Size ==> a[i][j] == b[i][j]
    ensures a == b
  {
    forall k | 0 <= k < Size
      ensures a[k] == b[k]
    {
    }
  }

  /** Writing the columns one after another gives the board `SlideUp`
      builds, though each column is read after its neighbours changed. */
  lemma WriteUpFromStart(board: Board)
    requires IsBoard(board)
    ensures WriteUp(board, 0) == SlideUp(board, 0).board
  {
    WriteUpMoves(board, board, 0);
  }

  lemma {:induction false} WriteUpMoves(board: Board, b: Board, col: nat)
    requires IsBoard(board) && IsBoard(b) && col <= Size
    requires forall i, j :: 0 <= i < Size && 0 <= j < Size ==>
               b[i][j] == (if j < col then SlideUp(board, 0).board[i][j] else board[i][j])
    ensures WriteUp(b, col) == SlideUp(board, 0).board
    decreases Size - col
  {
    var up := SlideUp(board, 0).board;
    if col == Size {
      SameCells(b, up);
    } else {
      assert Column(b, col) == Column(board, col);
      var next := WithColumn(b, col, SlideLine(Column(b, col)).line);
      forall i, j | 0 <= i < Size && 0 <= j < Size
        ensures next[i][j] == (if j < col + 1 then up[i][j] else board[i][j])
      {
      }
      WriteUpMoves(board, next, col + 1);
    }
  }

  lemma WriteDownFromStart(board: Board)
    requires IsBoard(board)
    ensures WriteDown(board, 0) == SlideDown(board, 0).board
  {
    WriteDownMoves(board, board, 0);
  }

  lemma {:induction false} WriteDownMoves(board: Board, b: Board, col: nat)
    requires IsBoard(board) && IsBoard(b) && col <= Size
    requires forall i, j :: 0 <= i < Size && 0 <= j < Size ==>
               b[i][j] == (if j < col then SlideDown(board, 0).board[i][j] else board[i][j])
    ensures WriteDown(b, col) == SlideDown(board, 0).board
    decreases Size - col
  {
    var down := SlideDown(board, 0).board;
    if col == Size {
      SameCells(b, down);
    } else {
      assert Column(b, col) == Column(board, col);
      var next := WithColumn(b, col, Reverse(SlideLine(Reverse(Column(b, col))).line));
      forall i, j | 0 <= i < Size && 0 <= j < Size
        ensures next[i][j] == (if j < col + 1 then down[i][j] else board[i][j])
      {
      }
      WriteDownMoves(board, next, col + 1);
    }
  }

  lemma {:induction false} ReverseRowsMirrors(board: Board, b: Board, row: nat)
    requires IsBoard(board) && IsBoard(b) && row <= Size
    requires forall k :: 0 <= k < Size ==> b[k] == (if k < row then Reverse(board[k]) else board[k])
    ensures ReverseRows(b, row) == Mirror(board)
    decreases Size - row
  {
    if row == Size {
      SameBoard(b, Mirror(board));
    } else {
      ReverseRowsMirrors(board, b[row := Reverse(b[row])], row + 1);
    }
  }

  /** `resetGame`, and the initial `useState` values: an empty board and a
      zero score. */
  function ResetGame(): (r: GameState)
    ensures IsBoard(r.board) && r.score == 0
    ensures TileCount(r.board) == 0 && |EmptyTiles(r.board)| == Cells
  {
    var board := CreateEmptyBoard();
    EmptyTilesCount(board);
    GameState(board, 0)
  }

  /** The lines of a board as the tiles travel along them for direction `d`:
      index 0 of each line is the edge the tiles move towards. */
  function MotionLines(b: Board, d: Direction): (lines: seq<seq<int>>)
    requires IsBoard(b)
    ensures |lines| == Size
    ensures forall k :: 0 <= k < Size ==> |lines[k]| == Size
  {
    match d
    case Left => b
    case Right => Mirror(b)
    case Up => Transpose(b)
    case Down => Transpose(Flip(b))
  }

  /** Score earned by sliding each of the lines. */
  function GainSum(lines: seq<seq<int>>): int
  {
    if |lines| == 0 then 0 else SlideLine(lines[0]).gain + GainSum(lines[1..])
  }

  // ---------------------------------------------------------------------
  // What a move does

  /** In every direction the move slides each line along the direction of
      travel with the primitive, and the score grows by what the lines earn. */
  lemma SlideAndCombineSlidesLines(board: Board, score: int, direction: string)
    requires IsBoard(board) && DirectionOf(direction).Some?
    ensures var d := DirectionOf(direction).value;
            var r := SlideAndCombine(board, score, direction);
            && (forall k :: 0 <= k < Size ==> MotionLines(r.board, d)[k] == SlideLine(MotionLines(board, d)[k]).line)
            && r.score == score + GainSum(MotionLines(board, d))
  {
    match DirectionOf(direction).value
    case Up => UpSlidesColumns(board, score);
    case Down => DownSlidesColumns(board, score);
    case Left => LeftSlidesRows(board, score);
    case Right => RightSlidesRows(board, score);
  }

  lemma UpSlidesColumns(board: Board, score: int)
    requires IsBoard(board)
    ensures var r := SlideUp(board, score);
            && (forall k :: 0 <= k < Size ==> MotionLines(r.board, Up)[k] == SlideLine(MotionLines(board, Up)[k]).line)
            && r.score == score + GainSum(MotionLines(board, Up))
  {
    var r := SlideUp(board, score);
    var lines := MotionLines(board, Up);
    AddGainsOf(score, seq(Size, col requires 0 <= col < Size => SlideLine(Column(board, col))), lines);
    forall k | 0 <= k < Size
      ensures MotionLines(r.board, Up)[k] == SlideLine(lines[k]).line
    {
      assert lines[k] == Column(board, k);
    }
  }

  lemma DownSlidesColumns(board: Board, score: int)
    requires IsBoard(board)
    ensures var r := SlideDown(board, score);
            && (forall k :: 0 <= k < Size ==> MotionLines(r.board, Down)[k] == SlideLine(MotionLines(board, Down)[k]).line)
            && r.score == score + GainSum(MotionLines(board, Down))
  {
    var r := SlideDown(board, score);
    var lines := MotionLines(board, Down);
    forall k | 0 <= k < Size
      ensures lines[k] == Reverse(Column(board, k))
    {
    }
    AddGainsOf(score, seq(Size, col requires 0 <= col < Size => SlideLine(Reverse(Column(board, col)))), lines);
    forall k | 0 <= k < Size
      ensures MotionLines(r.board, Down)[k] == SlideLine(lines[k]).line
    {
    }
  }

  lemma LeftSlidesRows(board: Board, score: int)
    requires IsBoard(board)
    ensures var r := SlideLeft(board, score);
            && (forall k :: 0 <= k < Size ==> MotionLines(r.board, Left)[k] == SlideLine(MotionLines(board, Left)[k]).line)
            && r.score == score + GainSum(MotionLines(board, Left))
  {
    var lines := MotionLines(board, Left);
    AddGainsOf(score, seq(Size, row requires 0 <= row < Size => SlideLine(board[row])), lines);
  }

  lemma RightSlidesRows(board: Board, score: int)
    requires IsBoard(board)
    ensures var r := SlideRight(board, score);
            && (forall k :: 0 <= k < Size ==> MotionLines(r.board, Right)[k] == SlideLine(MotionLines(board, Right)[k]).line)
            && r.score == score + GainSum(MotionLines(board, Right))
  {
    var r := SlideRight(board, score);
    var lines := MotionLines(board, Right);
    AddGainsOf(score, seq(Size, row requires 0 <= row < Size => SlideLine(Reverse(board[row]))), lines);
    forall k | 0 <= k < Size
      ensures MotionLines(r.board, Right)[k] == SlideLine(lines[k]).line
    {
      var l := SlideLine(lines[k]).line;
      assert lines[k] == Reverse(board[k]);
      assert Reverse(Reverse(l)) == l;
    }
  }

  /** The score a move adds is what its four lines earn. */
  lemma AddGainsOf(score: int, results: seq<LineResult>, lines: seq<seq<int>>)
    requires |results| == Size && |lines| == Size
    requires forall k :: 0 <= k < Size ==> results[k].gain == SlideLine(lines[k]).gain
    ensures AddGains(score, results) == score + GainSum(lines)
  {
    AddGains4(score, results);
    GainSum4(lines);
  }

  lemma AddGains4(score: int, results: seq<LineResult>)
    requires |results| == Size
    ensures AddGains(score, results) == score + results[0].gain + results[1].gain + results[2].gain + results[3].gain
  {
    var g0, g1, g2, g3 := results[0].gain, results[1].gain, results[2].gain, results[3].gain;
    assert results[1..][1..] == results[2..];
    assert results[2..][1..] == results[3..];
    assert results[3..][1..] == [];
    assert AddGains(score + g0 + g1 + g2 + g3, results[3..][1..]) == score + g0 + g1 + g2 + g3;
    assert AddGains(score + g0 + g1 + g2, results[3..]) == score + g0 + g1 + g2 + g3;
    assert AddGains(score + g0 + g1, results[2..]) == score + g0 + g1 + g2 + g3;
    assert AddGains(score + g0, results[1..]) == score + g0 + g1 + g2 + g3;
  }

  // ---------------------------------------------------------------------
  // The four directions are one move seen through reflections

  lemma SameBoard(a: Board, b: Board)
    requires IsBoard(a) && IsBoard(b)
    requires forall k :: 0 <= k < Size ==> a[k] == b[k]
    ensures a == b
  {
  }

  lemma TransposeTwice(b: Board)
    requires IsBoard(b)
    ensures Transpose(Transpose(b)) == b
  {
    forall k | 0 <= k < Size
      ensures Transpose(Transpose(b))[k] == b[k]
    {
    }
  }

  lemma MirrorTwice(b: Board)
    requires IsBoard(b)
    ensures Mirror(Mirror(b)) == b
  {
    forall k | 0 <= k < Size
      ensures Mirror(Mirror(b))[k] == b[k]
    {
    }
  }

  lemma FlipTwice(b: Board)
    requires IsBoard(b)
    ensures Flip(Flip(b)) == b
  {
    forall k | 0 <= k < Size
      ensures Flip(Flip(b))[k] == b[k]
    {
    }
  }

  /** Moving right is moving left on the mirrored board, mirrored back. */
  lemma RightIsMirroredLeft(board: Board, score: int)
    requires IsBoard(board)
    ensures var right := SlideAndCombine(board, score, "right");
            var left := SlideAndCombine(Mirror(board), score, "left");
            right.board == Mirror(left.board) && right.score == left.score
  {
    assert DirectionOf("right") == Some(Right) && DirectionOf("left") == Some(Left);
    SlideRightMirrorsLeft(board, score);
  }

  lemma SlideRightMirrorsLeft(board: Board, score: int)
    requires IsBoard(board)
    ensures var right := SlideRight(board, score);
            var left := SlideLeft(Mirror(board), score);
            right.board == Mirror(left.board) && right.score == left.score
  {
    var right := SlideRight(board, score);
    var left := SlideLeft(Mirror(board), score);
    RightSlidesRows(board, score);
    LeftSlidesRows(Mirror(board), score);
    assert forall k :: 0 <= k < Size ==> Mirror(right.board)[k] == left.board[k];
    SameBoard(Mirror(right.board), left.board);
    MirrorTwice(right.board);
  }

  /** Moving up is moving left on the transposed board, transposed back. */
  lemma UpIsTransposedLeft(board: Board, score: int)
    requires IsBoard(board)
    ensures var up := SlideAndCombine(board, score, "up");
            var left := SlideAndCombine(Transpose(board), score, "left");
            up.board == Transpose(left.board) && up.score == left.score
  {
    assert DirectionOf("up") == Some(Up) && DirectionOf("left") == Some(Left);
    SlideUpTransposesLeft(board, score);
  }

  lemma SlideUpTransposesLeft(board: Board, score: int)
    requires IsBoard(board)
    ensures var up := SlideUp(board, score);
            var left := SlideLeft(Transpose(board), score);
            up.board == Transpose(left.board) && up.score == left.score
  {
    var up := SlideUp(board, score);
    var left := SlideLeft(Transpose(board), score);
    UpSlidesColumns(board, score);
    LeftSlidesRows(Transpose(board), score);
    SameBoard(Transpose(up.board), left.board);
    TransposeTwice(up.board);
  }

  /** Moving down is moving up on the upside-down board, turned back. */
  lemma DownIsFlippedUp(board: Board, score: int)
    requires IsBoard(board)
    ensures var down := SlideAndCombine(board, score, "down");
            var up := SlideAndCombine(Flip(board), score, "up");
            down.board == Flip(up.board) && down.score == up.score
  {
    assert DirectionOf("down") == Some(Down) && DirectionOf("up") == Some(Up);
    SlideDownFlipsUp(board, score);
  }

  lemma SlideDownFlipsUp(board: Board, score: int)
    requires IsBoard(board)
    ensures var down := SlideDown(board, score);
            var up := SlideUp(Flip(board), score);
            down.board == Flip(up.board) && down.score == up.score
  {
    var down := SlideDown(board, score);
    var up := SlideUp(Flip(board), score);
    DownSlidesColumns(board, score);
    UpSlidesColumns(Flip(board), score);
    SameBoard(Transpose(Flip(down.board)), Transpose(up.board));
    TransposeTwice(Flip(down.board));
    TransposeTwice(up.board);
    FlipTwice(down.board);
  }

  // ---------------------------------------------------------------------
  // What a move keeps

  lemma Sum4(s: seq<int>)
    requires |s| == Size
    ensures Sum(s) == s[0] + s[1] + s[2] + s[3]
    ensures Count(s) == Count([s[0]]) + Count([s[1]]) + Count([s[2]]) + Count([s[3]])
  {
    assert s[1..][1..] == s[2..];
    assert s[2..][1..] == s[3..];
    assert s[3..][1..] == [];
    assert Sum(s[3..]) == s[3] + Sum([]);
    assert Count(s[3..]) == Count([s[3]]);
    assert Sum(s[2..]) == s[2] + Sum(s[3..]);
    assert Count(s[2..]) == Count([s[2]]) + Count(s[3..]);
    assert Sum(s[1..]) == s[1] + Sum(s[2..]);
    assert Count(s[1..]) == Count([s[1]]) + Count(s[2..]);
  }

  lemma BoardTotals(b: Board)
    requires IsBoard(b)
    ensures BoardSum(b) == Sum(b[0]) + Sum(b[1]) + Sum(b[2]) + Sum(b[3])
    ensures TileCount(b) == Count(b[0]) + Count(b[1]) + Count(b[2]) + Count(b[3])
  {
    assert b[1..][1..] == b[2..];
    assert b[2..][1..] == b[3..];
    assert b[3..][1..] == [];
    assert BoardSum(b[3..]) == Sum(b[3]) + BoardSum([]);
    assert TileCount(b[3..]) == Count(b[3]) + TileCount([]);
    assert BoardSum(b[2..]) == Sum(b[2]) + BoardSum(b[3..]);
    assert TileCount(b[2..]) == Count(b[2]) + TileCount(b[3..]);
    assert BoardSum(b[1..]) == Sum(b[1]) + BoardSum(b[2..]);
    assert TileCount(b[1..]) == Count(b[1]) + TileCount(b[2..]);
  }

  /** Reading a board along any direction sees the same tiles. */
  lemma MotionLinesKeepTotals(b: Board, d: Direction)
    requires IsBoard(b)
    ensures BoardSum(MotionLines(b, d)) == BoardSum(b)
    ensures TileCount(MotionLines(b, d)) == TileCount(b)
  {
    match d
    case Left =>
    case Right => MirrorKeepsTotals(b);
    case Up => TransposeKeepsTotals(b);
    case Down =>
      FlipKeepsTotals(b);
      TransposeKeepsTotals(Flip(b));
  }

  lemma MirrorKeepsTotals(b: Board)
    requires IsBoard(b)
    ensures BoardSum(Mirror(b)) == BoardSum(b) && TileCount(Mirror(b)) == TileCount(b)
  {
    var m := Mirror(b);
    BoardTotals(b);
    BoardTotals(m);
    forall k | 0 <= k < Size
      ensures Sum(m[k]) == Sum(b[k]) && Count(m[k]) == Count(b[k])
    {
      Sum4(b[k]);
      Sum4(m[k]);
    }
  }

  lemma FlipKeepsTotals(b: Board)
    requires IsBoard(b)
    ensures BoardSum(Flip(b)) == BoardSum(b) && TileCount(Flip(b)) == TileCount(b)
  {
    var m := Flip(b);
    assert m[0] == b[3] && m[1] == b[2] && m[2] == b[1] && m[3] == b[0];
    BoardTotals(b);
    BoardTotals(m);
  }

  lemma TransposeKeepsTotals(b: Board)
    requires IsBoard(b)
    ensures BoardSum(Transpose(b)) == BoardSum(b) && TileCount(Transpose(b)) == TileCount(b)
  {
    var m := Transpose(b);
    BoardTotals(b);
    BoardTotals(m);
    Sum4(b[0]); Sum4(b[1]); Sum4(b[2]); Sum4(b[3]);
    Sum4(m[0]); Sum4(m[1]); Sum4(m[2]); Sum4(m[3]);
  }

  /** A move neither creates nor destroys value, and never adds a tile. */
  lemma MoveConservesTiles(board: Board, score: int, direction: string)
    requires IsBoard(board)
    ensures var r := SlideAndCombine(board, score, direction);
            BoardSum(r.board) == BoardSum(board) && TileCount(r.board) <= TileCount(board)
  {
    if DirectionOf(direction).Some? {
      var d := DirectionOf(direction).value;
      var r := SlideAndCombine(board, score, direction);
      var before := MotionLines(board, d);
      var after := MotionLines(r.board, d);
      SlideAndCombineSlidesLines(board, score, direction);
      MotionLinesKeepTotals(board, d);
      MotionLinesKeepTotals(r.board, d);
      SlidLinesKeepTotals(before, after);
    }
  }

  lemma SlidLinesKeepTotals(before: Board, after: Board)
    requires IsBoard(before) && IsBoard(after)
    requires forall k :: 0 <= k < Size ==> after[k] == SlideLine(before[k]).line
    ensures BoardSum(after) == BoardSum(before) && TileCount(after) <= TileCount(before)
  {
    forall k | 0 <= k < Size
      ensures Sum(after[k]) == Sum(before[k]) && Count(after[k]) <= Count(before[k])
    {
      SlideLinePacks(before[k]);
    }
    BoardTotals(before);
    BoardTotals(after);
  }

  /** After a move every line has its tiles packed at the edge the tiles
      moved towards. */
  lemma MovePacksTiles(board: Board, score: int, direction: string)
    requires IsBoard(board) && DirectionOf(direction).Some?
    ensures var d := DirectionOf(direction).value;
            forall k :: 0 <= k < Size ==> Compacted(MotionLines(SlideAndCombine(board, score, direction).board, d)[k])
  {
    SlideAndCombineSlidesLines(board, score, direction);
    var d := DirectionOf(direction).value;
    forall k | 0 <= k < Size
      ensures Compacted(SlideLine(MotionLines(board, d)[k]).line)
    {
      SlideLinePacks(MotionLines(board, d)[k]);
    }
  }

  predicate NonNegative(b: Board)
    requires IsBoard(b)
  {
    forall i, j :: 0 <= i < Size && 0 <= j < Size ==> b[i][j] >= 0
  }

  lemma {:induction false} GainSumNonNegative(lines: seq<seq<int>>)
    requires forall k, j :: 0 <= k < |lines| && 0 <= j < |lines[k]| ==> lines[k][j] >= 0
    ensures GainSum(lines) >= 0
  {
    if |lines| > 0 {
      SlideLineGain(lines[0]);
      GainSumNonNegative(lines[1..]);
    }
  }

  lemma MotionLinesNonNegative(b: Board, d: Direction)
    requires IsBoard(b) && NonNegative(b)
    ensures forall k, j :: 0 <= k < Size && 0 <= j < Size ==> MotionLines(b, d)[k][j] >= 0
  {
    match d
    case Left =>
    case Right =>
    case Up =>
    case Down =>
      assert NonNegative(Flip(b));
  }

  /** On a board without negative values the score never decreases. */
  lemma MoveScoreNeverDecreases(board: Board, score: int, direction: string)
    requires IsBoard(board) && NonNegative(board)
    ensures SlideAndCombine(board, score, direction).score >= score
  {
    if DirectionOf(direction).Some? {
      var d := DirectionOf(direction).value;
      SlideAndCombineSlidesLines(board, score, direction);
      MotionLinesNonNegative(board, d);
      GainSumNonNegative(MotionLines(board, d));
    }
  }

  /** A row `[2, 2, 0, 0]` moved right becomes `[0, 0, 0, 4]` and earns 4. */
  lemma MoveRightExample(score: int)
    ensures var z := [0, 0, 0, 0];
            SlideAndCombine([[2, 2, 0, 0], z, z, z], score, "right")
            == Outcome([[0, 0, 0, 4], z, z, z], score + 4, false)
  {
    var z: seq<int> := [0, 0, 0, 0];
    var b: Board := [[2, 2, 0, 0], z, z, z];
    var m: Board := [[0, 0, 2, 2], z, z, z];
    var merged: Board := [[4, 0, 0, 0], z, z, z];
    ReverseExamples();
    SameBoard(Mirror(b), m);
    SameBoard(Mirror(merged), [[0, 0, 0, 4], z, z, z]);
    RightIsMirroredLeft(b, score);
    LeftMergeExample(score);
  }

  lemma LeftMergeExample(score: int)
    ensures var z := [0, 0, 0, 0];
            SlideAndCombine([[0, 0, 2, 2], z, z, z], score, "left") == Outcome([[4, 0, 0, 0], z, z, z], score + 4, false)
  {
    assert DirectionOf("left") == Some(Left);
    LeftMerge(score);
  }

  lemma LeftMerge(score: int)
    ensures var z := [0, 0, 0, 0];
            SlideLeft([[0, 0, 2, 2], z, z, z], score) == GameState([[4, 0, 0, 0], z, z, z], score + 4)
  {
    var z: seq<int> := [0, 0, 0, 0];
    var b: Board := [[0, 0, 2, 2], z, z, z];
    ExampleLines();
    SlideLeftOf(b, score, [[4, 0, 0, 0], z, z, z], 4);
  }

  /** Lone tiles slide to the left edge and earn nothing. */
  lemma MoveLeftExample(score: int)
    ensures var z := [0, 0, 0, 0];
            SlideAndCombine([[2, 0, 0, 0], z, z, [0, 0, 0, 2]], score, "left")
            == Outcome([[2, 0, 0, 0], z, z, [2, 0, 0, 0]], score, false)
  {
    var z: seq<int> := [0, 0, 0, 0];
    var b: Board := [[2, 0, 0, 0], z, z, [0, 0, 0, 2]];
    assert DirectionOf("left") == Some(Left);
    LeftExample(score);
  }

  lemma LeftExample(score: int)
    ensures var z := [0, 0, 0, 0];
            SlideLeft([[2, 0, 0, 0], z, z, [0, 0, 0, 2]], score) == GameState([[2, 0, 0, 0], z, z, [2, 0, 0, 0]], score)
  {
    var z: seq<int> := [0, 0, 0, 0];
    var b: Board := [[2, 0, 0, 0], z, z, [0, 0, 0, 2]];
    ExampleLines();
    SlideLeftOf(b, score, [[2, 0, 0, 0], z, z, [2, 0, 0, 0]], 0);
  }

  /** Moving left, given what the primitive does to each row. */
  lemma SlideLeftOf(b: Board, score: int, out: Board, gain: int)
    requires IsBoard(b) && IsBoard(out)
    requires SlideLine(b[0]).line == out[0] && SlideLine(b[1]).line == out[1]
    requires SlideLine(b[2]).line == out[2] && SlideLine(b[3]).line == out[3]
    requires SlideLine(b[0]).gain + SlideLine(b[1]).gain + SlideLine(b[2]).gain + SlideLine(b[3]).gain == gain
    ensures SlideLeft(b, score) == GameState(out, score + gain)
  {
    SlideLeftBoard(b, score, out);
    SlideLeftScore(b, score);
  }

  lemma SlideLeftBoard(b: Board, score: int, out: Board)
    requires IsBoard(b) && IsBoard(out)
    requires SlideLine(b[0]).line == out[0] && SlideLine(b[1]).line == out[1]
    requires SlideLine(b[2]).line == out[2] && SlideLine(b[3]).line == out[3]
    ensures SlideLeft(b, score).board == out
  {
    var m := SlideLeft(b, score).board;
    forall k | 0 <= k < Size
      ensures m[k] == out[k]
    {
      assert m[k] == SlideLine(b[k]).line;
      assert k == 0 || k == 1 || k == 2 || k == 3;
    }
    SameBoard(m, out);
  }

  lemma SlideLeftScore(b: Board, score: int)
    requires IsBoard(b)
    ensures SlideLeft(b, score).score
            == score + SlideLine(b[0]).gain + SlideLine(b[1]).gain + SlideLine(b[2]).gain + SlideLine(b[3]).gain
  {
    LeftSlidesRows(b, score);
    GainSum4(b);
  }

  lemma GainSum4(lines: seq<seq<int>>)
    requires |lines| == Size
    ensures GainSum(lines) == SlideLine(lines[0]).gain + SlideLine(lines[1]).gain
                              + SlideLine(lines[2]).gain + SlideLine(lines[3]).gain
  {
    assert lines[1..][1..] == lines[2..];
    assert lines[2..][1..] == lines[3..];
    assert lines[3..][1..] == [];
    assert GainSum(lines[3..]) == SlideLine(lines[3]).gain + GainSum([]);
    assert GainSum(lines[2..]) == SlideLine(lines[2]).gain + GainSum(lines[3..]);
    assert GainSum(lines[1..]) == SlideLine(lines[1]).gain + GainSum(lines[2..]);
  }

  lemma ReverseExamples()
    ensures Reverse([2, 2, 0, 0]) == [0, 0, 2, 2]
    ensures Reverse([0, 0, 0, 0]) == [0, 0, 0, 0]
    ensures Reverse([4, 0, 0, 0]) == [0, 0, 0, 4]
  {
  }

  lemma ExampleLines()
    ensures SlideLine([0, 0, 2, 2]) == LineResult([4, 0, 0, 0], 4)
    ensures SlideLine([2, 0, 0, 0]) == LineResult([2, 0, 0, 0], 0)
    ensures SlideLine([0, 0, 0, 2]) == LineResult([2, 0, 0, 0], 0)
    ensures SlideLine([0, 0, 0, 0]) == LineResult([0, 0, 0, 0], 0)
  {
    assert Zeros(3) == [0, 0, 0] && Zeros(4) == [0, 0, 0, 0];
    assert NonZero([0, 0, 2, 2]) == [2, 2] && Merged([2, 2]) == [4];
    assert NonZero([2, 0, 0, 0]) == [2] && NonZero([0, 0, 0, 2]) == [2];
    assert NonZero([0, 0, 0, 0]) == [];
  }
}
