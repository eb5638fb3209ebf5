# 2048 core in Dafny

This project models the game logic of a small React Native 2048 app.

- **`Game`, in index.tsx.** The directional move `slideAndCombine` and its line primitives `slideRow` and `slideColumn`. Also the spawner `generateRandomTile`, `resetGame` and `createEmptyBoard`.
- **`GameBoard`, in GameBoard.tsx.** `createNewBoard`, `placeRandomTile` and the unfinished `move`.

Boards are 4 x 4 grids of integers, with 0 for an empty cell. The component state is passed in and returned explicitly. The two `Math.random()` draws of a spawn are parameters:

- `k` is the index into the row-major list of empty cells;
- `belowNineTenths` is the outcome of `Math.random() < 0.9`, giving 2 when true and 4 when false.

Modules:

- `Lines` (lines.dfy) is the single-line primitive. `SlideLine` is its reference definition: drop the empty cells, merge adjacent equal tiles in one left-to-right pass where a merged tile is never merged again, drop the emptied cells and pad with zeros. `SlideRow` and `SlideColumn` follow the source's index-skipping loop and are proved to compute `SlideLine`.
- `Grid` (grid.dfy) is the board: its shape, the reflections, the row-major empty-cell scan and the footprint of a spawned tile.
- `Game` (game.dfy) is `slideAndCombine`, `generateRandomTile`, `resetGame`, the `if (moved)` commit, and the rows the move writes through its shallow copy.
- `GameBoard` (gameboard.dfy) is the second component.

Two facts about the code, both written out as it is:

- **`moved` is never set.** `slideAndCombine` declares `moved = false` and no branch ever sets it. So `setBoard`, `setScore` and `generateRandomTile` after the switch never run, and a swipe never changes the score or spawns a tile (`Game.Step`).
- **The swipe still changes the stored board.** `[...board]` copies only the outer array. The `up` and `down` cases assign `row[col]` on rows the component's state still holds, and `right` calls `reverse()` on them. After a swipe up or down, the stored board therefore holds the moved tiles without the score. After a swipe right, every stored row is reversed (`Game.SharedRowsAfter`, `Game.StepBoard`).

A description of the game might say a move counts when it changes the board, and might include win/lose tests. The code has neither, and the model follows the code.

## Model

| member | source | states |
|---|---|---|
| Lines.NonZero | index.tsx:110 | the filtered line has no empty cell, keeps the tile total, and its length is the tile count of the input |
| Lines.NonZeroKeepsOrder | index.tsx:110 | `filter` keeps the tiles in their order: an empty cell anywhere is dropped and a tile anywhere stays between what is kept of its left and of its right |
| Lines.Merged | index.tsx:113-120 | the merge pass never lengthens a line, keeps the tile total and never creates an empty cell |
| Lines.SlideLine | index.tsx:109-126 | a line of width at most 4 comes back with width 4, and no line comes back narrower than 4 |
| Lines.SlideLinePacks | index.tsx:110-123 | the slid line has its tiles packed at the head, keeps the total value, and holds one tile fewer for every merge |
| Lines.SlideRow | index.tsx:109-126 | the index-skipping loop with `i++` after a merge computes exactly the reference slide, line and score, and a row of width 4 comes back with width 4 |
| Lines.SlideColumn | index.tsx:129-146 | the column version of the loop computes the same reference slide |
| Lines.PadLoop | index.tsx:123 | `while (length < 4) push(0)` appends zeros up to width 4 and leaves a line of 4 or more alone |
| Lines.MergedSingleMerges | index.tsx:113-120 | every tile takes part in at most one merge: the result is the line with some disjoint adjacent equal pairs doubled, and the created values are exactly those doubled pairs, in order |
| Lines.MergedMaximal | index.tsx:113-120 | no single-merge rearrangement of the line is shorter than the greedy left-first pass, or makes more merges |
| Lines.SlideLineKeepsTiles | index.tsx:110-123 | the tiles of the slid line are what the merge pass leaves of the input's tiles, and only empty cells follow them |
| Lines.SlideLineMerges | index.tsx:109-126 | the slid line's tiles are the input's tiles in order with some disjoint adjacent equal pairs doubled, and the score earned is the sum of exactly the doubled values |
| Lines.CreatedAreDoubles | index.tsx:114-116 | every score contribution is twice a tile that sat next to an equal tile |
| Lines.MergedUnchangedIff | index.tsx:113-120 | the pass earns nothing, and leaves the line as it was, exactly when no two adjacent tiles are equal |
| Lines.SlideLineUnchangedIff | index.tsx:109-126 | a full-width line comes back unchanged with no score iff its tiles are already packed and no two adjacent tiles are equal |
| Lines.SlideLineGain | index.tsx:111-116 | with non-negative tiles, the score gained is never negative, and is zero iff no merge happened |
| Lines.SingleMergeExamples | index.tsx:113-119 | [2,2,2,2] becomes [4,4,0,0] for 8, and [2,2,2,0] becomes [4,2,0,0] for 4 |
| Grid.CreateEmptyBoard | index.tsx:6-13 | a 4 x 4 board whose every cell is 0, holding no tile |
| Grid.EmptyTilesSpec | index.tsx:31-36 | the scanned list holds exactly the empty cells, in strictly increasing row-major order, and its length plus the tile count is 16 |
| Grid.Spawn | index.tsx:40-42 | the chosen empty cell gets the drawn value, every other cell is unchanged, and the board gains one tile and loses one empty cell |
| Game.DirectionOf | index.tsx:58-98 | a direction is recognised iff it is one of "up", "down", "left", "right"; every other string falls to `default` |
| Game.SlideAndCombine | index.tsx:53-99 | the result is a board, `moved` is false after the switch, and an unrecognised direction leaves board and score untouched |
| Game.SlideAndCombineSlidesLines | index.tsx:58-96 | in each direction, every line read along the direction of travel is the reference slide of the input line, and the score grows by the sum of the lines' gains |
| Game.RightIsMirroredLeft | index.tsx:89-96 | moving right equals mirroring, moving left and mirroring back, with the same score |
| Game.UpIsTransposedLeft | index.tsx:59-69 | moving up equals transposing, moving left and transposing back, with the same score |
| Game.DownIsFlippedUp | index.tsx:70-81 | moving down equals flipping top to bottom, moving up and flipping back, with the same score |
| Game.MoveConservesTiles | index.tsx:58-96 | a move keeps the total tile value of the board and never adds a tile |
| Game.MovePacksTiles | index.tsx:58-96 | after a move every line has its tiles packed against the edge they moved towards |
| Game.MoveScoreNeverDecreases | index.tsx:56-94 | on a board without negative cells the new score is at least the old score |
| Game.MoveRightExample | index.tsx:89-96 | [2,2,0,0] on the top row moved right becomes [0,0,0,4], earns 4, and `moved` stays false |
| Game.MoveLeftExample | index.tsx:82-88 | lone tiles slide to the left edge and earn nothing |
| Game.GenerateRandomTile | index.tsx:30-45 | it returns early exactly on a full board; otherwise the k-th empty cell gets a 2 or a 4, nothing else changes, and the board gains one tile |
| Game.Commit | index.tsx:101-105 | without `moved` the state is left as it is; with it, the new score is stored |
| Game.Step | index.tsx:53-106 | a swipe never changes the stored score; a swipe left or with an unknown name leaves the state as it was |
| Game.StepBoard | index.tsx:54-96 | through the shared rows, a swipe up or down leaves the stored board moved, and a swipe right leaves every stored row reversed |
| Game.SharedRowsUp | index.tsx:60-68 | writing each slid column into the shared rows, one column after another, gives exactly the board the 'up' case builds |
| Game.SharedRowsDown | index.tsx:71-80 | the same holds for the 'down' case with `movedColumn[3 - i]` |
| Game.SharedRowsRight | index.tsx:90-95 | reversing each shared row in place leaves the stored board mirrored left to right |
| Game.ResetGame | index.tsx:47-50 | the state becomes an empty 4 x 4 board with 16 empty cells and score 0 |
| GameBoard.PlaceRandomTile | GameBoard.tsx:46-57 | the k-th empty cell in row-major order gets a 2 or a 4, every other cell is unchanged, and the board gains one tile |
| GameBoard.PlaceRandomTileNeedsEmptyCell | GameBoard.tsx:47-55 | the list the draw indexes is non-empty exactly when the board is not full |
| GameBoard.PlaceKeepsValues | GameBoard.tsx:55-56 | a placement on a board of 0, 2 and 4 keeps it so, and uses up one empty cell |
| GameBoard.CreateNewBoard | GameBoard.tsx:39-44 | the new board is 4 x 4, holds exactly two tiles, and every cell is 0, 2 or 4 |
| GameBoard.Move | GameBoard.tsx:59-73 | every direction keeps the board and places one new tile: one more tile, everything else unchanged |
| GameBoard.MoveIgnoresDirection | GameBoard.tsx:62-70 | the result does not depend on the direction |

## Left out

- Rendering, styles, the "Generate Tile" and "Reset Game" buttons, swipe and keyboard plumbing (`handleSwipe`, the `keydown` listener) and app.tsx: no game logic.
- The high score in `localStorage` (index.tsx:17-26): I/O.
- `Math.random()` is replaced by the parameters `k` and `belowNineTenths`. The uniform choice of cell and the 9:1 odds are not modelled.
- React scheduling: within one handler the model takes the last `setBoard` as the one that lands, and no re-render is modelled.
- JavaScript numbers are doubles. Tiles and scores are modelled as unbounded integers, so precision loss beyond 2^53 is not modelled.
- `generateRandomTile` writes into rows shared with the stored board before `setBoard` stores the same values. `placeRandomTile` writes into the array it is given: in `createNewBoard` a fresh board (GameBoard.tsx:40-43), and in `move` the array `setBoard` has just stored (GameBoard.tsx:71-72). Either way the stored board ends up holding the new tile, so each is modelled as returning the new board.
- GameBoard.PlaceRandomTile: on a full board the source destructures `undefined` and throws a TypeError. The model requires an empty cell instead of modelling the exception. `createNewBoard` always has one.
- GameBoard.Move: calls `placeRandomTile` on the unchanged board, so on a full board it throws the same TypeError. The model requires an empty cell instead.
- Game.Commit: the branch only runs when `moved` is true, which never happens. Its ensures state only the stored score for that branch.
- Win and lose detection: neither component has any.
- Lines.NonZero: its own contract leaves out the order of the tiles; Lines.NonZeroKeepsOrder states it.
- Lines.CreatedAreDoubles: says only that each created value is twice some adjacent equal pair of the line, not which pairs the pass merges. Lines.MergedSingleMerges and Lines.SlideLineMerges tie the created values, and so the score, to the pairs the pass actually doubles.
