# 2048 board engine, modelled in Dafny

This project models the game engine of a 2048 clone, the `GameLogic` class and
`_create_board` in `gamelogic.py`.

The board is a dictionary from points `(x, y)`, with `x` and `y` in `0..3`, to
cell values. `0` is an empty cell. Every other value is a power of two of at
least 2.

A move (left, right, up or down) works on each of the four lines in turn: a row
for left and right, a column for up and down. Each line goes through four steps:

1. Drop its empty cells.
2. Group what is left into maximal runs of equal values.
3. Turn each run of length L and value V into `L / 2` cells of `2V` and
   `L % 2` cells of `V`.
4. Pad it back to four cells with empty cells on the side away from the move,
   and write it back into the board cell by cell.

If the move changed the board, a 2 or a 4 is put into a random empty cell. Then
the game-over check runs. It raises `GameOverError` when no cell is empty and no
cell has an equal neighbour on the board.

The board can be read as a list of rows (`"LIST"`) or as the dictionary itself
(`"DICT"`). Any other format raises `InvalidInputError`. Quitting always raises
`GameOverError`.

The model has three modules:

- `Lines` (`Lines.dfy`) has the line transform.
  - The pure functions `Compact`, `Runs`, `MergeLeft`/`MergeRight`,
    `ShiftLineLeft` and `ShiftLineRight` are the specification.
  - Each loop of the source becomes a method proved against them: the zero
    filter, the `groupby`, the per-run `append`/`insert(0, …)` loops and the
    padding loops.
  - Lemmas prove what the transform promises: length, sum, tile count, tiles
    staying powers of two, right mirroring left, and the worked examples.
- `Boards` (`Boards.dfy`) has the board as a value: a `Grid` of rows indexed
  `[y][x]`, which is the shape of the list view. It defines:
  - the four moves;
  - the game-over predicate and an independent line-by-line statement of it
    (`Blocked`);
  - what a random insertion may do;
  - a tile count;
  - the lemmas relating these.
- `Game` (`Game.dfy`) has the class `GameLogic`.
  - Its field `board: map<(int, int), int>` is the source's dictionary. The
    methods reassign it one entry at a time, as the source does.
  - Every method is specified against `Rows(board)`, the dictionary read as a
    `Grid`.
  - The two exceptions become values: `Outcome` for operations that may raise
    `GameOverError`, and `Result` for `get_board`.

Each call of `random.choice(xs)` becomes a `nat` parameter `i`, and the chosen
element is `xs[i % |xs|]`. So `InsertRandom`, the shifts and the constructor take
their random choices as arguments. Their contracts hold for every choice: a 2 or
a 4 goes into some empty cell.

A move that changes the board need not gain a net tile. Merges remove tiles
(`[2,2,0,0]` becomes `[4,0,0,0]`), and the insertion that follows adds one.
`OccupiedNeverIncreases` and `InsertionAddsOne` state the two halves. A move
that changes the board always leaves an empty cell (`ChangedMoveHasEmpty`), so
each shift states that the final count is the moved board's count plus one.

## Model

| member | source | states |
|---|---|---|
| Lines.CompactLine | gamelogic.py:141 | the filtered row is the line's non-empty cells in their order (`Compact`) |
| Lines.GroupRuns | gamelogic.py:142 | the runs concatenate back to the row, every run is non-empty, and neighbouring runs hold different values (maximal runs, as `groupby` yields) |
| Lines.RunsGroup | gamelogic.py:142 | `Runs(s)` is a grouping of `s` into maximal runs of equal values, for every `s` |
| Lines.AppendRun | gamelogic.py:145-149 | appending a run's `L / 2` doubles and then its `L % 2` originals extends the line by exactly `LeftBlock(r)` |
| Lines.PrependRun | gamelogic.py:163-167 | inserting the doubles and then the leftover at position 0 puts exactly `RightBlock(r)` (leftover first, then doubles) in front of the line |
| Lines.MergeRunsLeft | gamelogic.py:143-149 | visiting the runs in order and appending each one's cells gives `MergeLeft(runs)` |
| Lines.MergeRunsRight | gamelogic.py:161-167 | visiting the runs in reverse (`listPairs[::-1]`) and prepending each one's cells gives `MergeRight(runs)` |
| Lines.PadEnd | gamelogic.py:150-151 | appends `4 - len` empty cells, and none when that count is not positive (Python `range`) |
| Lines.PadFront | gamelogic.py:168-169 | inserts `4 - len` empty cells at the front |
| Lines.ComputeLeft | gamelogic.py:141-151 | the new row built by the loops equals `ShiftLineLeft(line)` and has exactly four cells |
| Lines.ComputeRight | gamelogic.py:159-169 | the new row built by the loops equals `ShiftLineRight(line)` and has exactly four cells |
| Lines.ShiftLineLeft | gamelogic.py:141-151 | a line of at most four cells moves to a line of exactly four cells |
| Lines.ShiftLineRight | gamelogic.py:159-169 | a line of at most four cells moves to a line of exactly four cells |
| Lines.MergedFits | gamelogic.py:150 | merging never lengthens the compacted line, so the padding count `4 - len(newRow)` is never negative; both merge orders give the same length |
| Lines.RightMirrorsLeft | gamelogic.py:156-172 | moving right is reversing, moving left and reversing back, for every line |
| Lines.SumPreserved | gamelogic.py:144-149 | a move in either direction keeps the sum of the line's values |
| Lines.OccupiedNeverIncreases | gamelogic.py:144-149 | a move in either direction never increases the number of non-empty cells |
| Lines.TilesPreserved | gamelogic.py:144-149 | if every cell is empty or a power of two of at least 2, so is every cell after a move in either direction |
| Lines.BlockedLineStays | gamelogic.py:141-151 | a full line with no two equal neighbours is left unchanged by a move in either direction |
| Lines.ChangedLineHasEmpty | gamelogic.py:141-151 | a move that changes a four-cell line leaves its far cell empty (the last cell for a move left, the first for a move right), because only compaction or merging can change it and both leave padding |
| Lines.FullRunExample | gamelogic.py:141-169 | `[2,2,2,2]` moves left to `[4,4,0,0]` and right to `[0,0,4,4]` |
| Lines.OddRunExample | gamelogic.py:141-169 | `[2,2,2,0]` moves left to `[4,2,0,0]` and right to `[0,0,2,4]` |
| Lines.GapExample | gamelogic.py:141-151 | `[2,0,2,2]` moves left to `[4,2,0,0]`: the gap is removed before grouping |
| Boards.MovesKeepTiles | gamelogic.py:76-132 | each of the four moves keeps every cell of the board empty or a power of two of at least 2 |
| Boards.GameOverIsBlocked | gamelogic.py:218-244 | the game-over predicate (no empty cell, no cell with an equal on-board neighbour among its four) holds exactly when every row and every column is full with no two equal neighbours |
| Boards.StuckWhenOver | gamelogic.py:218-244 | on a board that is over, none of the four moves changes anything |
| Boards.ChangedMoveHasEmpty | gamelogic.py:76-132 | after any of the four moves that changes the board, the board has an empty cell, so the insertion that follows always places a tile |
| Boards.InsertionAddsOne | gamelogic.py:210-216 | an insertion on a board with an empty cell adds exactly one tile; on a full board it changes nothing; it keeps the tile invariant and the "only 0, 2 and 4" property |
| Boards.FewerTilesHasEmpty | gamelogic.py:213-214 | a board with fewer than 16 tiles has an empty cell |
| Boards.InitialBoard | gamelogic.py:46-52 | two insertions on the empty board give exactly two tiles, each 2 or 4 |
| Game.CreateBoard | gamelogic.py:247-254 | the new dictionary has exactly the 16 points of the board as keys, each mapped to 0 |
| Game.EmptyBoardRows | gamelogic.py:247-254 | such a dictionary, read as rows, is the empty grid |
| Game.RowsCells | gamelogic.py:63-70 | in the list view, cell `x` of row `y` is `board[(x, y)]` |
| Game.GameLogic.FindMatch | gamelogic.py:226-241 | the column-major scan finds a match exactly when some cell has an equal neighbour on the board |
| Game.GameLogic.constructor | gamelogic.py:46-56 | a new game satisfies the board invariant and has exactly two tiles, each 2 or 4 |
| Game.GameLogic.GetBoard | gamelogic.py:59-74 | `"LIST"` gives the rows, `"DICT"` gives the dictionary, any other format gives `InvalidInputError` |
| Game.GameLogic.ReadRow | gamelogic.py:80-84 | the cells read for row `y` are row `y` of the board |
| Game.GameLogic.ReadColumn | gamelogic.py:110-113 | the cells read for column `x` are column `x` of the board |
| Game.GameLogic.QuitGame | gamelogic.py:134-136 | always raises `GameOverError`, and changes nothing |
| Game.GameLogic.EmptyCells | gamelogic.py:213 | lists exactly the points holding 0, in the dictionary's order (x outer, y inner) |
| Game.GameLogic.InsertRandom | gamelogic.py:210-216 | with an empty cell, exactly one empty cell gets a 2 or a 4 and nothing else changes; without one, the board is unchanged |
| Game.GameLogic.WriteRow | gamelogic.py:152-154 | writing the new row changes row `y` to it and no other cell |
| Game.GameLogic.WriteColumn | gamelogic.py:188-190 | writing the new column changes column `x` to it and no other cell |
| Game.GameLogic.ShiftRowLeft | gamelogic.py:138-154 | row `y` becomes `ShiftLineLeft(row)` and no other cell changes |
| Game.GameLogic.ShiftRowRight | gamelogic.py:156-172 | row `y` becomes `ShiftLineRight(row)` and no other cell changes |
| Game.GameLogic.ShiftColumnUp | gamelogic.py:174-190 | column `x` becomes `ShiftLineLeft(col)` and no other cell changes |
| Game.GameLogic.ShiftColumnDown | gamelogic.py:192-208 | column `x` becomes `ShiftLineRight(col)` and no other cell changes |
| Game.GameLogic.MoveRowsLeft | gamelogic.py:80-85 | after the per-row loop the board is `MoveLeft` of the old board |
| Game.GameLogic.MoveRowsRight | gamelogic.py:94-99 | after the per-row loop the board is `MoveRight` of the old board |
| Game.GameLogic.MoveColumnsUp | gamelogic.py:108-114 | after the per-column loop the board is `MoveUp` of the old board |
| Game.GameLogic.MoveColumnsDown | gamelogic.py:123-129 | after the per-column loop the board is `MoveDown` of the old board |
| Game.GameLogic.CheckNeighbours | gamelogic.py:228-241 | reports a match exactly when one of the four neighbours lies on the board and holds the cell's value |
| Game.GameLogic.GameOverCheck | gamelogic.py:218-244 | raises `GameOverError` exactly when the game is over, and returns normally otherwise |
| Game.GameLogic.ShiftLeft | gamelogic.py:76-88 | keeps the board invariant. If moving left changes nothing, the board stays as it was; otherwise it is the moved board plus one random insertion, which always places a tile, so it holds one tile more than the moved board. The outcome is the game-over check of the result. On a board that is already over, nothing changes and `GameOverError` is raised |
| Game.GameLogic.ShiftRight | gamelogic.py:90-102 | as `ShiftLeft`, for the move to the right |
| Game.GameLogic.ShiftUp | gamelogic.py:104-117 | as `ShiftLeft`, for the move up |
| Game.GameLogic.ShiftDown | gamelogic.py:119-132 | as `ShiftLeft`, for the move down |

## Left out

- The random distribution is not modelled. `random.choice` picks uniformly; the
  model takes each pick as an index parameter, and the contracts hold for every
  index.
- Game.GameLogic.InsertRandom: states that some empty cell receives a 2 or a 4,
  not which one the index selects, because in the game that choice is random.
- `self._shifted_points` is left out. It is written at lines 56, 78, 92, 106 and
  121 but never read.
- Aliasing of the `"DICT"` view is left out. Line 72 returns the internal
  dictionary itself, so a caller could change the board through it. A Dafny
  `map` is a value, so `GetBoard` returns the dictionary's current contents.
- Exceptions are not raised. `GameOverError` and `InvalidInputError` are
  returned as values (`Outcome.Raised`, `Result.Failure`).
- The pygame front end in `game_ui.py` is not part of this model: rendering,
  events, timing and image loading.
- The console driver in `game_logic_testing.py` is not part of this model: it
  is input/output and a table from commands to methods.
