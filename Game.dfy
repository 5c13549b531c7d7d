/** The game engine object: the board as a dictionary from points (x, y) to
    cell values, and the operations a front end calls on it. */
module Game {
  import opened Lines
  import opened Boards

  /** A point (x, y): column x, row y. */
  type Point = (int, int)

  /** The two exceptions the engine raises. */
  datatype Error = GameOverError | InvalidInputError

  /** How an operation that may raise ends: normally, or by raising. */
  datatype Outcome = Returned | Raised(error: Error)

  datatype Result<T> = Success(value: T) | Failure(error: Error)

  /** The two formats of the board's public view. */
  datatype BoardView = ListView(rows: seq<seq<int>>) | DictView(cells: map<Point, int>)

  /** The dictionary holds exactly the points of the board. */
  ghost predicate FullKeys(m: map<Point, int>)
  {
    forall p :: p in m <==> OnBoard(p)
  }

  /** The dictionary as rows: row y, cell x holds the value at (x, y). */
  function Rows(m: map<Point, int>): (g: Grid)
    requires FullKeys(m)
    ensures Shaped(g)
  {
    seq(Size, y requires 0 <= y < Size =>
      seq(Size, x requires 0 <= x < Size => m[(x, y)]))
  }

  /** Cell x of row y is the value the dictionary holds at (x, y). */
  lemma RowsCells(m: map<Point, int>)
    requires FullKeys(m)
    ensures forall x, y :: 0 <= x < Size && 0 <= y < Size ==> Rows(m)[y][x] == m[(x, y)]
  {
  }

  /** Point p comes before point q in the order the board's points were
      inserted: x outer, y inner. */
  predicate Precedes(p: Point, q: Point)
  {
    p.0 < q.0 || (p.0 == q.0 && p.1 < q.1)
  }

  /** Builds the empty board, column by column. */
  method CreateBoard() returns (board: map<Point, int>)
    ensures FullKeys(board)
    ensures forall p :: p in board ==> board[p] == Empty
  {
    board := map[];
    for x := 0 to Size
      invariant forall p :: p in board <==> OnBoard(p) && Precedes(p, (x, 0))
      invariant forall p :: p in board ==> board[p] == Empty
    {
      for y := 0 to Size
        invariant forall p :: p in board <==> OnBoard(p) && Precedes(p, (x, y))
        invariant forall p :: p in board ==> board[p] == Empty
      {
        board := board[(x, y) := Empty];
      }
    }
  }

  /** A dictionary that maps every point of the board to Empty is the
      empty grid. */
  lemma EmptyBoardRows(m: map<Point, int>)
    requires FullKeys(m)
    requires forall p :: p in m ==> m[p] == Empty
    ensures Rows(m) == EmptyGrid()
  {
    RowsCells(m);
    forall y | 0 <= y < Size
      ensures Rows(m)[y] == EmptyGrid()[y]
    {
      assert forall x :: 0 <= x < Size ==> Rows(m)[y][x] == m[(x, y)];
    }
  }

  /** Setting one point of the dictionary sets that cell of its rows. */
  lemma RowsUpdate(m: map<Point, int>, p: Point, v: int)
    requires FullKeys(m) && OnBoard(p)
    ensures FullKeys(m[p := v])
    ensures Rows(m[p := v]) == Place(Rows(m), p.0, p.1, v)
  {
    RowsCells(m);
    RowsCells(m[p := v]);
    var g, h := Rows(m), Rows(m[p := v]);
    forall y | 0 <= y < Size
      ensures h[y] == Place(g, p.0, p.1, v)[y]
    {
      assert forall x :: 0 <= x < Size ==> h[y][x] == Place(g, p.0, p.1, v)[y][x];
    }
  }

  /** After writing line into row y of m0, point by point, the rows are
      the old rows with row y replaced. */
  lemma RowWritten(m0: map<Point, int>, m: map<Point, int>, y: int, line: seq<int>)
    requires FullKeys(m0) && FullKeys(m) && 0 <= y < Size && |line| == Size
    requires forall p :: p in m ==> m[p] == if p.1 == y then line[p.0] else m0[p]
    ensures Rows(m) == Rows(m0)[y := line]
  {
    RowsCells(m0);
    RowsCells(m);
    var g, h := Rows(m0), Rows(m);
    forall j | 0 <= j < Size
      ensures h[j] == g[y := line][j]
    {
      assert forall i :: 0 <= i < Size ==> h[j][i] == m[(i, j)];
    }
  }

  /** After writing line into column x of m0, point by point, the rows are
      the old rows with column x replaced. */
  lemma ColumnWritten(m0: map<Point, int>, m: map<Point, int>, x: int, line: seq<int>)
    requires FullKeys(m0) && FullKeys(m) && 0 <= x < Size && |line| == Size
    requires forall p :: p in m ==> m[p] == if p.0 == x then line[p.1] else m0[p]
    ensures Rows(m) == SetColumn(Rows(m0), x, line)
  {
    RowsCells(m0);
    RowsCells(m);
    var g, h := SetColumn(Rows(m0), x, line), Rows(m);
    forall j | 0 <= j < Size
      ensures h[j] == g[j]
    {
      assert forall i :: 0 <= i < Size ==> h[j][i] == m[(i, j)];
    }
  }

  /** No cell (x, b) with b < y has an equal neighbour: the part of column
      x that the game-over scan has passed. */
  ghost predicate CellsClear(g: Grid, x: int, y: int)
    requires Shaped(g) && 0 <= x < Size && 0 <= y <= Size
  {
    y == 0 || (CellsClear(g, x, y - 1) && !MatchesNeighbour(g, x, y - 1))
  }

  /** No cell of the columns before x has an equal neighbour. */
  ghost predicate ColumnsClear(g: Grid, x: int)
    requires Shaped(g) && 0 <= x <= Size
  {
    x == 0 || (ColumnsClear(g, x - 1) && CellsClear(g, x - 1, Size))
  }

  lemma {:induction false} CellsClearAll(g: Grid, x: int, y: int)
    requires Shaped(g) && 0 <= x < Size && 0 <= y <= Size && CellsClear(g, x, y)
    ensures forall b :: 0 <= b < y ==> !MatchesNeighbour(g, x, b)
  {
    if y > 0 {
      CellsClearAll(g, x, y - 1);
    }
  }

  lemma {:induction false} ColumnsClearAll(g: Grid, x: int)
    requires Shaped(g) && 0 <= x <= Size && ColumnsClear(g, x)
    ensures forall a, b :: 0 <= a < x && 0 <= b < Size ==> !MatchesNeighbour(g, a, b)
  {
    if x > 0 {
      ColumnsClearAll(g, x - 1);
      CellsClearAll(g, x - 1, Size);
    }
  }

  /** A scan that passed every column found no cell with an equal
      neighbour. */
  lemma ScanClear(g: Grid)
    requires Shaped(g) && ColumnsClear(g, Size)
    ensures !exists x, y :: 0 <= x < Size && 0 <= y < Size && MatchesNeighbour(g, x, y)
  {
    ColumnsClearAll(g, Size);
  }

  class GameLogic {
    var board: map<Point, int>

    /** The board holds exactly the 16 points, and each holds Empty or a
        power of two of at least 2. */
    ghost predicate Valid()
      reads this
    {
      FullKeys(board) && GridTiles(Rows(board))
    }

    /** A new game: an empty board, then two random insertions. The two
        random choices of each insertion are passed in as indices. */
    constructor(numIndex1: nat, pointIndex1: nat, numIndex2: nat, pointIndex2: nat)
      ensures Valid()
      ensures TileCount(Rows(board)) == 2 && SmallTiles(Rows(board))
    {
      var empty := CreateBoard();
      board := empty;
      new;
      EmptyBoardRows(board);
      InsertRandom(numIndex1, pointIndex1);
      ghost var g1 := Rows(board);
      InsertRandom(numIndex2, pointIndex2);
      InitialBoard(g1, Rows(board));
    }

    /** The board in the requested format; any other format is an error. */
    method GetBoard(format: string) returns (r: Result<BoardView>)
      requires FullKeys(board)
      ensures format != "LIST" && format != "DICT" ==> r == Failure(InvalidInputError)
      ensures format == "LIST" ==> r == Success(ListView(Rows(board)))
      ensures format == "DICT" ==> r == Success(DictView(board))
    {
      if format != "LIST" && format != "DICT" {
        return Failure(InvalidInputError);
      }
      if format == "LIST" {
        var rows := [];
        for y := 0 to Size
          invariant |rows| == y
          invariant forall j :: 0 <= j < y ==> rows[j] == Rows(board)[j]
        {
          var row := ReadRow(y);
          rows := rows + [row];
        }
        assert rows == Rows(board);
        r := Success(ListView(rows));
      } else {
        r := Success(DictView(board));
      }
    }

    /** Row y, read left to right. */
    method ReadRow(y: int) returns (row: seq<int>)
      requires FullKeys(board) && 0 <= y < Size
      ensures row == Rows(board)[y]
    {
      RowsCells(board);
      row := [];
      for x := 0 to Size
        invariant |row| == x
        invariant forall i :: 0 <= i < x ==> row[i] == board[(i, y)]
      {
        row := row + [board[(x, y)]];
      }
    }

    /** Column x, read top to bottom. */
    method ReadColumn(x: int) returns (col: seq<int>)
      requires FullKeys(board) && 0 <= x < Size
      ensures col == Column(Rows(board), x)
    {
      RowsCells(board);
      col := [];
      for y := 0 to Size
        invariant |col| == y
        invariant forall i :: 0 <= i < y ==> col[i] == board[(x, i)]
      {
        col := col + [board[(x, y)]];
      }
    }

    /** Ending the game always raises GameOverError. */
    method QuitGame() returns (outcome: Outcome)
      ensures outcome == Raised(GameOverError)
    {
      outcome := Raised(GameOverError);
    }

    /** The empty points, in the dictionary's order (x outer, y inner). */
    method EmptyCells() returns (cells: seq<Point>)
      requires FullKeys(board)
      ensures forall p :: p in cells <==> p in board && board[p] == Empty
      ensures forall i, j :: 0 <= i < j < |cells| ==> Precedes(cells[i], cells[j])
    {
      cells := [];
      for x := 0 to Size
        invariant forall p :: p in cells <==> p in board && board[p] == Empty && Precedes(p, (x, 0))
        invariant forall i :: 0 <= i < |cells| ==> Precedes(cells[i], (x, 0))
        invariant forall i, j :: 0 <= i < j < |cells| ==> Precedes(cells[i], cells[j])
      {
        for y := 0 to Size
          invariant forall p :: p in cells <==> p in board && board[p] == Empty && Precedes(p, (x, y))
          invariant forall i :: 0 <= i < |cells| ==> Precedes(cells[i], (x, y))
          invariant forall i, j :: 0 <= i < j < |cells| ==> Precedes(cells[i], cells[j])
        {
          if board[(x, y)] == Empty {
            cells := cells + [(x, y)];
          }
        }
      }
    }

    /** Puts a 2 or a 4 into an empty cell, if there is one. The value is
        element numIndex (modulo 2) of [2, 4], the cell is element
        pointIndex (modulo their number) of the empty cells. */
    method InsertRandom(numIndex: nat, pointIndex: nat)
      requires FullKeys(board)
      modifies this
      ensures FullKeys(board)
      ensures RandomInsertion(old(Rows(board)), Rows(board))
    {
      RowsCells(board);
      var choices := [2, 4];
      var newNum := choices[numIndex % |choices|];
      var empty := EmptyCells();
      if |empty| > 0 {
        var point := empty[pointIndex % |empty|];
        assert point in empty;
        RowsUpdate(board, point, newNum);
        board := board[point := newNum];
      } else {
        forall x, y | 0 <= x < Size && 0 <= y < Size
          ensures Rows(board)[y][x] != Empty
        {
          assert (x, y) !in empty;
        }
      }
    }

    /** Writes line into row y, cell by cell from the left. */
    method WriteRow(y: int, line: seq<int>)
      requires FullKeys(board) && 0 <= y < Size && |line| == Size
      modifies this
      ensures FullKeys(board)
      ensures Rows(board) == old(Rows(board))[y := line]
    {
      ghost var m0 := board;
      for x := 0 to |line|
        invariant FullKeys(board)
        invariant forall p :: p in board ==>
          board[p] == if p.1 == y && p.0 < x then line[p.0] else m0[p]
      {
        board := board[(x, y) := line[x]];
      }
      RowWritten(m0, board, y, line);
    }

    /** Writes line into column x, cell by cell from the top. */
    method WriteColumn(x: int, line: seq<int>)
      requires FullKeys(board) && 0 <= x < Size && |line| == Size
      modifies this
      ensures FullKeys(board)
      ensures Rows(board) == SetColumn(old(Rows(board)), x, line)
    {
      ghost var m0 := board;
      for y := 0 to |line|
        invariant FullKeys(board)
        invariant forall p :: p in board ==>
          board[p] == if p.0 == x && p.1 < y then line[p.1] else m0[p]
      {
        board := board[(x, y) := line[y]];
      }
      ColumnWritten(m0, board, x, line);
    }

    /** Moves the tiles of row y, whose cells are row, to the left. */
    method ShiftRowLeft(y: int, row: seq<int>)
      requires FullKeys(board) && 0 <= y < Size && |row| == Size
      modifies this
      ensures FullKeys(board)
      ensures Rows(board) == old(Rows(board))[y := ShiftLineLeft(row)]
    {
      var newRow := ComputeLeft(row);
      WriteRow(y, newRow);
    }

    /** Moves the tiles of row y, whose cells are row, to the right. */
    method ShiftRowRight(y: int, row: seq<int>)
      requires FullKeys(board) && 0 <= y < Size && |row| == Size
      modifies this
      ensures FullKeys(board)
      ensures Rows(board) == old(Rows(board))[y := ShiftLineRight(row)]
    {
      var newRow := ComputeRight(row);
      WriteRow(y, newRow);
    }

    /** Moves the tiles of column x, whose cells are col, up. */
    method ShiftColumnUp(x: int, col: seq<int>)
      requires FullKeys(board) && 0 <= x < Size && |col| == Size
      modifies this
      ensures FullKeys(board)
      ensures Rows(board) == SetColumn(old(Rows(board)), x, ShiftLineLeft(col))
    {
      var newCol := ComputeLeft(col);
      WriteColumn(x, newCol);
    }

    /** Moves the tiles of column x, whose cells are col, down. */
    method ShiftColumnDown(x: int, col: seq<int>)
      requires FullKeys(board) && 0 <= x < Size && |col| == Size
      modifies this
      ensures FullKeys(board)
      ensures Rows(board) == SetColumn(old(Rows(board)), x, ShiftLineRight(col))
    {
      var newCol := ComputeRight(col);
      WriteColumn(x, newCol);
    }

    /** Whether some neighbour of (x, y) on the board holds the same value
        as (x, y); it stops at the first one found. */
    method CheckNeighbours(x: int, y: int) returns (found: bool)
      requires FullKeys(board) && OnBoard((x, y))
      ensures found == MatchesNeighbour(Rows(board), x, y)
    {
      RowsCells(board);
      ghost var g := Rows(board);
      var current := board[(x, y)];
      var points := Neighbours(x, y);
      for k := 0 to |points|
        invariant forall j :: 0 <= j < k ==> !Holds(g, points[j], g[y][x])
      {
        var point := points[k];
        if point in board && board[point] == current {
          assert Holds(g, points[k], g[y][x]);
          return true;
        }
      }
      return false;
    }

    /** Whether some cell has an equal neighbour on the board; the scan goes
        column by column and stops at the first match. */
    method FindMatch() returns (found: bool)
      requires FullKeys(board)
      ensures found <==> exists x, y :: 0 <= x < Size && 0 <= y < Size && MatchesNeighbour(Rows(board), x, y)
    {
      ghost var g := Rows(board);
      for x := 0 to Size
        invariant ColumnsClear(g, x)
      {
        for y := 0 to Size
          invariant ColumnsClear(g, x) && CellsClear(g, x, y)
        {
          found := CheckNeighbours(x, y);
          if found {
            return;
          }
        }
      }
      ScanClear(g);
      return false;
    }

    /** Reports whether the game is over: it returns normally while some
        cell is empty or some cell has an equal neighbour on the board, and
        raises GameOverError otherwise. */
    method GameOverCheck() returns (outcome: Outcome)
      requires FullKeys(board)
      ensures outcome == if GameOver(Rows(board)) then Raised(GameOverError) else Returned
    {
      RowsCells(board);
      ghost var g := Rows(board);
      if Empty in board.Values {
        var p :| p in board && board[p] == Empty;
        assert g[p.1][p.0] == Empty;
        return Returned;
      }
      var found := FindMatch();
      if found {
        return Returned;
      }
      assert !HasEmpty(g) by {
        forall x, y | 0 <= x < Size && 0 <= y < Size
          ensures g[y][x] != Empty
        {
          assert board[(x, y)] in board.Values;
        }
      }
      return Raised(GameOverError);
    }

    /** Moves every row to the left. If that changed the board, a random
        insertion follows; then the game-over check runs. */
    method ShiftLeft(numIndex: nat, pointIndex: nat) returns (outcome: Outcome)
      requires Valid()
      modifies this
      ensures Valid()
      ensures old(MoveLeft(Rows(board))) == old(Rows(board)) ==> Rows(board) == old(Rows(board))
      ensures old(MoveLeft(Rows(board))) != old(Rows(board)) ==>
        RandomInsertion(old(MoveLeft(Rows(board))), Rows(board))
      ensures old(MoveLeft(Rows(board))) != old(Rows(board)) ==>
        TileCount(Rows(board)) == TileCount(old(MoveLeft(Rows(board)))) + 1
      ensures outcome == if GameOver(Rows(board)) then Raised(GameOverError) else Returned
      ensures old(GameOver(Rows(board))) ==>
        Rows(board) == old(Rows(board)) && outcome == Raised(GameOverError)
    {
      var before := GetBoard("LIST");
      ghost var g0 := Rows(board);
      MoveRowsLeft();
      var after := GetBoard("LIST");
      if before != after {
        InsertRandom(numIndex, pointIndex);
      }
      outcome := GameOverCheck();
      MovesKeepTiles(g0);
      if before != after {
        ChangedMoveHasEmpty(g0);
        InsertionAddsOne(MoveLeft(g0), Rows(board));
      }
      if GameOver(g0) {
        StuckWhenOver(g0);
      }
    }

    /** Moves every row to the right. If that changed the board, a random
        insertion follows; then the game-over check runs. */
    method ShiftRight(numIndex: nat, pointIndex: nat) returns (outcome: Outcome)
      requires Valid()
      modifies this
      ensures Valid()
      ensures old(MoveRight(Rows(board))) == old(Rows(board)) ==> Rows(board) == old(Rows(board))
      ensures old(MoveRight(Rows(board))) != old(Rows(board)) ==>
        RandomInsertion(old(MoveRight(Rows(board))), Rows(board))
      ensures old(MoveRight(Rows(board))) != old(Rows(board)) ==>
        TileCount(Rows(board)) == TileCount(old(MoveRight(Rows(board)))) + 1
      ensures outcome == if GameOver(Rows(board)) then Raised(GameOverError) else Returned
      ensures old(GameOver(Rows(board))) ==>
        Rows(board) == old(Rows(board)) && outcome == Raised(GameOverError)
    {
      var before := GetBoard("LIST");
      ghost var g0 := Rows(board);
      MoveRowsRight();
      var after := GetBoard("LIST");
      if before != after {
        InsertRandom(numIndex, pointIndex);
      }
      outcome := GameOverCheck();
      MovesKeepTiles(g0);
      if before != after {
        ChangedMoveHasEmpty(g0);
        InsertionAddsOne(MoveRight(g0), Rows(board));
      }
      if GameOver(g0) {
        StuckWhenOver(g0);
      }
    }

    /** Moves every column up. If that changed the board, a random
        insertion follows; then the game-over check runs. */
    method ShiftUp(numIndex: nat, pointIndex: nat) returns (outcome: Outcome)
      requires Valid()
      modifies this
      ensures Valid()
      ensures old(MoveUp(Rows(board))) == old(Rows(board)) ==> Rows(board) == old(Rows(board))
      ensures old(MoveUp(Rows(board))) != old(Rows(board)) ==>
        RandomInsertion(old(MoveUp(Rows(board))), Rows(board))
      ensures old(MoveUp(Rows(board))) != old(Rows(board)) ==>
        TileCount(Rows(board)) == TileCount(old(MoveUp(Rows(board)))) + 1
      ensures outcome == if GameOver(Rows(board)) then Raised(GameOverError) else Returned
      ensures old(GameOver(Rows(board))) ==>
        Rows(board) == old(Rows(board)) && outcome == Raised(GameOverError)
    {
      var before := GetBoard("LIST");
      ghost var g0 := Rows(board);
      MoveColumnsUp();
      var after := GetBoard("LIST");
      if before != after {
        InsertRandom(numIndex, pointIndex);
      }
      outcome := GameOverCheck();
      MovesKeepTiles(g0);
      if before != after {
        ChangedMoveHasEmpty(g0);
        InsertionAddsOne(MoveUp(g0), Rows(board));
      }
      if GameOver(g0) {
        StuckWhenOver(g0);
      }
    }

    /** Moves every column down. If that changed the board, a random
        insertion follows; then the game-over check runs. */
    method ShiftDown(numIndex: nat, pointIndex: nat) returns (outcome: Outcome)
      requires Valid()
      modifies this
      ensures Valid()
      ensures old(MoveDown(Rows(board))) == old(Rows(board)) ==> Rows(board) == old(Rows(board))
      ensures old(MoveDown(Rows(board))) != old(Rows(board)) ==>
        RandomInsertion(old(MoveDown(Rows(board))), Rows(board))
      ensures old(MoveDown(Rows(board))) != old(Rows(board)) ==>
        TileCount(Rows(board)) == TileCount(old(MoveDown(Rows(board)))) + 1
      ensures outcome == if GameOver(Rows(board)) then Raised(GameOverError) else Returned
      ensures old(GameOver(Rows(board))) ==>
        Rows(board) == old(Rows(board)) && outcome == Raised(GameOverError)
    {
      var before := GetBoard("LIST");
      ghost var g0 := Rows(board);
      MoveColumnsDown();
      var after := GetBoard("LIST");
      if before != after {
        InsertRandom(numIndex, pointIndex);
      }
      outcome := GameOverCheck();
      MovesKeepTiles(g0);
      if before != after {
        ChangedMoveHasEmpty(g0);
        InsertionAddsOne(MoveDown(g0), Rows(board));
      }
      if GameOver(g0) {
        StuckWhenOver(g0);
      }
    }

    /** Reads and shifts the rows to the left, from the top row down. */
    method MoveRowsLeft()
      requires FullKeys(board)
      modifies this
      ensures FullKeys(board)
      ensures Rows(board) == MoveLeft(old(Rows(board)))
    {
      ghost var g0 := Rows(board);
      for y := 0 to Size
        invariant FullKeys(board)
        invariant forall j :: 0 <= j < Size ==>
          Rows(board)[j] == if j < y then ShiftLineLeft(g0[j]) else g0[j]
      {
        var row := ReadRow(y);
        ShiftRowLeft(y, row);
      }
      assert Rows(board) == MoveLeft(g0);
    }

    /** Reads and shifts the rows to the right, from the top row down. */
    method MoveRowsRight()
      requires FullKeys(board)
      modifies this
      ensures FullKeys(board)
      ensures Rows(board) == MoveRight(old(Rows(board)))
    {
      ghost var g0 := Rows(board);
      for y := 0 to Size
        invariant FullKeys(board)
        invariant forall j :: 0 <= j < Size ==>
          Rows(board)[j] == if j < y then ShiftLineRight(g0[j]) else g0[j]
      {
        var row := ReadRow(y);
        ShiftRowRight(y, row);
      }
      assert Rows(board) == MoveRight(g0);
    }

    /** Reads and shifts the columns up, from the leftmost column on. */
    method MoveColumnsUp()
      requires FullKeys(board)
      modifies this
      ensures FullKeys(board)
      ensures Rows(board) == MoveUp(old(Rows(board)))
    {
      ghost var g0 := Rows(board);
      for x := 0 to Size
        invariant FullKeys(board)
        invariant forall c :: 0 <= c < Size ==>
          Column(Rows(board), c) == if c < x then ShiftLineLeft(Column(g0, c)) else Column(g0, c)
      {
        var col := ReadColumn(x);
        ghost var prev := Rows(board);
        ShiftColumnUp(x, col);
        forall c | 0 <= c < Size
          ensures Column(Rows(board), c) == if c == x then ShiftLineLeft(col) else Column(prev, c)
        {
          ColumnOfSet(prev, x, ShiftLineLeft(col), c);
        }
      }
      forall c | 0 <= c < Size
        ensures Column(Rows(board), c) == Column(MoveUp(g0), c)
      {
        ColumnsOfMoves(g0, c);
      }
      ColumnsDetermine(Rows(board), MoveUp(g0));
    }

    /** Reads and shifts the columns down, from the leftmost column on. */
    method MoveColumnsDown()
      requires FullKeys(board)
      modifies this
      ensures FullKeys(board)
      ensures Rows(board) == MoveDown(old(Rows(board)))
    {
      ghost var g0 := Rows(board);
      for x := 0 to Size
        invariant FullKeys(board)
        invariant forall c :: 0 <= c < Size ==>
          Column(Rows(board), c) == if c < x then ShiftLineRight(Column(g0, c)) else Column(g0, c)
      {
        var col := ReadColumn(x);
        ghost var prev := Rows(board);
        ShiftColumnDown(x, col);
        forall c | 0 <= c < Size
          ensures Column(Rows(board), c) == if c == x then ShiftLineRight(col) else Column(prev, c)
        {
          ColumnOfSet(prev, x, ShiftLineRight(col), c);
        }
      }
      forall c | 0 <= c < Size
        ensures Column(Rows(board), c) == Column(MoveDown(g0), c)
      {
        ColumnsOfMoves(g0, c);
      }
      ColumnsDetermine(Rows(board), MoveDown(g0));
    }
  }
}
