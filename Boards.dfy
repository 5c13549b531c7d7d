/** The board as a value: a 4 x 4 grid whose rows are indexed [y][x], the
    shape the board's list view has, and what the four moves, the game-over
    test and the random insertion do to it. */
module Boards {
  import opened Lines

  type Grid = seq<seq<int>>

  /** Size rows of Size cells each. */
  predicate Shaped(g: Grid)
  {
    |g| == Size && forall y :: 0 <= y < |g| ==> |g[y]| == Size
  }

  /** Every cell is empty or a power of two of at least 2. */
  predicate GridTiles(g: Grid)
  {
    forall y :: 0 <= y < |g| ==> AllTiles(g[y])
  }

  predicate OnBoard(p: (int, int))
  {
    0 <= p.0 < Size && 0 <= p.1 < Size
  }

  /** The cell at point (x, y). */
  function At(g: Grid, p: (int, int)): int
    requires Shaped(g) && OnBoard(p)
  {
    g[p.1][p.0]
  }

  /** Column x, read from the top row down. */
  function Column(g: Grid, x: int): (c: seq<int>)
    requires Shaped(g) && 0 <= x < Size
    ensures |c| == Size
  {
    seq(Size, y requires 0 <= y < Size => g[y][x])
  }

  /** The grid of `_create_board`: every cell empty. */
  function EmptyGrid(): (g: Grid)
    ensures Shaped(g)
  {
    seq(Size, _ => seq(Size, _ => Empty))
  }

  // ---------------------------------------------------------------------
  // The four moves: every row (or column) goes through the line transform

  function MoveLeft(g: Grid): (r: Grid)
    requires Shaped(g)
    ensures Shaped(r)
  {
    seq(Size, y requires 0 <= y < Size => ShiftLineLeft(g[y]))
  }

  function MoveRight(g: Grid): (r: Grid)
    requires Shaped(g)
    ensures Shaped(r)
  {
    seq(Size, y requires 0 <= y < Size => ShiftLineRight(g[y]))
  }

  /** Column x of the result is column x of g moved towards its start. */
  function MoveUp(g: Grid): (r: Grid)
    requires Shaped(g)
    ensures Shaped(r)
  {
    seq(Size, y requires 0 <= y < Size =>
      seq(Size, x requires 0 <= x < Size => ShiftLineLeft(Column(g, x))[y]))
  }

  /** Column x of the result is column x of g moved towards its end. */
  function MoveDown(g: Grid): (r: Grid)
    requires Shaped(g)
    ensures Shaped(r)
  {
    seq(Size, y requires 0 <= y < Size =>
      seq(Size, x requires 0 <= x < Size => ShiftLineRight(Column(g, x))[y]))
  }

  // ---------------------------------------------------------------------
  // Game over

  /** The four orthogonal neighbours of (x, y), in the order left, right,
      above, below; some of them may lie off the board. */
  function Neighbours(x: int, y: int): seq<(int, int)>
  {
    [(x - 1, y), (x + 1, y), (x, y - 1), (x, y + 1)]
  }

  predicate HasEmpty(g: Grid)
    requires Shaped(g)
  {
    exists x, y :: 0 <= x < Size && 0 <= y < Size && g[y][x] == Empty
  }

  /** Point p lies on the board and holds v. */
  predicate Holds(g: Grid, p: (int, int), v: int)
    requires Shaped(g)
  {
    OnBoard(p) && At(g, p) == v
  }

  /** Some neighbour of (x, y) that lies on the board holds the same value. */
  predicate MatchesNeighbour(g: Grid, x: int, y: int)
    requires Shaped(g) && OnBoard((x, y))
  {
    var ns, v := Neighbours(x, y), g[y][x];
    Holds(g, ns[0], v) || Holds(g, ns[1], v) || Holds(g, ns[2], v) || Holds(g, ns[3], v)
  }

  /** No cell is empty and no cell has an equal neighbour on the board. */
  predicate GameOver(g: Grid)
    requires Shaped(g)
  {
    !HasEmpty(g) && forall x, y :: 0 <= x < Size && 0 <= y < Size ==> !MatchesNeighbour(g, x, y)
  }

  /** A second statement of game over, line by line: every row and every
      column is settled. */
  predicate Blocked(g: Grid)
    requires Shaped(g)
  {
    && (forall y :: 0 <= y < Size ==> Settled(g[y]))
    && (forall x :: 0 <= x < Size ==> Settled(Column(g, x)))
  }

  // ---------------------------------------------------------------------
  // Random insertion and tile counts

  /** g with the cell at (x, y) set to v. */
  function Place(g: Grid, x: int, y: int, v: int): (r: Grid)
    requires Shaped(g) && OnBoard((x, y))
    ensures Shaped(r)
  {
    g[y := g[y][x := v]]
  }

  /** g with column x replaced by c. */
  function SetColumn(g: Grid, x: int, c: seq<int>): (r: Grid)
    requires Shaped(g) && 0 <= x < Size && |c| == Size
    ensures Shaped(r)
  {
    seq(Size, y requires 0 <= y < Size => g[y][x := c[y]])
  }

  /** What `_insert_random` may do: on a board with an empty cell, put a 2
      or a 4 into one empty cell and change nothing else; on a full board,
      change nothing. Which cell and which value are left open. */
  ghost predicate RandomInsertion(before: Grid, after: Grid)
    requires Shaped(before)
  {
    if HasEmpty(before) then
      exists x, y, v :: 0 <= x < Size && 0 <= y < Size && before[y][x] == Empty &&
        (v == 2 || v == 4) && after == Place(before, x, y, v)
    else
      after == before
  }

  /** The number of non-empty cells. */
  function TileCount(g: Grid): nat
  {
    if g == [] then 0 else TileCount(g[..|g| - 1]) + |Compact(g[|g| - 1])|
  }

  /** Every cell holds 0, 2 or 4. */
  predicate SmallTiles(g: Grid)
  {
    forall y, x :: 0 <= y < |g| && 0 <= x < |g[y]| ==> g[y][x] in {Empty, 2, 4}
  }

  // ---------------------------------------------------------------------
  // Lemmas: moves

  lemma ColumnTiles(g: Grid, x: int)
    requires Shaped(g) && GridTiles(g) && 0 <= x < Size
    ensures AllTiles(Column(g, x))
  {
    forall v | v in Column(g, x)
      ensures IsTile(v)
    {
      var y :| 0 <= y < Size && Column(g, x)[y] == v;
      assert g[y][x] in g[y];
    }
  }

  lemma RowMovesKeepTiles(g: Grid)
    requires Shaped(g) && GridTiles(g)
    ensures GridTiles(MoveLeft(g)) && GridTiles(MoveRight(g))
  {
    forall y | 0 <= y < Size
      ensures AllTiles(MoveLeft(g)[y]) && AllTiles(MoveRight(g)[y])
    {
      TilesPreserved(g[y]);
    }
  }

  lemma ColumnMovesKeepTiles(g: Grid)
    requires Shaped(g) && GridTiles(g)
    ensures GridTiles(MoveUp(g)) && GridTiles(MoveDown(g))
  {
    forall x | 0 <= x < Size
      ensures AllTiles(ShiftLineLeft(Column(g, x))) && AllTiles(ShiftLineRight(Column(g, x)))
    {
      ColumnTiles(g, x);
      TilesPreserved(Column(g, x));
    }
    forall y | 0 <= y < Size
      ensures AllTiles(MoveUp(g)[y]) && AllTiles(MoveDown(g)[y])
    {
      forall v | v in MoveUp(g)[y]
        ensures IsTile(v)
      {
        var x :| 0 <= x < Size && MoveUp(g)[y][x] == v;
        assert v in ShiftLineLeft(Column(g, x));
      }
      forall v | v in MoveDown(g)[y]
        ensures IsTile(v)
      {
        var x :| 0 <= x < Size && MoveDown(g)[y][x] == v;
        assert v in ShiftLineRight(Column(g, x));
      }
    }
  }

  /** Every move keeps every cell empty or a power of two of at least 2. */
  lemma MovesKeepTiles(g: Grid)
    requires Shaped(g) && GridTiles(g)
    ensures GridTiles(MoveLeft(g)) && GridTiles(MoveRight(g))
    ensures GridTiles(MoveUp(g)) && GridTiles(MoveDown(g))
  {
    RowMovesKeepTiles(g);
    ColumnMovesKeepTiles(g);
  }

  /** The game-over test, which looks at all four neighbours of every cell,
      says the same as looking only to the right of and below every cell. */
  lemma GameOverIsBlocked(g: Grid)
    requires Shaped(g)
    ensures GameOver(g) <==> Blocked(g)
  {
    if GameOver(g) {
      OverIsBlocked(g);
    }
    if Blocked(g) {
      BlockedIsOver(g);
    }
  }

  lemma OverIsBlocked(g: Grid)
    requires Shaped(g) && GameOver(g)
    ensures Blocked(g)
  {
    forall y | 0 <= y < Size
      ensures Settled(g[y])
    {
      forall i | 0 < i < Size
        ensures g[y][i - 1] != g[y][i]
      {
        assert Neighbours(i - 1, y)[1] == (i, y);
        assert !MatchesNeighbour(g, i - 1, y);
      }
      forall i | 0 <= i < Size
        ensures g[y][i] != Empty
      {
        assert !HasEmpty(g);
      }
    }
    forall x | 0 <= x < Size
      ensures Settled(Column(g, x))
    {
      var c := Column(g, x);
      forall i | 0 < i < Size
        ensures c[i - 1] != c[i]
      {
        assert Neighbours(x, i - 1)[3] == (x, i);
        assert !MatchesNeighbour(g, x, i - 1);
      }
      forall i | 0 <= i < Size
        ensures c[i] != Empty
      {
        assert !HasEmpty(g);
      }
    }
  }

  lemma BlockedIsOver(g: Grid)
    requires Shaped(g) && Blocked(g)
    ensures GameOver(g)
  {
    forall x, y | 0 <= x < Size && 0 <= y < Size
      ensures g[y][x] != Empty
    {
      assert Settled(g[y]);
    }
    forall x, y | 0 <= x < Size && 0 <= y < Size
      ensures !MatchesNeighbour(g, x, y)
    {
      assert Settled(g[y]) && Settled(Column(g, x));
      if x > 0 {
        assert g[y][x - 1] != g[y][x];
      }
      if x < Size - 1 {
        assert g[y][x] != g[y][x + 1];
      }
      if y > 0 {
        assert Column(g, x)[y - 1] != Column(g, x)[y];
      }
      if y < Size - 1 {
        assert Column(g, x)[y] != Column(g, x)[y + 1];
      }
    }
  }

  lemma StuckRows(g: Grid)
    requires Shaped(g) && Blocked(g)
    ensures MoveLeft(g) == g && MoveRight(g) == g
  {
    forall y | 0 <= y < Size
      ensures ShiftLineLeft(g[y]) == g[y] && ShiftLineRight(g[y]) == g[y]
    {
      BlockedLineStays(g[y]);
    }
    assert MoveLeft(g) == g;
    assert MoveRight(g) == g;
  }

  lemma StuckColumns(g: Grid)
    requires Shaped(g) && Blocked(g)
    ensures MoveUp(g) == g && MoveDown(g) == g
  {
    forall x | 0 <= x < Size
      ensures Column(MoveUp(g), x) == Column(g, x)
      ensures Column(MoveDown(g), x) == Column(g, x)
    {
      BlockedLineStays(Column(g, x));
      ColumnsOfMoves(g, x);
    }
    ColumnsDetermine(MoveUp(g), g);
    ColumnsDetermine(MoveDown(g), g);
  }

  /** When the game is over no move changes the board, so a shift then
      inserts nothing. */
  lemma StuckWhenOver(g: Grid)
    requires Shaped(g) && GameOver(g)
    ensures MoveLeft(g) == g && MoveRight(g) == g
    ensures MoveUp(g) == g && MoveDown(g) == g
  {
    OverIsBlocked(g);
    StuckRows(g);
    StuckColumns(g);
  }

  /** A move that changes the board leaves an empty cell, so the insertion
      that follows it always places a tile. */
  lemma ChangedMoveHasEmpty(g: Grid)
    requires Shaped(g)
    ensures MoveLeft(g) != g ==> HasEmpty(MoveLeft(g))
    ensures MoveRight(g) != g ==> HasEmpty(MoveRight(g))
    ensures MoveUp(g) != g ==> HasEmpty(MoveUp(g))
    ensures MoveDown(g) != g ==> HasEmpty(MoveDown(g))
  {
    ChangedRowsHaveEmpty(g);
    ChangedColumnsHaveEmpty(g);
  }

  lemma ChangedRowsHaveEmpty(g: Grid)
    requires Shaped(g)
    ensures MoveLeft(g) != g ==> HasEmpty(MoveLeft(g))
    ensures MoveRight(g) != g ==> HasEmpty(MoveRight(g))
  {
    if MoveLeft(g) != g {
      var y :| 0 <= y < Size && MoveLeft(g)[y] != g[y];
      ChangedLineHasEmpty(g[y]);
      assert MoveLeft(g)[y][Size - 1] == Empty;
    }
    if MoveRight(g) != g {
      var y :| 0 <= y < Size && MoveRight(g)[y] != g[y];
      ChangedLineHasEmpty(g[y]);
      assert MoveRight(g)[y][0] == Empty;
    }
  }

  lemma ChangedColumnsHaveEmpty(g: Grid)
    requires Shaped(g)
    ensures MoveUp(g) != g ==> HasEmpty(MoveUp(g))
    ensures MoveDown(g) != g ==> HasEmpty(MoveDown(g))
  {
    if MoveUp(g) != g {
      if forall x :: 0 <= x < Size ==> Column(MoveUp(g), x) == Column(g, x) {
        ColumnsDetermine(MoveUp(g), g);
      }
      var x :| 0 <= x < Size && Column(MoveUp(g), x) != Column(g, x);
      ColumnsOfMoves(g, x);
      ChangedLineHasEmpty(Column(g, x));
      assert MoveUp(g)[Size - 1][x] == Column(MoveUp(g), x)[Size - 1];
    }
    if MoveDown(g) != g {
      if forall x :: 0 <= x < Size ==> Column(MoveDown(g), x) == Column(g, x) {
        ColumnsDetermine(MoveDown(g), g);
      }
      var x :| 0 <= x < Size && Column(MoveDown(g), x) != Column(g, x);
      ColumnsOfMoves(g, x);
      ChangedLineHasEmpty(Column(g, x));
      assert MoveDown(g)[0][x] == Column(MoveDown(g), x)[0];
    }
  }

  // ---------------------------------------------------------------------
  // Lemmas: insertion and counts

  lemma OccupiedPlace(s: seq<int>, x: int, v: int)
    requires 0 <= x < |s| && s[x] == Empty && v != Empty
    ensures |Compact(s[x := v])| == |Compact(s)| + 1
  {
    var pre, post := s[..x], s[x + 1..];
    assert s == pre + [Empty] + post;
    assert s[x := v] == pre + [v] + post;
    CompactAppend(pre + [Empty], post);
    CompactAppend(pre, [Empty]);
    CompactAppend(pre + [v], post);
    CompactAppend(pre, [v]);
    assert Compact([Empty]) == [] by { assert [Empty][..0] == []; }
    assert Compact([v]) == [v] by { assert [v][..0] == []; }
  }

  lemma {:induction false} TileCountUpdate(g: Grid, y: int, r: seq<int>)
    requires 0 <= y < |g|
    ensures TileCount(g[y := r]) == TileCount(g) - |Compact(g[y])| + |Compact(r)|
  {
    var n := |g|;
    if y == n - 1 {
      assert g[y := r][..n - 1] == g[..n - 1];
    } else {
      assert g[y := r][..n - 1] == g[..n - 1][y := r];
      TileCountUpdate(g[..n - 1], y, r);
    }
  }

  lemma {:induction false} CompactAllEmpty(s: seq<int>)
    requires forall i :: 0 <= i < |s| ==> s[i] == Empty
    ensures Compact(s) == []
  {
    if s != [] {
      CompactAllEmpty(s[..|s| - 1]);
    }
  }

  lemma {:induction false} FullCount(g: Grid)
    requires forall y :: 0 <= y < |g| ==> |g[y]| == Size
    requires forall y, x :: 0 <= y < |g| && 0 <= x < Size ==> g[y][x] != Empty
    ensures TileCount(g) == Size * |g|
  {
    if g != [] {
      FullCount(g[..|g| - 1]);
      CompactFull(g[|g| - 1]);
    }
  }

  lemma {:induction false} EmptyCount(g: Grid)
    requires forall y, x :: 0 <= y < |g| && 0 <= x < |g[y]| ==> g[y][x] == Empty
    ensures TileCount(g) == 0
  {
    if g != [] {
      EmptyCount(g[..|g| - 1]);
      CompactAllEmpty(g[|g| - 1]);
    }
  }

  /** A full board holds Size * Size tiles; so a board holding fewer has an
      empty cell. */
  lemma FewerTilesHasEmpty(g: Grid)
    requires Shaped(g) && TileCount(g) < Size * Size
    ensures HasEmpty(g)
  {
    if !HasEmpty(g) {
      FullCount(g);
    }
  }

  /** One random insertion on a board with an empty cell adds exactly one
      tile, a 2 or a 4, and keeps every cell a tile; on a full board it
      changes nothing. */
  lemma InsertionAddsOne(g: Grid, h: Grid)
    requires Shaped(g) && RandomInsertion(g, h)
    ensures Shaped(h)
    ensures HasEmpty(g) ==> TileCount(h) == TileCount(g) + 1
    ensures !HasEmpty(g) ==> h == g
    ensures GridTiles(g) ==> GridTiles(h)
    ensures SmallTiles(g) ==> SmallTiles(h)
  {
    if HasEmpty(g) {
      var x, y, v :| 0 <= x < Size && 0 <= y < Size && g[y][x] == Empty &&
        (v == 2 || v == 4) && h == Place(g, x, y, v);
      TileCountUpdate(g, y, g[y][x := v]);
      OccupiedPlace(g[y], x, v);
      if GridTiles(g) {
        PlaceKeepsTiles(g, x, y, v);
      }
    }
  }

  lemma PlaceKeepsTiles(g: Grid, x: int, y: int, v: int)
    requires Shaped(g) && GridTiles(g) && OnBoard((x, y)) && (v == 2 || v == 4)
    ensures GridTiles(Place(g, x, y, v))
  {
    var h := Place(g, x, y, v);
    assert IsTile(v) by { assert v / 2 == 1 || (v / 2 == 2 && (v / 2) / 2 == 1); }
    forall e | e in h[y]
      ensures IsTile(e)
    {
      var i :| 0 <= i < Size && h[y][i] == e;
      if i != x {
        assert g[y][i] in g[y];
      }
    }
    assert forall yy :: 0 <= yy < Size && yy != y ==> h[yy] == g[yy];
  }

  /** A new game's board: two insertions on the empty board leave exactly two
      tiles, each a 2 or a 4. */
  lemma InitialBoard(g1: Grid, g2: Grid)
    requires RandomInsertion(EmptyGrid(), g1)
    requires Shaped(g1) && RandomInsertion(g1, g2)
    ensures Shaped(g2) && TileCount(g2) == 2 && SmallTiles(g2) && GridTiles(g2)
  {
    var g0 := EmptyGrid();
    assert g0[0][0] == Empty;
    EmptyCount(g0);
    InsertionAddsOne(g0, g1);
    FewerTilesHasEmpty(g1);
    InsertionAddsOne(g1, g2);
    SmallAreTiles(g2);
  }

  lemma SmallAreTiles(g: Grid)
    requires SmallTiles(g)
    ensures GridTiles(g)
  {
    forall y | 0 <= y < |g|
      ensures AllTiles(g[y])
    {
      forall v | v in g[y]
        ensures IsTile(v)
      {
        var x :| 0 <= x < |g[y]| && g[y][x] == v;
        assert v in {Empty, 2, 4};
        assert v == 4 ==> v / 2 == 2 && (v / 2) / 2 == 1;
      }
    }
  }

  // ---------------------------------------------------------------------
  // Lemmas: columns

  /** Replacing a column changes that column and no other. */
  lemma ColumnOfSet(g: Grid, x: int, c: seq<int>, x': int)
    requires Shaped(g) && 0 <= x < Size && |c| == Size && 0 <= x' < Size
    ensures Column(SetColumn(g, x, c), x') == if x' == x then c else Column(g, x')
  {
  }

  /** Two grids with the same columns are equal. */
  lemma ColumnsDetermine(g: Grid, h: Grid)
    requires Shaped(g) && Shaped(h)
    requires forall x :: 0 <= x < Size ==> Column(g, x) == Column(h, x)
    ensures g == h
  {
    forall y | 0 <= y < Size
      ensures g[y] == h[y]
    {
      forall x | 0 <= x < Size
        ensures g[y][x] == h[y][x]
      {
        assert Column(g, x)[y] == Column(h, x)[y];
      }
    }
  }

  /** Moving up moves every column towards its start; moving down, towards
      its end. */
  lemma ColumnsOfMoves(g: Grid, x: int)
    requires Shaped(g) && 0 <= x < Size
    ensures Column(MoveUp(g), x) == ShiftLineLeft(Column(g, x))
    ensures Column(MoveDown(g), x) == ShiftLineRight(Column(g, x))
  {
  }
}
