// The Connect 4 board as a value, and the specification of one move on it.

module Board {

  /** The byte that marks a free cell. */
  const EMPTY: char := '\0'

  const N_IN_A_ROW := 4

  /** A board of `rows * cols` cells stored row by row, row 0 on top. */
  datatype Board = Board(rows: nat, cols: nat, cells: seq<char>) {

    predicate Valid() {
      |cells| == rows * cols
    }

    predicate Inside(i: int, j: int) {
      0 <= i < rows && 0 <= j < cols
    }

    function At(i: int, j: int): char
      requires Valid() && Inside(i, j)
    {
      IndexInside(rows, cols, i, j);
      cells[i * cols + j]
    }

    function Put(i: int, j: int, m: char): (b: Board)
      requires Valid() && Inside(i, j)
      ensures b.Valid() && b.rows == rows && b.cols == cols
      ensures forall i', j' :: Inside(i', j') ==> b.At(i', j') == if i' == i && j' == j then m else At(i', j')
    {
      IndexInside(rows, cols, i, j);
      var b := Board(rows, cols, cells[i * cols + j := m]);
      assert forall i', j' | Inside(i', j') :: b.At(i', j') == if i' == i && j' == j then m else At(i', j') by {
        forall i', j' | Inside(i', j')
          ensures b.At(i', j') == if i' == i && j' == j then m else At(i', j')
        {
          IndexInside(rows, cols, i', j');
          if i' * cols + j' == i * cols + j {
            IndexInjective(cols, i, j, i', j');
          }
        }
      }
      b
    }

    /** The cell is on the board and carries the mark. */
    predicate Holds(m: char, i: int, j: int)
      requires Valid()
    {
      Inside(i, j) && At(i, j) == m
    }
  }

  function NewBoard(rows: nat, cols: nat): (b: Board)
    ensures b.Valid()
  {
    Board(rows, cols, seq(rows * cols, k => EMPTY))
  }

  lemma {:induction false} IndexInside(rows: nat, cols: nat, i: int, j: int)
    requires 0 <= i < rows && 0 <= j < cols
    ensures 0 <= i * cols + j < rows * cols
  {
    assert i * cols >= 0;
    assert (i + 1) * cols <= rows * cols;
  }

  lemma {:induction false} LaterRowIsFurther(cols: nat, i: int, j: int, i': int, j': int)
    requires 0 <= j < cols && 0 <= j' && i < i'
    ensures i * cols + j < i' * cols + j'
  {
    assert (i + 1) * cols <= i' * cols;
  }

  lemma {:induction false} IndexInjective(cols: nat, i: int, j: int, i': int, j': int)
    requires 0 <= j < cols && 0 <= j' < cols
    requires i * cols + j == i' * cols + j'
    ensures i == i' && j == j'
  {
    if i < i' {
      LaterRowIsFurther(cols, i, j, i', j');
    } else if i' < i {
      LaterRowIsFurther(cols, i', j', i, j);
    }
  }

  lemma {:induction false} NewBoardEmpty(rows: nat, cols: nat, i: int, j: int)
    requires 0 <= i < rows && 0 <= j < cols
    ensures NewBoard(rows, cols).At(i, j) == EMPTY
  {
    IndexInside(rows, cols, i, j);
  }

  /** `k` steps in direction `d`, for `d` in -1, 0, 1. */
  function Along(k: int, d: int): int {
    if d == 1 then k else if d == -1 then -k else 0
  }

  predicate IsDirection(di: int, dj: int) {
    -1 <= di <= 1 && -1 <= dj <= 1 && (di != 0 || dj != 0)
  }

  /** The four lines through a cell, in the order in which the win check visits them. */
  const DIRECTIONS: seq<(int, int)> := [(1, 1), (1, 0), (0, 1), (-1, 1)]

  /** The cells next to (row, col) in direction (di, dj) that hold `m` without a gap are exactly `n`. */
  ghost predicate MaximalRun(b: Board, m: char, row: int, col: int, di: int, dj: int, n: nat)
    requires b.Valid()
  {
    && (forall k :: 1 <= k <= n ==> b.Holds(m, row + Along(k, di), col + Along(k, dj)))
    && !b.Holds(m, row + Along(n + 1, di), col + Along(n + 1, dj))
  }

  /** Four cells on a line, `s` of them before (row, col), all of which but (row, col) hold `m`. */
  ghost predicate LineAround(b: Board, m: char, row: int, col: int, d: (int, int), s: int)
    requires b.Valid()
  {
    forall k :: -s <= k < N_IN_A_ROW - s && k != 0 ==> b.Holds(m, row + Along(k, d.0), col + Along(k, d.1))
  }

  ghost predicate LineThrough(b: Board, m: char, row: int, col: int, d: (int, int))
    requires b.Valid()
  {
    exists s :: 0 <= s < N_IN_A_ROW && LineAround(b, m, row, col, d, s)
  }

  /** A token of `m` on (row, col) completes four in a row. */
  ghost predicate WinThrough(b: Board, m: char, row: int, col: int)
    requires b.Valid()
  {
    exists d :: d in DIRECTIONS && LineThrough(b, m, row, col, d)
  }

  /** Four consecutive cells from (i, j) on hold `m`. */
  ghost predicate Line(b: Board, m: char, i: int, j: int, d: (int, int))
    requires b.Valid()
  {
    forall k :: 0 <= k < N_IN_A_ROW ==> b.Holds(m, i + Along(k, d.0), j + Along(k, d.1))
  }

  /** Somewhere on the board - a row, a column or a diagonal - four consecutive cells hold `m`. */
  ghost predicate HasFour(b: Board, m: char)
    requires b.Valid()
  {
    exists i, j, d :: d in DIRECTIONS && Line(b, m, i, j, d)
  }

  lemma {:induction false} AlongOpposite(k: int, d: int)
    ensures Along(k, -d) == Along(-k, d)
  {
  }

  lemma {:induction false} AlongSum(k: int, n: int, d: int)
    requires -1 <= d <= 1
    ensures Along(k + n, d) == Along(k, d) + Along(n, d)
  {
  }

  lemma {:induction false} AlongNext(k: int, d: int)
    requires -1 <= d <= 1
    ensures Along(k + 1, d) == Along(k, d) + d
  {
  }

  lemma {:induction false} RunsGiveLine(b: Board, m: char, row: int, col: int, d: (int, int), forward: nat,
    backward: nat)
    requires b.Valid() && IsDirection(d.0, d.1)
    requires MaximalRun(b, m, row, col, d.0, d.1, forward)
    requires MaximalRun(b, m, row, col, -d.0, -d.1, backward)
    requires forward + backward >= N_IN_A_ROW - 1
    ensures LineThrough(b, m, row, col, d)
  {
    var s := if backward >= 3 then 3 else backward;
    forall k | -s <= k < N_IN_A_ROW - s && k != 0
      ensures b.Holds(m, row + Along(k, d.0), col + Along(k, d.1))
    {
      if k < 0 {
        AlongOpposite(-k, d.0);
        AlongOpposite(-k, d.1);
        assert b.Holds(m, row + Along(-k, -d.0), col + Along(-k, -d.1));
      }
    }
    assert LineAround(b, m, row, col, d, s);
  }

  lemma {:induction false} LineGivesRuns(b: Board, m: char, row: int, col: int, d: (int, int), forward: nat,
    backward: nat, s: int)
    requires b.Valid() && IsDirection(d.0, d.1)
    requires MaximalRun(b, m, row, col, d.0, d.1, forward)
    requires MaximalRun(b, m, row, col, -d.0, -d.1, backward)
    requires 0 <= s < N_IN_A_ROW && LineAround(b, m, row, col, d, s)
    ensures forward >= 3 - s && backward >= s
  {
    var k := backward + 1;
    AlongOpposite(k, d.0);
    AlongOpposite(k, d.1);
    assert !b.Holds(m, row + Along(-k, d.0), col + Along(-k, d.1));
  }

  /** The two counts of the win check add up to a line of four exactly when there is one through the cell. */
  lemma {:induction false} RunsMakeLine(b: Board, m: char, row: int, col: int, d: (int, int), forward: nat,
    backward: nat)
    requires b.Valid() && IsDirection(d.0, d.1)
    requires MaximalRun(b, m, row, col, d.0, d.1, forward)
    requires MaximalRun(b, m, row, col, -d.0, -d.1, backward)
    ensures forward + backward >= N_IN_A_ROW - 1 <==> LineThrough(b, m, row, col, d)
  {
    if forward + backward >= N_IN_A_ROW - 1 {
      RunsGiveLine(b, m, row, col, d, forward, backward);
    }
    if LineThrough(b, m, row, col, d) {
      var s :| 0 <= s < N_IN_A_ROW && LineAround(b, m, row, col, d, s);
      LineGivesRuns(b, m, row, col, d, forward, backward, s);
    }
  }

  /** The largest free row of the column at or above row `i`, -1 if there is none. */
  function Landing(b: Board, col: int, i: int): (r: int)
    requires b.Valid() && 0 <= col < b.cols && -1 <= i < b.rows
    ensures -1 <= r <= i
    ensures r >= 0 ==> b.At(r, col) == EMPTY
    ensures forall k :: r < k <= i ==> b.At(k, col) != EMPTY
  {
    if i < 0 then -1
    else if b.At(i, col) == EMPTY then i
    else Landing(b, col, i - 1)
  }

  ghost predicate TopRowFull(b: Board)
    requires b.Valid()
  {
    b.rows > 0 ==> forall j :: 0 <= j < b.cols ==> b.At(0, j) != EMPTY
  }

  ghost predicate AllOccupied(b: Board)
    requires b.Valid()
  {
    forall i, j :: b.Inside(i, j) ==> b.At(i, j) != EMPTY
  }

  /** What the object remembers between moves. */
  datatype Game = Game(board: Board, full: bool)

  function NewGame(rows: nat, cols: nat): Game {
    Game(NewBoard(rows, cols), false)
  }

  const WIN := 1
  const PLACED := 0
  const COLUMN_FULL := -1
  const BOARD_FULL := -2

  /** One call of play with an explicit mark: the new state and the returned code. */
  ghost function Move(g: Game, col: int, m: char): (r: (Game, int))
    requires g.board.Valid() && 0 <= col < g.board.cols
    ensures r.0.board.Valid() && r.0.board.rows == g.board.rows && r.0.board.cols == g.board.cols
  {
    var row := Landing(g.board, col, g.board.rows - 1);
    if g.full then (g, BOARD_FULL)
    else if row < 0 then (g, COLUMN_FULL)
    else
      var b := g.board.Put(row, col, m);
      if WinThrough(b, m, row, col) then (Game(b, false), WIN)
      else if row == 0 && TopRowFull(b) then (Game(b, true), BOARD_FULL)
      else (Game(b, false), PLACED)
  }
}
