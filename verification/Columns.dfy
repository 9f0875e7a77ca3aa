// Where tokens land: each column is the list of the marks that were dropped into it.

module Columns {
  import opened Board
  import opened BoardTheorems

  /** The cell in row `r` of the column is the lowest free one of `b`. */
  ghost predicate LowestFree(b: Board, col: int, r: int)
    requires b.Valid() && 0 <= col < b.cols
  {
    0 <= r < b.rows && b.At(r, col) == EMPTY && forall k :: r < k < b.rows ==> b.At(k, col) != EMPTY
  }

  /** One cell changed: the lowest free one of the column, which now carries the mark. */
  ghost predicate Dropped(b: Board, b': Board, col: int, m: char)
    requires b.Valid() && b'.Valid() && b'.rows == b.rows && b'.cols == b.cols && 0 <= col < b.cols
  {
    exists r :: LowestFree(b, col, r) && b'.At(r, col) == m &&
                forall i, j :: b.Inside(i, j) && (i != r || j != col) ==> b'.At(i, j) == b.At(i, j)
  }

  /** A call with the flag set and a call for a column without a free cell are refused with their codes and change no
      cell; every other call drops one token into the column that was asked for. */
  lemma {:induction false} TokenDrops(g: Game, col: int, m: char)
    requires g.board.Valid() && 0 <= col < g.board.cols
    ensures var (g', code) := Move(g, col, m);
            && (g.full ==> g'.board == g.board && code == BOARD_FULL)
            && (code == COLUMN_FULL <==> !g.full && forall k :: 0 <= k < g.board.rows ==> g.board.At(k, col) != EMPTY)
            && (code == COLUMN_FULL ==> g'.board == g.board)
            && (!g.full && code != COLUMN_FULL ==> Dropped(g.board, g'.board, col, m))
  {
    var row := Landing(g.board, col, g.board.rows - 1);
    if row >= 0 {
      assert LowestFree(g.board, col, row);
    }
  }

  // ----- Whole runs -----

  /** The marks of a column from row `i` upwards, up to the first free cell. */
  function ReadUp(b: Board, col: int, i: int): (s: seq<char>)
    requires b.Valid() && 0 <= col < b.cols && -1 <= i < b.rows
    ensures |s| <= i + 1
  {
    if i < 0 || b.At(i, col) == EMPTY then [] else [b.At(i, col)] + ReadUp(b, col, i - 1)
  }

  /** The last call was neither refused for its column nor made with the flag set. */
  ghost predicate LastAccepted(rows: nat, cols: nat, turns: seq<Turn>)
    requires Legal(cols, turns) && turns != []
  {
    !After(rows, cols, turns[..|turns| - 1]).full && LastCode(rows, cols, turns) != COLUMN_FULL
  }

  /** The marks of the accepted turns with that column, in order. */
  ghost function Played(rows: nat, cols: nat, turns: seq<Turn>, col: int): seq<char>
    requires Legal(cols, turns)
  {
    if turns == [] then []
    else
      var n := |turns| - 1;
      Played(rows, cols, turns[..n], col) +
      if turns[n].col == col && LastAccepted(rows, cols, turns) then [turns[n].mark] else []
  }

  /** Read from the bottom the column holds exactly these marks, and all above them is free. */
  ghost predicate Stack(b: Board, col: int, marks: seq<char>)
    requires b.Valid() && 0 <= col < b.cols
  {
    && ReadUp(b, col, b.rows - 1) == marks
    && forall k :: 0 <= k < b.rows - |marks| ==> b.At(k, col) == EMPTY
  }

  lemma {:induction false} ReadSame(b: Board, b': Board, col: int, i: int)
    requires b.Valid() && b'.Valid() && b'.rows == b.rows && b'.cols == b.cols && 0 <= col < b.cols && -1 <= i < b.rows
    requires forall k :: 0 <= k <= i ==> b'.At(k, col) == b.At(k, col)
    ensures ReadUp(b', col, i) == ReadUp(b, col, i)
  {
    if i >= 0 && b.At(i, col) != EMPTY {
      ReadSame(b, b', col, i - 1);
    }
  }

  lemma {:induction false} ReadMore(b: Board, b': Board, col: int, r: int, m: char, i: int)
    requires b.Valid() && b'.Valid() && b'.rows == b.rows && b'.cols == b.cols && 0 <= col < b.cols
    requires LowestFree(b, col, r) && r <= i < b.rows && b'.At(r, col) == m && m != EMPTY
    requires forall k :: 0 <= k < b.rows && k != r ==> b'.At(k, col) == b.At(k, col)
    requires r > 0 ==> b.At(r - 1, col) == EMPTY
    ensures ReadUp(b', col, i) == ReadUp(b, col, i) + [m] && |ReadUp(b, col, i)| == i - r
    decreases i
  {
    if i == r {
      assert ReadUp(b', col, r - 1) == [];
    } else {
      ReadMore(b, b', col, r, m, i - 1);
    }
  }

  lemma {:induction false} DropStacks(b: Board, b': Board, col: int, m: char, j: int, marks: seq<char>)
    requires b.Valid() && b'.Valid() && b'.rows == b.rows && b'.cols == b.cols && 0 <= col < b.cols && 0 <= j < b.cols
    requires Gravity(b) && m != EMPTY && Dropped(b, b', col, m) && Stack(b, j, marks)
    ensures Stack(b', j, if j == col then marks + [m] else marks)
  {
    var r :| LowestFree(b, col, r) && b'.At(r, col) == m &&
             forall i, j :: b.Inside(i, j) && (i != r || j != col) ==> b'.At(i, j) == b.At(i, j);
    if j == col {
      if r > 0 {
        assert b.Inside(r - 1, col) && b.Inside(r, col);
      }
      ReadMore(b, b', col, r, m, b.rows - 1);
    } else {
      ReadSame(b, b', j, b.rows - 1);
    }
  }

  lemma {:induction false} EmptyStack(rows: nat, cols: nat, col: int)
    requires 0 <= col < cols
    ensures Stack(NewBoard(rows, cols), col, [])
  {
    forall k | 0 <= k < rows
      ensures NewBoard(rows, cols).At(k, col) == EMPTY
    {
      NewBoardEmpty(rows, cols, k, col);
    }
  }

  lemma {:induction false} MoveStacks(g: Game, col: int, m: char, j: int, marks: seq<char>)
    requires g.board.Valid() && 0 <= col < g.board.cols && 0 <= j < g.board.cols && m != EMPTY
    requires Gravity(g.board) && Stack(g.board, j, marks)
    ensures var (g', code) := Move(g, col, m);
            Stack(g'.board, j, if j == col && !g.full && code != COLUMN_FULL then marks + [m] else marks)
  {
    hide Move, Stack, Gravity, Dropped;
    TokenDrops(g, col, m);
    var (g', code) := Move(g, col, m);
    if !g.full && code != COLUMN_FULL {
      DropStacks(g.board, g'.board, col, m, j, marks);
    }
  }

  lemma {:induction false} LastTurn(rows: nat, cols: nat, turns: seq<Turn>)
    requires Legal(cols, turns) && turns != []
    ensures var n := |turns| - 1;
            (After(rows, cols, turns), LastCode(rows, cols, turns)) ==
              Move(After(rows, cols, turns[..n]), turns[n].col, turns[n].mark)
  {
    hide Move;
  }

  /** In every run, with or without wins and refused calls: each column is the list of the marks of the accepted turns
      with that column, from the bottom, in order. */
  lemma {:induction false} ColumnsAreTurns(rows: nat, cols: nat, turns: seq<Turn>, col: int)
    requires Legal(cols, turns) && 0 <= col < cols
    ensures Stack(After(rows, cols, turns).board, col, Played(rows, cols, turns, col))
  {
    hide Move, Stack, Gravity, LastCode;
    if turns == [] {
      EmptyStack(rows, cols, col);
    } else {
      var n := |turns| - 1;
      LastTurn(rows, cols, turns);
      hide After;
      ColumnsAreTurns(rows, cols, turns[..n], col);
      RunKeepsGravity(rows, cols, turns[..n]);
      MoveStacks(After(rows, cols, turns[..n]), turns[n].col, turns[n].mark, col, Played(rows, cols, turns[..n], col));
      assert Played(rows, cols, turns[..n], col) + [] == Played(rows, cols, turns[..n], col);
    }
  }
}
