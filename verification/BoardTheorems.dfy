// What holds of every board a game can reach.

module BoardTheorems {
  import opened Board

  // ----- The local win check is the global one -----

  /** Putting another mark on a free cell neither makes nor breaks a line of `m`. */
  lemma {:induction false} OtherMarkKeepsFours(b: Board, i: int, j: int, placed: char, m: char)
    requires b.Valid() && b.Inside(i, j) && b.At(i, j) == EMPTY
    requires m != EMPTY && placed != m
    ensures HasFour(b.Put(i, j, placed), m) <==> HasFour(b, m)
  {
    var b' := b.Put(i, j, placed);
    assert forall i', j' :: b'.Holds(m, i', j') <==> b.Holds(m, i', j');
    forall i', j', d | d in DIRECTIONS
      ensures Line(b', m, i', j', d) <==> Line(b, m, i', j', d)
    {
    }
  }

  /** Lines of `m` survive a further token on a free cell. */
  lemma {:induction false} FourStays(b: Board, i: int, j: int, placed: char, m: char)
    requires b.Valid() && b.Inside(i, j) && b.At(i, j) == EMPTY
    requires m != EMPTY && HasFour(b, m)
    ensures HasFour(b.Put(i, j, placed), m)
  {
    var b' := b.Put(i, j, placed);
    var i', j', d :| d in DIRECTIONS && Line(b, m, i', j', d);
    assert Line(b', m, i', j', d);
  }

  lemma {:induction false} AroundIsLine(b: Board, m: char, i: int, j: int, d: (int, int), s: int)
    requires b.Valid() && b.Holds(m, i, j) && IsDirection(d.0, d.1)
    requires 0 <= s < N_IN_A_ROW && LineAround(b, m, i, j, d, s)
    ensures Line(b, m, i + Along(-s, d.0), j + Along(-s, d.1), d)
  {
    forall k | 0 <= k < N_IN_A_ROW
      ensures b.Holds(m, i + Along(-s, d.0) + Along(k, d.0), j + Along(-s, d.1) + Along(k, d.1))
    {
      AlongSum(-s, k, d.0);
      AlongSum(-s, k, d.1);
      var k' := k - s;
      assert k' != 0 ==> b.Holds(m, i + Along(k', d.0), j + Along(k', d.1));
    }
  }

  lemma {:induction false} WinThroughIsFour(b: Board, m: char, i: int, j: int)
    requires b.Valid() && b.Holds(m, i, j)
    requires WinThrough(b, m, i, j)
    ensures HasFour(b, m)
  {
    var d :| d in DIRECTIONS && LineThrough(b, m, i, j, d);
    var s :| 0 <= s < N_IN_A_ROW && LineAround(b, m, i, j, d, s);
    AroundIsLine(b, m, i, j, d, s);
  }

  lemma {:induction false} NewFourPassesThrough(b: Board, i: int, j: int, m: char, i0: int, j0: int, d: (int, int))
    requires b.Valid() && b.Inside(i, j) && b.At(i, j) == EMPTY && m != EMPTY
    requires d in DIRECTIONS && !Line(b, m, i0, j0, d) && Line(b.Put(i, j, m), m, i0, j0, d)
    ensures WinThrough(b.Put(i, j, m), m, i, j)
  {
    var b' := b.Put(i, j, m);
    var s :| 0 <= s < N_IN_A_ROW && !b.Holds(m, i0 + Along(s, d.0), j0 + Along(s, d.1));
    assert b'.Holds(m, i0 + Along(s, d.0), j0 + Along(s, d.1));
    assert i == i0 + Along(s, d.0) && j == j0 + Along(s, d.1);
    forall k | -s <= k < N_IN_A_ROW - s && k != 0
      ensures b'.Holds(m, i + Along(k, d.0), j + Along(k, d.1))
    {
      AlongSum(s, k, d.0);
      AlongSum(s, k, d.1);
      assert b'.Holds(m, i0 + Along(k + s, d.0), j0 + Along(k + s, d.1));
    }
    assert LineAround(b', m, i, j, d, s);
    assert LineThrough(b', m, i, j, d);
  }

  /** On a board without four of `m`, the check through the new token decides whether there is a four anywhere. */
  lemma {:induction false} LocalIsGlobal(b: Board, i: int, j: int, m: char)
    requires b.Valid() && b.Inside(i, j) && b.At(i, j) == EMPTY && m != EMPTY
    requires !HasFour(b, m)
    ensures WinThrough(b.Put(i, j, m), m, i, j) <==> HasFour(b.Put(i, j, m), m)
  {
    var b' := b.Put(i, j, m);
    if WinThrough(b', m, i, j) {
      WinThroughIsFour(b', m, i, j);
    }
    if HasFour(b', m) {
      var i0, j0, d :| d in DIRECTIONS && Line(b', m, i0, j0, d);
      NewFourPassesThrough(b, i, j, m, i0, j0, d);
    }
  }

  /** The code returned by a move tells exactly whether the new board has a four of that player. */
  lemma {:induction false} PlayDetectsWin(g: Game, col: int, m: char)
    requires g.board.Valid() && 0 <= col < g.board.cols && m != EMPTY
    requires !HasFour(g.board, m)
    ensures Move(g, col, m).1 == WIN <==> HasFour(Move(g, col, m).0.board, m)
  {
    var row := Landing(g.board, col, g.board.rows - 1);
    if !g.full && row >= 0 {
      LocalIsGlobal(g.board, row, col, m);
    }
  }

  // ----- Gravity, fullness, runs -----

  /** No token has a free cell under it. */
  ghost predicate Gravity(b: Board)
    requires b.Valid()
  {
    forall i, i', j :: b.Inside(i, j) && b.Inside(i', j) && i < i' && b.At(i, j) != EMPTY ==> b.At(i', j) != EMPTY
  }

  lemma {:induction false} TopRowStandsForBoard(b: Board)
    requires b.Valid() && Gravity(b)
    ensures TopRowFull(b) <==> AllOccupied(b)
  {
    if TopRowFull(b) {
      forall i, j | b.Inside(i, j)
        ensures b.At(i, j) != EMPTY
      {
        assert b.Inside(0, j);
      }
    }
    if AllOccupied(b) && b.rows > 0 {
      assert forall j :: 0 <= j < b.cols ==> b.Inside(0, j);
    }
  }

  function Tokens(cells: seq<char>): (n: nat)
    ensures n <= |cells|
  {
    if cells == [] then 0 else (if cells[0] == EMPTY then 0 else 1) + Tokens(cells[1..])
  }

  lemma {:induction false} TokensAfterPut(cells: seq<char>, k: nat, m: char)
    requires k < |cells| && cells[k] == EMPTY && m != EMPTY
    ensures Tokens(cells[k := m]) == Tokens(cells) + 1
  {
    if k == 0 {
      assert cells[k := m][1..] == cells[1..];
    } else {
      assert cells[k := m][1..] == cells[1..][k - 1 := m];
      TokensAfterPut(cells[1..], k - 1, m);
    }
  }

  lemma {:induction false} NoTokens(cells: seq<char>)
    requires forall k :: 0 <= k < |cells| ==> cells[k] == EMPTY
    ensures Tokens(cells) == 0
  {
    if cells != [] {
      NoTokens(cells[1..]);
    }
  }

  datatype Turn = Turn(col: nat, mark: char)

  predicate Legal(cols: nat, turns: seq<Turn>) {
    forall k :: 0 <= k < |turns| ==> turns[k].col < cols && turns[k].mark != EMPTY
  }

  /** The state after any sequence of calls of play on a new object. */
  ghost function After(rows: nat, cols: nat, turns: seq<Turn>): (g: Game)
    requires Legal(cols, turns)
    ensures g.board.Valid() && g.board.rows == rows && g.board.cols == cols
  {
    if turns == [] then NewGame(rows, cols)
    else
      var n := |turns| - 1;
      Move(After(rows, cols, turns[..n]), turns[n].col, turns[n].mark).0
  }

  /** The code that the last call of the sequence returned. */
  ghost function LastCode(rows: nat, cols: nat, turns: seq<Turn>): int
    requires Legal(cols, turns) && turns != []
  {
    var n := |turns| - 1;
    Move(After(rows, cols, turns[..n]), turns[n].col, turns[n].mark).1
  }

  /** The last call placed a token. */
  ghost predicate LastPlaced(rows: nat, cols: nat, turns: seq<Turn>)
    requires Legal(cols, turns) && turns != []
  {
    var g := After(rows, cols, turns[..|turns| - 1]);
    !g.full && Landing(g.board, turns[|turns| - 1].col, rows - 1) >= 0
  }

  ghost function Accepted(rows: nat, cols: nat, turns: seq<Turn>): nat
    requires Legal(cols, turns)
  {
    if turns == [] then 0
    else Accepted(rows, cols, turns[..|turns| - 1]) + if LastPlaced(rows, cols, turns) then 1 else 0
  }

  /** The last token placed won. */
  ghost predicate LastTokenWon(rows: nat, cols: nat, turns: seq<Turn>)
    requires Legal(cols, turns)
  {
    turns != [] &&
    if LastPlaced(rows, cols, turns) then LastCode(rows, cols, turns) == WIN
    else LastTokenWon(rows, cols, turns[..|turns| - 1])
  }

  /** Some call returned 1. */
  ghost predicate AnyWin(rows: nat, cols: nat, turns: seq<Turn>)
    requires Legal(cols, turns)
  {
    turns != [] && (LastCode(rows, cols, turns) == WIN || AnyWin(rows, cols, turns[..|turns| - 1]))
  }

  lemma {:induction false} MoveKeepsGravity(g: Game, col: int, m: char)
    requires g.board.Valid() && 0 <= col < g.board.cols && m != EMPTY && Gravity(g.board)
    ensures Gravity(Move(g, col, m).0.board)
  {
  }

  lemma {:induction false} RunKeepsGravity(rows: nat, cols: nat, turns: seq<Turn>)
    requires Legal(cols, turns)
    ensures Gravity(After(rows, cols, turns).board)
  {
    if turns == [] {
      forall i, j | 0 <= i < rows && 0 <= j < cols
        ensures NewBoard(rows, cols).At(i, j) == EMPTY
      {
        NewBoardEmpty(rows, cols, i, j);
      }
    } else {
      var n := |turns| - 1;
      RunKeepsGravity(rows, cols, turns[..n]);
      MoveKeepsGravity(After(rows, cols, turns[..n]), turns[n].col, turns[n].mark);
    }
  }

  /** Every accepted move adds one token, so there are at most rows * cols of them. */
  lemma {:induction false} AcceptedMovesAreTokens(rows: nat, cols: nat, turns: seq<Turn>)
    requires Legal(cols, turns)
    ensures Accepted(rows, cols, turns) == Tokens(After(rows, cols, turns).board.cells) <= rows * cols
  {
    if turns == [] {
      NoTokens(NewBoard(rows, cols).cells);
    } else {
      var n := |turns| - 1;
      AcceptedMovesAreTokens(rows, cols, turns[..n]);
      var g := After(rows, cols, turns[..n]);
      var row := Landing(g.board, turns[n].col, rows - 1);
      if !g.full && row >= 0 {
        IndexInside(rows, cols, row, turns[n].col);
        TokensAfterPut(g.board.cells, row * cols + turns[n].col, turns[n].mark);
      }
    }
  }

  lemma {:induction false} MoveKeepsFullness(g: Game, col: int, m: char, won: bool)
    requires g.board.Valid() && 0 <= col < g.board.cols && m != EMPTY && Gravity(g.board)
    requires g.full <==> AllOccupied(g.board) && g.board.cells != [] && !won
    ensures var placed := !g.full && Landing(g.board, col, g.board.rows - 1) >= 0;
            var (g', code) := Move(g, col, m);
            g'.full <==> AllOccupied(g'.board) && g'.board.cells != [] && !(if placed then code == WIN else won)
  {
    var row := Landing(g.board, col, g.board.rows - 1);
    if !g.full && row >= 0 {
      IndexInside(g.board.rows, g.board.cols, row, col);
      var b := g.board.Put(row, col, m);
      MoveKeepsGravity(g, col, m);
      TopRowStandsForBoard(b);
      if row > 0 {
        assert b.At(row - 1, col) == EMPTY;
        assert b.Inside(row - 1, col);
      }
    }
  }

  /** In every run the flag is set exactly when every cell is taken and the last token did not win. */
  lemma {:induction false} FullExactly(rows: nat, cols: nat, turns: seq<Turn>)
    requires Legal(cols, turns)
    ensures var g := After(rows, cols, turns);
            g.full <==> AllOccupied(g.board) && rows * cols > 0 && !LastTokenWon(rows, cols, turns)
  {
    if turns == [] {
      if rows * cols > 0 {
        assert rows > 0 && cols > 0;
        NewBoardEmpty(rows, cols, 0, 0);
        assert NewBoard(rows, cols).Inside(0, 0);
      }
    } else {
      var n := |turns| - 1;
      FullExactly(rows, cols, turns[..n]);
      RunKeepsGravity(rows, cols, turns[..n]);
      MoveKeepsFullness(After(rows, cols, turns[..n]), turns[n].col, turns[n].mark,
        LastTokenWon(rows, cols, turns[..n]));
    }
  }

  /** A column is full exactly when its top cell is taken. */
  lemma {:induction false} ColumnFullExactly(b: Board, col: int)
    requires b.Valid() && 0 <= col < b.cols && Gravity(b)
    ensures Landing(b, col, b.rows - 1) < 0 <==> b.rows == 0 || b.At(0, col) != EMPTY
  {
  }

  /** Some player has four in a row somewhere on the board. */
  ghost predicate SomeFour(b: Board)
    requires b.Valid()
  {
    exists m :: m != EMPTY && HasFour(b, m)
  }

  lemma {:induction false} EmptyBoardHasNoFour(rows: nat, cols: nat)
    ensures !SomeFour(NewBoard(rows, cols))
  {
    if m :| m != EMPTY && HasFour(NewBoard(rows, cols), m) {
      var i, j, d :| d in DIRECTIONS && Line(NewBoard(rows, cols), m, i, j, d);
      assert NewBoard(rows, cols).Holds(m, i + Along(0, d.0), j + Along(0, d.1));
      NewBoardEmpty(rows, cols, i, j);
    }
  }

  lemma {:induction false} FirstFourIsTheMovers(b: Board, i: int, j: int, m: char)
    requires b.Valid() && b.Inside(i, j) && b.At(i, j) == EMPTY && m != EMPTY && !SomeFour(b)
    ensures WinThrough(b.Put(i, j, m), m, i, j) <==> SomeFour(b.Put(i, j, m))
  {
    LocalIsGlobal(b, i, j, m);
    forall m' | m' != EMPTY && m' != m
      ensures !HasFour(b.Put(i, j, m), m')
    {
      OtherMarkKeepsFours(b, i, j, m, m');
    }
  }

  lemma {:induction false} MoveMakesFour(g: Game, col: int, m: char)
    requires g.board.Valid() && 0 <= col < g.board.cols && m != EMPTY
    ensures SomeFour(Move(g, col, m).0.board) <==> SomeFour(g.board) || Move(g, col, m).1 == WIN
  {
    var row := Landing(g.board, col, g.board.rows - 1);
    if !g.full && row >= 0 {
      if SomeFour(g.board) {
        var m' :| m' != EMPTY && HasFour(g.board, m');
        FourStays(g.board, row, col, m, m');
      } else {
        FirstFourIsTheMovers(g.board, row, col, m);
      }
    }
  }

  /** Some call has returned 1 exactly when some player has four in a row somewhere on the board. */
  lemma {:induction false} WinsAreFours(rows: nat, cols: nat, turns: seq<Turn>)
    requires Legal(cols, turns)
    ensures AnyWin(rows, cols, turns) <==> SomeFour(After(rows, cols, turns).board)
  {
    if turns == [] {
      EmptyBoardHasNoFour(rows, cols);
    } else {
      var n := |turns| - 1;
      WinsAreFours(rows, cols, turns[..n]);
      MoveMakesFour(After(rows, cols, turns[..n]), turns[n].col, turns[n].mark);
    }
  }

  /** The code of a move on a board without a win that obeys gravity, from the boards before and after it. */
  lemma {:induction false} MoveCodeExactly(g: Game, col: int, m: char)
    requires g.board.Valid() && 0 <= col < g.board.cols && m != EMPTY && Gravity(g.board)
    requires !HasFour(g.board, m)
    requires g.full <==> AllOccupied(g.board) && g.board.rows > 0
    ensures var after := Move(g, col, m).0.board;
            Move(g, col, m).1 ==
              if HasFour(after, m) then WIN
              else if g.board.rows > 0 && AllOccupied(after) then BOARD_FULL
              else if g.board.rows == 0 || g.board.At(0, col) != EMPTY then COLUMN_FULL
              else PLACED
  {
    var row := Landing(g.board, col, g.board.rows - 1);
    PlayDetectsWin(g, col, m);
    ColumnFullExactly(g.board, col);
    if !g.full && row >= 0 {
      MoveKeepsGravity(g, col, m);
      TopRowStandsForBoard(g.board.Put(row, col, m));
      if row > 0 {
        assert !AllOccupied(g.board.Put(row, col, m)) by {
          assert g.board.Put(row, col, m).At(row - 1, col) == EMPTY;
        }
      }
    }
  }

  /** The code of every call up to and including the first win, from the boards before and after it alone. */
  lemma {:induction false} CodesExactly(rows: nat, cols: nat, turns: seq<Turn>)
    requires Legal(cols, turns) && turns != []
    requires !AnyWin(rows, cols, turns[..|turns| - 1])
    ensures var before := After(rows, cols, turns[..|turns| - 1]).board;
            var after := After(rows, cols, turns).board;
            var t := turns[|turns| - 1];
            LastCode(rows, cols, turns) ==
              if HasFour(after, t.mark) then WIN
              else if rows > 0 && AllOccupied(after) then BOARD_FULL
              else if rows == 0 || before.At(0, t.col) != EMPTY then COLUMN_FULL
              else PLACED
  {
    var n := |turns| - 1;
    WinsAreFours(rows, cols, turns[..n]);
    RunKeepsGravity(rows, cols, turns[..n]);
    FullExactly(rows, cols, turns[..n]);
    NoWinNoLastWin(rows, cols, turns[..n]);
    assert rows > 0 ==> rows * cols > 0;
    MoveCodeExactly(After(rows, cols, turns[..n]), turns[n].col, turns[n].mark);
  }

  lemma {:induction false} NoWinNoLastWin(rows: nat, cols: nat, turns: seq<Turn>)
    requires Legal(cols, turns) && !AnyWin(rows, cols, turns)
    ensures !LastTokenWon(rows, cols, turns)
  {
    if turns != [] {
      NoWinNoLastWin(rows, cols, turns[..|turns| - 1]);
    }
  }

  /** Without a win so far the flag stands for a full board. */
  lemma {:induction false} FullWithoutWin(rows: nat, cols: nat, turns: seq<Turn>)
    requires Legal(cols, turns) && !AnyWin(rows, cols, turns) && rows > 0 && cols > 0
    ensures After(rows, cols, turns).full <==> AllOccupied(After(rows, cols, turns).board)
  {
    FullExactly(rows, cols, turns);
    NoWinNoLastWin(rows, cols, turns);
    assert rows * cols > 0;
  }

  /** Filling a cell of a single row of four that keeps another free cell neither wins nor fills the board. */
  lemma {:induction false} OneRowMove(b: Board, col: nat, free: nat)
    requires b.Valid() && b.rows == 1 && b.cols == 4
    requires col < 4 && free < 4 && col != free && b.At(0, col) == EMPTY && b.At(0, free) == EMPTY
    ensures Move(Game(b, false), col, 'X') == (Game(b.Put(0, col, 'X'), false), PLACED)
  {
    var b' := b.Put(0, col, 'X');
    assert b'.At(0, free) == EMPTY;
    if WinThrough(b', 'X', 0, col) {
      WinThroughIsFour(b', 'X', 0, col);
      var i, j, d :| d in DIRECTIONS && Line(b', 'X', i, j, d);
      OneRowLine(b', i, j, d, free);
    }
  }

  lemma {:induction false} OneRowLine(b: Board, i: int, j: int, d: (int, int), k: nat)
    requires b.Valid() && b.rows == 1 && b.cols == 4 && d in DIRECTIONS && Line(b, 'X', i, j, d) && k < 4
    ensures b.At(0, k) == 'X'
  {
    assert b.Holds('X', i + Along(0, d.0), j + Along(0, d.1));
    assert b.Holds('X', i + Along(3, d.0), j + Along(3, d.1));
    assert d == (0, 1) && i == 0 && j == 0;
    assert b.Holds('X', i + Along(k, d.0), j + Along(k, d.1));
  }

  /** The flag can stay unset on a full board: the last cell of a 1 x 4 board wins. */
  lemma {:induction false} WinInLastCell(turns: seq<Turn>)
    requires turns == [Turn(0, 'X'), Turn(1, 'X'), Turn(2, 'X'), Turn(3, 'X')]
    ensures var g := After(1, 4, turns);
            AllOccupied(g.board) && !g.full && LastCode(1, 4, turns) == WIN
  {
    var t1, t2, t3 := turns[..1], turns[..2], turns[..3];
    var b0 := NewBoard(1, 4);
    forall j | 0 <= j < 4
      ensures b0.At(0, j) == EMPTY
    {
      NewBoardEmpty(1, 4, 0, j);
    }
    var b1, b2 := b0.Put(0, 0, 'X'), b0.Put(0, 0, 'X').Put(0, 1, 'X');
    var b3 := b2.Put(0, 2, 'X');
    assert After(1, 4, t1) == Game(b1, false) by {
      assert t1[..0] == [];
      OneRowMove(b0, 0, 3);
    }
    assert After(1, 4, t2) == Game(b2, false) by {
      assert t2[..1] == t1;
      OneRowMove(b1, 1, 3);
    }
    assert After(1, 4, t3) == Game(b3, false) by {
      assert t3[..2] == t2;
      OneRowMove(b2, 2, 3);
    }
    LastCellWins(b3);
  }

  lemma {:induction false} LastCellWins(b: Board)
    requires b.Valid() && b.rows == 1 && b.cols == 4 && b.At(0, 3) == EMPTY
    requires forall j :: 0 <= j < 3 ==> b.At(0, j) == 'X'
    ensures var (g, code) := Move(Game(b, false), 3, 'X');
            AllOccupied(g.board) && !g.full && code == WIN
  {
    var b' := b.Put(0, 3, 'X');
    assert LineAround(b', 'X', 0, 3, DIRECTIONS[2], 3);
    assert LineThrough(b', 'X', 0, 3, DIRECTIONS[2]);
  }
}
