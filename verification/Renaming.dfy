// A game does not depend on which marks the players chose.

module Renaming {
  import opened Board

  /** An injective change of marks that leaves free cells free. */
  ghost predicate IsRenaming(f: char -> char) {
    && f(EMPTY) == EMPTY
    && forall c, c' :: f(c) == f(c') ==> c == c'
  }

  function Renamed(f: char -> char, b: Board): (r: Board)
    requires b.Valid()
    ensures r.Valid() && r.rows == b.rows && r.cols == b.cols
    ensures forall i, j :: b.Inside(i, j) ==> r.At(i, j) == f(b.At(i, j))
  {
    var r := Board(b.rows, b.cols, seq(|b.cells|, k requires 0 <= k < |b.cells| => f(b.cells[k])));
    assert forall i, j | b.Inside(i, j) :: r.At(i, j) == f(b.At(i, j)) by {
      forall i, j | b.Inside(i, j)
        ensures r.At(i, j) == f(b.At(i, j))
      {
        IndexInside(b.rows, b.cols, i, j);
      }
    }
    r
  }

  function RenamedGame(f: char -> char, g: Game): (r: Game)
    requires g.board.Valid()
    ensures r.board.Valid() && r.board.cols == g.board.cols
  {
    Game(Renamed(f, g.board), g.full)
  }

  lemma {:induction false} LandingKept(f: char -> char, b: Board, col: int, i: int)
    requires IsRenaming(f) && b.Valid() && 0 <= col < b.cols && -1 <= i < b.rows
    ensures Landing(Renamed(f, b), col, i) == Landing(b, col, i)
  {
    if i >= 0 {
      LandingKept(f, b, col, i - 1);
    }
  }

  lemma {:induction false} LinesKept(f: char -> char, b: Board, m: char, row: int, col: int)
    requires IsRenaming(f) && b.Valid()
    ensures WinThrough(Renamed(f, b), f(m), row, col) <==> WinThrough(b, m, row, col)
  {
    var r := Renamed(f, b);
    assert forall i, j :: r.Holds(f(m), i, j) <==> b.Holds(m, i, j);
    forall d, s | d in DIRECTIONS && 0 <= s < N_IN_A_ROW
      ensures LineAround(r, f(m), row, col, d, s) <==> LineAround(b, m, row, col, d, s)
    {
    }
    forall d | d in DIRECTIONS
      ensures LineThrough(r, f(m), row, col, d) <==> LineThrough(b, m, row, col, d)
    {
    }
  }

  lemma {:induction false} PutRenamed(f: char -> char, b: Board, i: int, j: int, m: char)
    requires b.Valid() && b.Inside(i, j)
    ensures Renamed(f, b.Put(i, j, m)) == Renamed(f, b).Put(i, j, f(m))
  {
    IndexInside(b.rows, b.cols, i, j);
  }

  /** Renaming the marks and playing commute, and the returned code is the same. */
  lemma {:induction false} MoveCommutes(f: char -> char, g: Game, col: int, m: char)
    requires IsRenaming(f) && g.board.Valid() && 0 <= col < g.board.cols
    ensures Move(RenamedGame(f, g), col, f(m)) == (RenamedGame(f, Move(g, col, m).0), Move(g, col, m).1)
  {
    LandingKept(f, g.board, col, g.board.rows - 1);
    var row := Landing(g.board, col, g.board.rows - 1);
    if !g.full && row >= 0 {
      var b := g.board.Put(row, col, m);
      PutRenamed(f, g.board, row, col, m);
      LinesKept(f, b, m, row, col);
    }
  }

  lemma {:induction false} FourKept(f: char -> char, b: Board, m: char)
    requires IsRenaming(f) && b.Valid()
    ensures HasFour(Renamed(f, b), f(m)) <==> HasFour(b, m)
  {
    var r := Renamed(f, b);
    assert forall i, j :: r.Holds(f(m), i, j) <==> b.Holds(m, i, j);
    forall i, j, d | d in DIRECTIONS
      ensures Line(r, f(m), i, j, d) <==> Line(b, m, i, j, d)
    {
    }
  }

  /** The renaming that exchanges the two marks. */
  function Swap(c: char): char {
    if c == 'X' then 'O' else if c == 'O' then 'X' else c
  }

  lemma {:induction false} SwapIsRenaming()
    ensures IsRenaming(Swap)
  {
  }
}
