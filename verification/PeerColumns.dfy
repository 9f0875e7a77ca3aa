// The columns that are typed and received are the columns that the tokens of both sides stand in.

module PeerColumns {
  import opened Board
  import opened BoardTheorems
  import opened Renaming
  import opened MultiPlayer
  import opened TwoPeers
  import opened Columns

  // ----- What is typed -----

  /** Which digit stands for which column, the left one being 0, and that nothing else does. */
  lemma {:induction false} DigitsAreColumns(c: char)
    ensures IsColumn(c) <==> c in "1234567"
    ensures c == '1' ==> ColumnOf(c) == 0
    ensures c == '2' ==> ColumnOf(c) == 1
    ensures c == '3' ==> ColumnOf(c) == 2
    ensures c == '4' ==> ColumnOf(c) == 3
    ensures c == '5' ==> ColumnOf(c) == 4
    ensures c == '6' ==> ColumnOf(c) == 5
    ensures c == '7' ==> ColumnOf(c) == 6
  {
    var digits := "1234567";
    assert digits[0] == '1' && digits[1] == '2' && digits[2] == '3' && digits[3] == '4' && digits[4] == '5' &&
           digits[5] == '6' && digits[6] == '7';
    if IsColumn(c) {
      assert c == digits[(c as int) - ('1' as int)];
    }
  }

  /** Which letter gives which own mark, and that the adversary gets the other one. */
  lemma {:induction false} LettersAreMarks(p: Peer, c: char)
    requires p.Valid() && p.phase == ChoosingMark
    ensures var p' := Choose(p, Word(c));
            && (c == 'X' || c == 'x' ==> p'.me == 'X' && p'.adv == 'O')
            && (c == 'O' || c == 'o' ==> p'.me == 'O' && p'.adv == 'X')
            && (c !in {'X', 'x', 'O', 'o'} ==> p' == p)
            && (c in {'X', 'x', 'O', 'o'} ==> p'.phase == if p.starts then MyTurn else TheirTurn)
            && p'.game == p.game
  {
  }

  /** A digit typed at the prompt sends that column and nothing else, unless the column is full; the move is recorded
      and under way to the other side. */
  lemma {:induction false} TypedColumnIsSent(t: Table, c: char, t': Table, k: nat)
    requires t.Valid() && t.a.phase == MyTurn && k < COLS && c == "1234567"[k] && StepA(t, Line(Word(c)), t')
    ensures if Move(t.a.game, k, t.a.me).1 == COLUMN_FULL then t' == t
            else t'.ab == t.ab + [k] && t'.moves == t.moves + [Turn(k, 'X')] && t'.ba == t.ba && t'.b == t.b
  {
    hide Move;
    DigitsAreColumns(c);
  }

  // ----- Both boards -----

  /** The marks that the moves of a column leave, where the first mover's is `x` and the other one's is `o`. */
  function MarksIn(moves: seq<Turn>, col: int, x: char, o: char): seq<char> {
    if moves == [] then []
    else
      var last := moves[|moves| - 1];
      MarksIn(moves[..|moves| - 1], col, x, o) +
      if last.col == col then [if last.mark == 'X' then x else o] else []
  }

  lemma {:induction false} PlacedGoesOn(moves: seq<Turn>)
    requires GoodMoves(moves) && moves != []
    ensures LastAccepted(ROWS, COLS, moves)
  {
    hide Move;
    var p := moves[..|moves| - 1];
    assert moves[..|moves|] == moves;
    if p != [] {
      LastTurn(ROWS, COLS, p);
      assert LastCode(ROWS, COLS, p) == PLACED;
      PlacedIsNotFull(After(ROWS, COLS, p[..|p| - 1]), p[|p| - 1].col, p[|p| - 1].mark);
    }
  }

  lemma {:induction false} PlacedIsNotFull(g: Game, col: int, m: char)
    requires g.board.Valid() && 0 <= col < g.board.cols && Move(g, col, m).1 == PLACED
    ensures !Move(g, col, m).0.full
  {
  }

  lemma {:induction false} AllPlayed(moves: seq<Turn>, col: int)
    requires GoodMoves(moves)
    ensures Played(ROWS, COLS, moves, col) == MarksIn(moves, col, 'X', 'O')
  {
    hide Move, After, LastCode;
    if moves != [] {
      PlacedGoesOn(moves);
      GoodPrefix(moves);
      AllPlayed(moves[..|moves| - 1], col);
      hide LastAccepted;
      assert moves[|moves| - 1].mark in {'X', 'O'};
    }
  }

  lemma {:induction false} ReadRenamed(f: char -> char, b: Board, col: int, i: int)
    requires IsRenaming(f) && b.Valid() && 0 <= col < b.cols && -1 <= i < b.rows
    ensures |ReadUp(Renamed(f, b), col, i)| == |ReadUp(b, col, i)|
    ensures forall k :: 0 <= k < |ReadUp(b, col, i)| ==> ReadUp(Renamed(f, b), col, i)[k] == f(ReadUp(b, col, i)[k])
  {
    if i >= 0 {
      ReadRenamed(f, b, col, i - 1);
    }
  }

  lemma {:induction false} MarksRenamed(f: char -> char, moves: seq<Turn>, col: int, x: char, o: char)
    ensures |MarksIn(moves, col, f(x), f(o))| == |MarksIn(moves, col, x, o)|
    ensures forall k :: 0 <= k < |MarksIn(moves, col, x, o)| ==>
              MarksIn(moves, col, f(x), f(o))[k] == f(MarksIn(moves, col, x, o)[k])
  {
    if moves != [] {
      MarksRenamed(f, moves[..|moves| - 1], col, x, o);
    }
  }

  lemma {:induction false} StackRenamed(b: Board, moves: seq<Turn>, col: int)
    requires b.Valid() && 0 <= col < b.cols && Stack(Renamed(Swap, b), col, MarksIn(moves, col, 'X', 'O'))
    ensures Stack(b, col, MarksIn(moves, col, 'O', 'X'))
  {
    SwapIsRenaming();
    ReadRenamed(Swap, b, col, b.rows - 1);
    MarksRenamed(Swap, moves, col, 'O', 'X');
    var s, marks := ReadUp(b, col, b.rows - 1), MarksIn(moves, col, 'O', 'X');
    assert Swap('O') == 'X' && Swap('X') == 'O';
    forall k | 0 <= k < |s|
      ensures s[k] == marks[k]
    {
      assert Swap(s[k]) == Swap(marks[k]);
    }
    forall k | 0 <= k < b.rows - |marks|
      ensures b.At(k, col) == EMPTY
    {
      assert Renamed(Swap, b).At(k, col) == EMPTY;
    }
  }

  lemma {:induction false} SideColumns(p: Peer, role: char, moves: seq<Turn>, col: int)
    requires GoodMoves(moves) && InSync(p, role, moves) && 0 <= col < COLS
    ensures Stack(p.game.board, col,
              if role == 'X' then MarksIn(moves, col, p.me, p.adv) else MarksIn(moves, col, p.adv, p.me))
  {
    hide Move, LastCode, Stack;
    ColumnsAreTurns(ROWS, COLS, moves, col);
    AllPlayed(moves, col);
    if p.me == EMPTY {
      EmptyStack(ROWS, COLS, col);
    } else if p.me != role {
      StackRenamed(p.game.board, moves, col);
    }
  }

  lemma {:induction false} GoodFront(moves: seq<Turn>, n: nat)
    requires GoodMoves(moves) && n <= |moves|
    ensures GoodMoves(moves[..n])
  {
    hide LastCode;
    var p := moves[..n];
    forall k | 0 <= k <= n
      ensures p[..k] == moves[..k]
    {
    }
  }

  lemma {:induction false} FrontColumns(p: Peer, role: char, moves: seq<Turn>, n: nat, col: int)
    requires GoodMoves(moves) && n <= |moves| && InSync(p, role, moves[..n]) && 0 <= col < COLS
    ensures p.Valid()
    ensures Stack(p.game.board, col, if role == 'X' then MarksIn(moves[..n], col, p.me, p.adv)
                                     else MarksIn(moves[..n], col, p.adv, p.me))
  {
    hide GoodMoves, Stack, MarksIn, LastCode, After, Expected;
    GoodFront(moves, n);
    SideColumns(p, role, moves[..n], col);
  }

  lemma {:induction false} SidesColumns(t: Table, col: int)
    requires Inv(t) && 0 <= col < COLS
    ensures t.Valid() && |t.ab| <= |t.moves| && |t.ba| <= |t.moves|
    ensures Stack(t.a.game.board, col, MarksIn(t.moves[..|t.moves| - |t.ba|], col, t.a.me, t.a.adv))
    ensures Stack(t.b.game.board, col, MarksIn(t.moves[..|t.moves| - |t.ab|], col, t.b.adv, t.b.me))
  {
    hide GoodMoves, InSync, Stack, MarksIn;
    InvFacts(t);
    FrontColumns(t.a, 'X', t.moves, |t.moves| - |t.ba|, col);
    FrontColumns(t.b, 'O', t.moves, |t.moves| - |t.ab|, col);
  }

  /** In every state of every run of two sides, whatever marks they chose: each column of either board holds, from the
      bottom and in order, the marks of the moves in that column that the side has seen. */
  lemma {:induction false} BoardsAreMoves(run: seq<Table>, n: nat, col: int)
    requires IsRun(run) && n < |run| && 0 <= col < COLS
    ensures var t := run[n];
            && t.Valid() && |t.ab| <= |t.moves| && |t.ba| <= |t.moves|
            && Stack(t.a.game.board, col, MarksIn(t.moves[..|t.moves| - |t.ba|], col, t.a.me, t.a.adv))
            && Stack(t.b.game.board, col, MarksIn(t.moves[..|t.moves| - |t.ab|], col, t.b.adv, t.b.me))
  {
    hide IsRun, GoodMoves, InSync, InFlight, Stack, MarksIn;
    RunInv(run, n);
    SidesColumns(run[n], col);
  }
}
