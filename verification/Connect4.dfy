// The Connect 4 object: a flat array of cells, updated in place.

module Connect4 {
  import opened Board

  class Connect4 {
    const rows: nat
    const cols: nat
    const cells: array<char>
    var full: bool
    var player: char
    var adversary: char

    ghost predicate Valid()
      reads this
    {
      cells.Length == rows * cols
    }

    ghost function Snapshot(): (b: Board)
      reads this, cells
      requires Valid()
      ensures b.Valid() && b.rows == rows && b.cols == cols
    {
      Board(rows, cols, cells[..])
    }

    ghost function State(): (g: Game)
      reads this, cells
      requires Valid()
      ensures g.board.Valid() && g.board.rows == rows && g.board.cols == cols
    {
      Game(Snapshot(), full)
    }

    /** The mark a caller means: the default player when none is given. */
    function Mark(m: char): char
      reads this
    {
      if m == EMPTY then player else m
    }

    /** The source leaves both marks unset; so does this. */
    constructor (rows: nat, cols: nat)
      ensures Valid() && fresh(cells) && this.rows == rows && this.cols == cols
      ensures State() == NewGame(rows, cols)
    {
      this.rows := rows;
      this.cols := cols;
      full := false;
      cells := new char[rows * cols](k => EMPTY);
      player := *;
      adversary := *;
      new;
      assert cells[..] == NewBoard(rows, cols).cells;
    }

    method Play(col: int, mark: char) returns (r: int)
      requires Valid() && 0 <= col < cols
      modifies this`full, cells
      ensures Valid()
      ensures (State(), r) == Move(old(State()), col, old(Mark(mark)))
    {
      var m := mark;
      if m == EMPTY {
        m := player;
      }
      if full {
        return BOARD_FULL;
      }
      ghost var before := Snapshot();
      var i := rows - 1;
      while i >= 0
        invariant -1 <= i < rows
        invariant Snapshot() == before && !full
        invariant Landing(before, col, rows - 1) == Landing(before, col, i)
      {
        IndexInside(rows, cols, i, col);
        if cells[i * cols + col] == EMPTY {
          cells[i * cols + col] := m;
          assert Snapshot() == before.Put(i, col, m);
          var w := CheckWin(i, col, m);
          assert w <==> WinThrough(Snapshot(), old(Mark(mark)), i, col);
          if w {
            return WIN;
          }
          if i == 0 {
            var top := CheckFullTopRow();
            if top {
              full := true;
              return BOARD_FULL;
            }
          }
          return PLACED;
        }
        i := i - 1;
      }
      return COLUMN_FULL;
    }

    /** Counts the tokens of `m` next to (row, col), going one way. */
    method CountNexts(m: char, row: int, col: int, di: int, dj: int) returns (count: nat)
      requires Valid() && Snapshot().Inside(row, col) && IsDirection(di, dj)
      ensures MaximalRun(Snapshot(), m, row, col, di, dj, count)
    {
      count := 0;
      ghost var b := Snapshot();
      var i, j := row + di, col + dj;
      while i >= 0 && j >= 0 && i < rows && j < cols
        invariant i == row + Along(count + 1, di) && j == col + Along(count + 1, dj)
        invariant forall k :: 1 <= k <= count ==> b.Holds(m, row + Along(k, di), col + Along(k, dj))
        decreases if di == 1 then rows - i else if di == -1 then i + 1 else if dj == 1 then cols - j else j + 1
      {
        IndexInside(rows, cols, i, j);
        AlongNext(count + 1, di);
        AlongNext(count + 1, dj);
        assert b.At(i, j) == cells[i * cols + j];
        if cells[i * cols + j] != m {
          assert !b.Holds(m, i, j);
          break;
        }
        count := count + 1;
        i, j := i + di, j + dj;
      }
      assert !b.Holds(m, i, j);
    }

    /** Does a token of the player on (row, col) complete a line of four? */
    method CheckWin(row: int, col: int, mark: char) returns (win: bool)
      requires Valid() && Snapshot().Inside(row, col)
      ensures win <==> WinThrough(Snapshot(), Mark(mark), row, col)
    {
      var m := mark;
      if m == EMPTY {
        m := player;
      }
      ghost var b := Snapshot();
      ghost var n := 0; // directions visited so far
      var di := 1;
      while di >= 0 && di != -1
        invariant (di == 1 && n == 0) || (di == 0 && n == 2) || (di == -2 && n == 4)
        invariant forall k :: 0 <= k < n ==> !LineThrough(b, m, row, col, DIRECTIONS[k])
        decreases di + 2
      {
        ghost var d0 := di;
        var dj := 1;
        while dj >= 0 && di != -1
          invariant (di == 1 && 0 <= n <= 2 && dj == 1 - n) || (di == 0 && 2 <= n <= 3 && dj == 3 - n)
                 || (di == -1 && dj == 0 && n == 4)
          invariant di <= d0 && (d0 == 1 ==> di == 1)
          invariant forall k :: 0 <= k < n ==> !LineThrough(b, m, row, col, DIRECTIONS[k])
          decreases 4 - n
        {
          if di == 0 && dj == 0 {
            di := -1;
            dj := 1;
          }
          assert DIRECTIONS[n] == (di, dj);
          var forward := CountNexts(m, row, col, di, dj);
          var backward := CountNexts(m, row, col, -di, -dj);
          RunsMakeLine(b, m, row, col, DIRECTIONS[n], forward, backward);
          if forward + backward >= N_IN_A_ROW - 1 {
            assert DIRECTIONS[n] in DIRECTIONS;
            return true;
          }
          n := n + 1;
          dj := dj - 1;
        }
        di := di - 1;
      }
      return false;
    }

    method CheckFullTopRow() returns (top: bool)
      requires Valid() && rows > 0
      ensures top <==> TopRowFull(Snapshot())
    {
      var j := 0;
      while j < cols
        invariant 0 <= j <= cols
        invariant forall k :: 0 <= k < j ==> Snapshot().At(0, k) != EMPTY
      {
        IndexInside(rows, cols, 0, j);
        if cells[j] == EMPTY {
          assert Snapshot().At(0, j) == EMPTY;
          return false;
        }
        j := j + 1;
      }
      return true;
    }

    method SetPlayer(mark: char) returns (ok: bool)
      modifies this`player, this`adversary
      ensures ok <==> mark in {'X', 'x', 'O', 'o'}
      ensures ok ==> (player, adversary) == MarksFor(mark)
      ensures !ok ==> player == old(player) && adversary == old(adversary)
    {
      if mark == 'X' || mark == 'x' || mark == 'O' || mark == 'o' {
        player := if mark == 'x' then 'X' else if mark == 'o' then 'O' else mark;
        adversary := if player == 'X' then 'O' else 'X';
        return true;
      }
      return false;
    }
  }

  /** The two marks, own and adversary's, that a choice stands for. */
  function MarksFor(mark: char): (r: (char, char))
    requires mark in {'X', 'x', 'O', 'o'}
    ensures {r.0, r.1} == {'X', 'O'}
  {
    if mark == 'X' || mark == 'x' then ('X', 'O') else ('O', 'X')
  }
}
