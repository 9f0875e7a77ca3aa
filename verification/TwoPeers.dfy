// Two game loops joined by a reliable FIFO link in each direction: they always agree.

module TwoPeers {
  import opened Board
  import opened BoardTheorems
  import opened Renaming
  import opened MultiPlayer

  /** What one side can do: handle a line typed by its player, handle a received move, notice that the link is gone. */
  datatype Action = Line(input: Input) | Receive | LinkLost

  ghost predicate CanAct(p: Peer, inbox: seq<nat>, other: Peer, act: Action) {
    match act
    case Line(input) => p.phase == ChoosingMark || (p.phase == MyTurn && input != Word('0'))
    case Receive => p.phase == TheirTurn && inbox != [] && inbox[0] < COLS
    case LinkLost => p.phase == TheirTurn && inbox == [] && (other.phase == Failed || other.phase.Done?)
  }

  ghost function Act(p: Peer, inbox: seq<nat>, other: Peer, act: Action): (r: (Peer, Sent))
    requires p.Valid() && CanAct(p, inbox, other, act)
    ensures r.0.Valid()
  {
    match act
    case Line(input) => if p.phase == ChoosingMark then (Choose(p, input), Nothing) else PlayLine(p, input, true)
    case Receive => (PlayReceived(p, inbox[0]), Nothing)
    case LinkLost => (p.(phase := Failed), Nothing)
  }

  /** Side `a` starts; `ab` and `ba` are the moves under way; `moves` is the history of all moves sent, `a`
      playing X. */
  datatype Table = Table(a: Peer, b: Peer, ab: seq<nat>, ba: seq<nat>, moves: seq<Turn>) {
    ghost predicate Valid() {
      a.Valid() && b.Valid()
    }
  }

  function Start(): Table {
    Table(NewPeer(true), NewPeer(false), [], [], [])
  }

  function Consumed(act: Action, inbox: seq<nat>): seq<nat> {
    if act.Receive? && inbox != [] then inbox[1..] else inbox
  }

  function Extended<T>(s: seq<T>, sent: Sent, x: T): seq<T> {
    if sent.Nothing? then s else s + [x]
  }

  function Column(sent: Sent): nat {
    if sent.MoveSent? && sent.col >= 0 then sent.col else 0
  }

  ghost predicate StepA(t: Table, act: Action, t': Table)
    requires t.Valid()
  {
    CanAct(t.a, t.ba, t.b, act) &&
    var (a, sent) := Act(t.a, t.ba, t.b, act);
    t' == Table(a, t.b, Extended(t.ab, sent, Column(sent)), Consumed(act, t.ba),
        Extended(t.moves, sent, Turn(Column(sent), 'X')))
  }

  ghost predicate StepB(t: Table, act: Action, t': Table)
    requires t.Valid()
  {
    CanAct(t.b, t.ab, t.a, act) &&
    var (b, sent) := Act(t.b, t.ab, t.a, act);
    t' == Table(t.a, b, Consumed(act, t.ab), Extended(t.ba, sent, Column(sent)),
        Extended(t.moves, sent, Turn(Column(sent), 'O')))
  }

  ghost predicate Step(t: Table, t': Table) {
    t.Valid() && exists act :: StepA(t, act, t') || StepB(t, act, t')
  }

  ghost predicate IsRun(run: seq<Table>) {
    && run != [] && run[0] == Start()
    && forall k :: 0 < k < |run| ==> Step(run[k - 1], run[k])
  }

  // ----- What both sides know about the moves sent so far -----

  function Role(k: nat): char {
    if k % 2 == 0 then 'X' else 'O'
  }

  function Other(role: char): char {
    if role == 'X' then 'O' else 'X'
  }

  /** Moves in turn, each placed, none after the end of the game. */
  ghost predicate GoodMoves(moves: seq<Turn>) {
    && (forall k :: 0 <= k < |moves| ==> moves[k].col < COLS && moves[k].mark == Role(k))
    && Legal(COLS, moves)
    && (forall k :: 0 < k <= |moves| ==> LastCode(ROWS, COLS, moves[..k]) != COLUMN_FULL)
    && (forall k :: 0 < k < |moves| ==> LastCode(ROWS, COLS, moves[..k]) == PLACED)
  }

  /** The phase of a side that has seen exactly these moves. */
  ghost function Expected(role: char, moves: seq<Turn>): Phase
    requires Legal(COLS, moves)
  {
    if moves == [] then (if role == 'X' then MyTurn else TheirTurn)
    else
      var last := moves[|moves| - 1].mark;
      var code := LastCode(ROWS, COLS, moves);
      if code == WIN then Done(if last == role then Won else Lost)
      else if code == BOARD_FULL then Done(Draw)
      else if last == role then TheirTurn else MyTurn
  }

  /** The game of a side in terms of roles: side `a` is X and side `b` is O whatever marks they chose. */
  ghost function Canon(p: Peer, role: char): (g: Game)
    requires p.Valid()
    ensures g.board.Valid() && g.board.cols == COLS
  {
    if p.me == role then p.game else RenamedGame(Swap, p.game)
  }

  /** The side has seen exactly these moves. */
  ghost predicate InSync(p: Peer, role: char, moves: seq<Turn>) {
    && p.Valid() && role in {'X', 'O'} && Legal(COLS, moves)
    && p.starts == (role == 'X')
    && Canon(p, role) == After(ROWS, COLS, moves)
    && (p.me == EMPTY ==> moves == [] && p.game == NewGame(ROWS, COLS) && p.phase in {ChoosingMark, Failed})
    && (p.me != EMPTY ==> {p.me, p.adv} == {'X', 'O'} && p.phase in {Failed, Expected(role, moves)})
  }

  ghost predicate InFlight(queue: seq<nat>, moves: seq<Turn>) {
    && |queue| <= |moves|
    && forall k :: 0 <= k < |queue| ==> queue[k] == moves[|moves| - |queue| + k].col
  }

  ghost predicate Inv(t: Table) {
    && GoodMoves(t.moves)
    && InFlight(t.ab, t.moves) && InFlight(t.ba, t.moves)
    && |t.ab| + |t.ba| <= 1
    && (t.ab != [] ==> t.moves[|t.moves| - 1].mark == 'X')
    && (t.ba != [] ==> t.moves[|t.moves| - 1].mark == 'O')
    && InSync(t.a, 'X', t.moves[..|t.moves| - |t.ba|])
    && InSync(t.b, 'O', t.moves[..|t.moves| - |t.ab|])
  }

  // ----- One side -----

  lemma {:induction false} CanonMove(p: Peer, role: char, col: nat, own: bool)
    requires p.Valid() && role in {'X', 'O'} && {p.me, p.adv} == {'X', 'O'} && col < COLS
    ensures var (g, code) := Move(p.game, col, if own then p.me else p.adv);
            Move(Canon(p, role), col, if own then role else Other(role)) == (Canon(p.(game := g), role), code)
  {
    if p.me != role {
      SwapIsRenaming();
      MoveCommutes(Swap, p.game, col, if own then p.me else p.adv);
    }
  }

  lemma {:induction false} GoodExtension(moves: seq<Turn>, t: Turn)
    requires GoodMoves(moves) && t.col < COLS && t.mark == Role(|moves|)
    requires moves != [] ==> LastCode(ROWS, COLS, moves) == PLACED
    requires Move(After(ROWS, COLS, moves), t.col, t.mark).1 != COLUMN_FULL
    ensures GoodMoves(moves + [t])
    ensures LastCode(ROWS, COLS, moves + [t]) == Move(After(ROWS, COLS, moves), t.col, t.mark).1
    ensures After(ROWS, COLS, moves + [t]) == Move(After(ROWS, COLS, moves), t.col, t.mark).0
  {
    hide Move;
    var ms := moves + [t];
    assert ms[..|moves|] == moves;
    forall k | 0 < k <= |ms|
      ensures LastCode(ROWS, COLS, ms[..k]) != COLUMN_FULL
      ensures k < |ms| ==> LastCode(ROWS, COLS, ms[..k]) == PLACED
    {
      if k <= |moves| {
        assert ms[..k] == moves[..k];
        assert k == |moves| ==> moves[..k] == moves;
      } else {
        assert ms[..k] == ms;
      }
    }
  }

  lemma {:induction false} ChooseInSync(p: Peer, role: char, moves: seq<Turn>, input: Input)
    requires InSync(p, role, moves) && p.phase == ChoosingMark
    ensures moves == [] && InSync(Choose(p, input), role, [])
  {
    hide Move, LastCode;
    SwapNewGame();
  }

  lemma {:induction false} SwapNewGame()
    ensures RenamedGame(Swap, NewGame(ROWS, COLS)) == NewGame(ROWS, COLS)
  {
    assert Renamed(Swap, NewBoard(ROWS, COLS)).cells == NewBoard(ROWS, COLS).cells;
  }

  lemma {:induction false} OnGoing(role: char, moves: seq<Turn>)
    requires GoodMoves(moves) && moves != [] && Expected(role, moves) in {MyTurn, TheirTurn}
    ensures LastCode(ROWS, COLS, moves) == PLACED
  {
    assert moves[..|moves|] == moves;
  }

  lemma {:induction false} ColumnInSync(p: Peer, role: char, moves: seq<Turn>, col: nat)
    requires InSync(p, role, moves) && GoodMoves(moves) && p.phase == MyTurn && role == Role(|moves|) && col < COLS
    requires Move(p.game, col, p.me).1 != COLUMN_FULL
    ensures var p' := PlayColumn(p, col, true).0;
            GoodMoves(moves + [Turn(col, role)]) && InSync(p', role, moves + [Turn(col, role)])
  {
    var next := moves + [Turn(col, role)];
    var p' := PlayColumn(p, col, true).0;
    CanonMove(p, role, col, true);
    if moves != [] {
      OnGoing(role, moves);
    }
    GoodExtension(moves, Turn(col, role));
    assert Canon(p', role) == After(ROWS, COLS, next) by {
      assert Canon(p', role) == Canon(p.(game := p'.game), role);
    }
    assert p'.phase == Expected(role, next);
  }

  lemma {:induction false} LineInSync(p: Peer, role: char, moves: seq<Turn>, input: Input)
    requires InSync(p, role, moves) && GoodMoves(moves) && p.phase == MyTurn && role == Role(|moves|)
    ensures var (p', sent) := PlayLine(p, input, true);
            && (sent.Nothing? ==> InSync(p', role, moves))
            && (sent.MoveSent? ==> 0 <= sent.col < COLS && GoodMoves(moves + [Turn(sent.col, role)])
                                   && InSync(p', role, moves + [Turn(sent.col, role)]))
  {
    if input.Word? && IsColumn(input.first) {
      var col := ColumnOf(input.first);
      if Move(p.game, col, p.me).1 != COLUMN_FULL {
        ColumnInSync(p, role, moves, col);
      }
    }
  }

  lemma {:induction false} ReceiveInSync(p: Peer, role: char, moves: seq<Turn>)
    requires moves != [] && GoodMoves(moves) && moves[|moves| - 1].mark == Other(role)
    requires InSync(p, role, moves[..|moves| - 1]) && p.phase == TheirTurn
    ensures InSync(PlayReceived(p, moves[|moves| - 1].col), role, moves)
    ensures Move(p.game, moves[|moves| - 1].col, p.adv).1 == LastCode(ROWS, COLS, moves)
  {
    var col := moves[|moves| - 1].col;
    CanonMove(p, role, col, false);
    assert moves[..|moves|] == moves;
  }
  // ----- Both sides -----

  /** A side that may move has seen every move, and the next move is its own. */
  lemma {:induction false} MoverIsUpToDate(p: Peer, role: char, inbox: seq<nat>, moves: seq<Turn>)
    requires GoodMoves(moves) && |inbox| <= 1 && InFlight(inbox, moves)
    requires inbox != [] ==> moves[|moves| - 1].mark == Other(role)
    requires InSync(p, role, moves[..|moves| - |inbox|]) && p.phase == MyTurn
    ensures inbox == [] && moves[..|moves|] == moves
    ensures role == Role(|moves|) && (moves != [] ==> moves[|moves| - 1].mark != role)
  {
    hide Move, After, LastCode;
    var seen := moves[..|moves| - |inbox|];
    assert forall k :: 0 <= k < |seen| ==> seen[k].mark == Role(k);
    assert Expected(role, seen) == MyTurn;
  }

  /** One step of a side, given what it has seen and what is under way to it. */
  lemma {:induction false} SideStep(p: Peer, role: char, inbox: seq<nat>, moves: seq<Turn>, other: Peer, act: Action)
    requires GoodMoves(moves) && |inbox| <= 1 && InFlight(inbox, moves)
    requires inbox != [] ==> moves[|moves| - 1].mark == Other(role)
    requires InSync(p, role, moves[..|moves| - |inbox|]) && CanAct(p, inbox, other, act)
    ensures var (p', sent) := Act(p, inbox, other, act);
            var moves' := Extended(moves, sent, Turn(Column(sent), role));
            && GoodMoves(moves')
            && (sent.MoveSent? ==> p.phase == MyTurn && inbox == [])
            && InSync(p', role, moves'[..|moves'| - |Consumed(act, inbox)|])
  {
    hide Move, After, LastCode, Expected;
    var (p', sent) := Act(p, inbox, other, act);
    match act
    case Line(input) =>
      if p.phase == ChoosingMark {
        ChooseInSync(p, role, moves[..|moves| - |inbox|], input);
      } else {
        MoverIsUpToDate(p, role, inbox, moves);
        LineInSync(p, role, moves, input);
        var moves' := Extended(moves, sent, Turn(Column(sent), role));
        assert moves'[..|moves'|] == moves';
      }
    case Receive =>
      ReceiveInSync(p, role, moves);
      assert moves[..|moves|] == moves;
    case LinkLost =>
  }

  lemma {:induction false} StepAKeepsInv(t: Table, act: Action, t': Table)
    requires Inv(t) && t.Valid() && StepA(t, act, t')
    ensures Inv(t')
  {
    hide Move, After, LastCode, Expected, InSync, GoodMoves;
    SideStep(t.a, 'X', t.ba, t.moves, t.b, act);
    var (a, sent) := Act(t.a, t.ba, t.b, act);
    if sent.MoveSent? {
      MoverIsUpToDate(t.a, 'X', t.ba, t.moves);
      assert t.ab == [];
      assert t'.moves[..|t'.moves| - 1] == t.moves;
    }
  }

  lemma {:induction false} StepBKeepsInv(t: Table, act: Action, t': Table)
    requires Inv(t) && t.Valid() && StepB(t, act, t')
    ensures Inv(t')
  {
    hide Move, After, LastCode, Expected, InSync, GoodMoves;
    SideStep(t.b, 'O', t.ab, t.moves, t.a, act);
    var (b, sent) := Act(t.b, t.ab, t.a, act);
    if sent.MoveSent? {
      MoverIsUpToDate(t.b, 'O', t.ab, t.moves);
      assert t.ba == [];
      assert t'.moves[..|t'.moves| - 1] == t.moves;
    }
  }

  lemma {:induction false} StartInv()
    ensures Inv(Start())
  {
    SwapNewGame();
  }

  /** The invariant holds in every state of every run. */
  lemma {:induction false} RunInv(run: seq<Table>, n: nat)
    requires IsRun(run) && n < |run|
    ensures Inv(run[n])
  {
    if n == 0 {
      StartInv();
    } else {
      RunInv(run, n - 1);
      var t, t' := run[n - 1], run[n];
      assert Step(t, t');
      var act :| StepA(t, act, t') || StepB(t, act, t');
      if StepA(t, act, t') {
        StepAKeepsInv(t, act, t');
      } else {
        StepBKeepsInv(t, act, t');
      }
    }
  }

  // ----- The properties -----

  /** The same game seen from the two sides: my tokens are the other side's adversary tokens. */
  ghost predicate SameGame(p: Peer, q: Peer)
    requires p.Valid() && q.Valid()
  {
    && p.game.full == q.game.full
    && forall i, j :: 0 <= i < ROWS && 0 <= j < COLS ==>
         var x, y := p.game.board.At(i, j), q.game.board.At(i, j);
         && (x == EMPTY <==> y == EMPTY)
         && (x != EMPTY ==> (x == p.me && y == q.adv) || (x == p.adv && y == q.me))
  }

  lemma {:induction false} MarksOnBoard(moves: seq<Turn>, i: int, j: int)
    requires GoodMoves(moves) && 0 <= i < ROWS && 0 <= j < COLS
    ensures After(ROWS, COLS, moves).board.At(i, j) in {EMPTY, 'X', 'O'}
  {
    hide LastCode, WinThrough, TopRowFull;
    if moves == [] {
      NewBoardEmpty(ROWS, COLS, i, j);
    } else {
      GoodPrefix(moves);
      MarksOnBoard(moves[..|moves| - 1], i, j);
    }
  }

  lemma {:induction false} GoodPrefix(moves: seq<Turn>)
    requires GoodMoves(moves) && moves != []
    ensures GoodMoves(moves[..|moves| - 1])
  {
    var p := moves[..|moves| - 1];
    assert forall k :: 0 <= k <= |p| ==> p[..k] == moves[..k];
  }

  lemma {:induction false} SyncedSidesAgree(p: Peer, q: Peer, moves: seq<Turn>)
    requires GoodMoves(moves) && InSync(p, 'X', moves) && InSync(q, 'O', moves)
    ensures SameGame(p, q)
  {
    forall i, j | 0 <= i < ROWS && 0 <= j < COLS
      ensures var x, y := p.game.board.At(i, j), q.game.board.At(i, j);
              && (x == EMPTY <==> y == EMPTY)
              && (x != EMPTY ==> (x == p.me && y == q.adv) || (x == p.adv && y == q.me))
    {
      MarksOnBoard(moves, i, j);
      CanonAt(p, 'X', i, j);
      CanonAt(q, 'O', i, j);
      if p.me == EMPTY || q.me == EMPTY {
        NewBoardEmpty(ROWS, COLS, i, j);
      }
    }
  }

  lemma {:induction false} CanonAt(p: Peer, role: char, i: int, j: int)
    requires p.Valid() && 0 <= i < ROWS && 0 <= j < COLS
    ensures Canon(p, role).board.At(i, j)
         == if p.me == role then p.game.board.At(i, j) else Swap(p.game.board.At(i, j))
  {
  }

  lemma {:induction false} InvFacts(t: Table)
    requires Inv(t)
    ensures t.Valid() && t.moves[..|t.moves|] == t.moves
    ensures t.ab != [] ==> |t.ab| == 1 && t.moves != [] && t.ab[0] == t.moves[|t.moves| - 1].col < COLS
    ensures t.ba != [] ==> |t.ba| == 1 && t.moves != [] && t.ba[0] == t.moves[|t.moves| - 1].col < COLS
  {
    hide Move, After, LastCode, Expected;
  }

  /** Boards agree up to the choice of marks, but for the one move under way; applying it makes them agree. */
  lemma {:induction false} BoardsAgree(run: seq<Table>, n: nat)
    requires IsRun(run) && n < |run|
    ensures run[n].Valid() && |run[n].ab| + |run[n].ba| <= 1
    ensures run[n].ab == [] && run[n].ba == [] ==> SameGame(run[n].a, run[n].b)
    ensures run[n].ab != [] && run[n].b.phase == TheirTurn ==>
              run[n].ab[0] < COLS && SameGame(run[n].a, PlayReceived(run[n].b, run[n].ab[0]))
    ensures run[n].ba != [] && run[n].a.phase == TheirTurn ==>
              run[n].ba[0] < COLS && SameGame(PlayReceived(run[n].a, run[n].ba[0]), run[n].b)
  {
    hide Move, After, LastCode, Expected, InSync, GoodMoves, PlayReceived, SameGame;
    RunInv(run, n);
    var t := run[n];
    InvFacts(t);
    if t.ab == [] && t.ba == [] {
      SyncedSidesAgree(t.a, t.b, t.moves);
    } else if t.ab != [] && t.b.phase == TheirTurn {
      ReceiveInSync(t.b, 'O', t.moves);
      SyncedSidesAgree(t.a, PlayReceived(t.b, t.ab[0]), t.moves);
    } else if t.ba != [] && t.a.phase == TheirTurn {
      ReceiveInSync(t.a, 'X', t.moves);
      SyncedSidesAgree(PlayReceived(t.a, t.ba[0]), t.b, t.moves);
    }
  }

  /** At most one side can move, and only when nothing is under way. */
  lemma {:induction false} OneMover(run: seq<Table>, n: nat)
    requires IsRun(run) && n < |run|
    ensures !(run[n].a.phase == MyTurn && run[n].b.phase == MyTurn)
    ensures run[n].a.phase == MyTurn || run[n].b.phase == MyTurn ==> run[n].ab == [] && run[n].ba == []
  {
    hide Move, After, LastCode, Expected, InSync, GoodMoves;
    RunInv(run, n);
    var t := run[n];
    InvFacts(t);
    if t.a.phase == MyTurn {
      MoverIsUpToDate(t.a, 'X', t.ba, t.moves);
    }
    if t.b.phase == MyTurn {
      MoverIsUpToDate(t.b, 'O', t.ab, t.moves);
    }
  }

  /** A received move never hits a full column and never comes after the end of the game. */
  lemma {:induction false} ReceivedMoveIsPlaced(run: seq<Table>, n: nat)
    requires IsRun(run) && n < |run|
    ensures run[n].a.Valid() && run[n].b.Valid()
    ensures run[n].ba != [] ==> run[n].ba[0] < COLS && run[n].a.phase in {ChoosingMark, TheirTurn, Failed}
    ensures run[n].ab != [] ==> run[n].ab[0] < COLS && run[n].b.phase in {ChoosingMark, TheirTurn, Failed}
    ensures run[n].ba != [] && run[n].a.phase == TheirTurn ==>
              Move(run[n].a.game, run[n].ba[0], run[n].a.adv).1 != COLUMN_FULL && !run[n].a.game.full
    ensures run[n].ab != [] && run[n].b.phase == TheirTurn ==>
              Move(run[n].b.game, run[n].ab[0], run[n].b.adv).1 != COLUMN_FULL && !run[n].b.game.full
  {
    hide Move, After, LastCode, Expected, InSync, GoodMoves;
    RunInv(run, n);
    var t := run[n];
    InvFacts(t);
    if t.ba != [] {
      ReceiverWaits(t.a, 'X', t.moves);
    }
    if t.ab != [] {
      ReceiverWaits(t.b, 'O', t.moves);
    }
  }

  lemma {:induction false} StillOpen(p: Peer, role: char, seen: seq<Turn>)
    requires GoodMoves(seen) && InSync(p, role, seen) && p.phase == TheirTurn
    ensures !p.game.full
  {
    assert seen[..|seen|] == seen;
    if seen != [] {
      OnGoing(role, seen);
    }
  }

  lemma {:induction false} ReceiverWaits(p: Peer, role: char, moves: seq<Turn>)
    requires GoodMoves(moves) && moves != [] && moves[|moves| - 1].mark == Other(role)
    requires InSync(p, role, moves[..|moves| - 1])
    ensures p.phase in {ChoosingMark, TheirTurn, Failed}
    ensures p.phase == TheirTurn ==> Move(p.game, moves[|moves| - 1].col, p.adv).1 != COLUMN_FULL && !p.game.full
  {
    hide Move, After, LastCode;
    var seen := moves[..|moves| - 1];
    assert moves[..|moves|] == moves;
    if p.phase == TheirTurn {
      ReceiveInSync(p, role, moves);
      GoodPrefix(moves);
      StillOpen(p, role, seen);
    }
  }

  /** What the board of a finished side shows: the winner's four and no other, or no four on a full board. */
  ghost predicate VerdictShown(p: Peer, v: Verdict)
    requires p.Valid()
  {
    match v
    case Won => HasFour(p.game.board, p.me) && !HasFour(p.game.board, p.adv)
    case Lost => HasFour(p.game.board, p.adv) && !HasFour(p.game.board, p.me)
    case Draw => AllOccupied(p.game.board) && !HasFour(p.game.board, p.me) && !HasFour(p.game.board, p.adv)
  }

  /** Before the last of these moves nobody had won. */
  lemma {:induction false} NoEarlierWin(moves: seq<Turn>, n: nat)
    requires GoodMoves(moves) && n < |moves|
    ensures !AnyWin(ROWS, COLS, moves[..n])
  {
    hide Move, After;
    if n > 0 {
      assert moves[..n][..n - 1] == moves[..n - 1];
      NoEarlierWin(moves, n - 1);
    }
  }

  lemma {:induction false} NoFourOf(b: Board, m: char)
    requires b.Valid() && !SomeFour(b) && m != EMPTY
    ensures !HasFour(b, m)
  {
  }

  lemma {:induction false} OtherKeepsNoFour(g: Game, col: int, placed: char, m: char)
    requires g.board.Valid() && 0 <= col < g.board.cols && m != EMPTY && placed != m && !HasFour(g.board, m)
    ensures !HasFour(Move(g, col, placed).0.board, m)
  {
    hide HasFour;
    var row := Landing(g.board, col, g.board.rows - 1);
    if !g.full && row >= 0 {
      OtherMarkKeepsFours(g.board, row, col, placed, m);
    }
  }

  /** The final position in terms of roles. */
  lemma {:induction false} FinalPosition(moves: seq<Turn>)
    requires GoodMoves(moves) && moves != [] && LastCode(ROWS, COLS, moves) in {WIN, BOARD_FULL}
    ensures var b := After(ROWS, COLS, moves).board;
            var last := moves[|moves| - 1].mark;
            && last in {'X', 'O'} && !HasFour(b, Other(last))
            && (LastCode(ROWS, COLS, moves) == WIN ==> HasFour(b, last))
            && (LastCode(ROWS, COLS, moves) == BOARD_FULL ==> !HasFour(b, last) && AllOccupied(b))
  {
    hide HasFour, AllOccupied, WinThrough, TopRowFull;
    var n := |moves| - 1;
    NoEarlierWin(moves, n);
    CodesExactly(ROWS, COLS, moves);
    WinsAreFours(ROWS, COLS, moves[..n]);
    var g, t := After(ROWS, COLS, moves[..n]), moves[n];
    assert !HasFour(g.board, Other(t.mark)) by {
      NoFourOf(g.board, Other(t.mark));
    }
    OtherKeepsNoFour(g, t.col, t.mark, Other(t.mark));
  }

  lemma {:induction false} CanonFours(p: Peer, role: char)
    requires p.Valid() && role in {'X', 'O'} && {p.me, p.adv} == {'X', 'O'}
    ensures HasFour(Canon(p, role).board, role) <==> HasFour(p.game.board, p.me)
    ensures HasFour(Canon(p, role).board, Other(role)) <==> HasFour(p.game.board, p.adv)
    ensures AllOccupied(Canon(p, role).board) <==> AllOccupied(p.game.board)
  {
    hide HasFour;
    if p.me != role {
      SwapIsRenaming();
      FourKept(Swap, p.game.board, p.me);
      FourKept(Swap, p.game.board, p.adv);
    }
  }

  lemma {:induction false} DoneShowsVerdict(p: Peer, role: char, moves: seq<Turn>)
    requires GoodMoves(moves) && InSync(p, role, moves) && p.phase.Done?
    ensures VerdictShown(p, p.phase.verdict)
  {
    hide HasFour, AllOccupied, Move, After, LastCode, Canon;
    CanonFours(p, role);
    FinalPosition(moves);
  }

  /** A side that has finished has seen all moves, the last of which ended the game. */
  lemma {:induction false} DoneIsUpToDate(p: Peer, role: char, inbox: seq<nat>, moves: seq<Turn>)
    requires GoodMoves(moves) && |inbox| <= 1 && InFlight(inbox, moves)
    requires InSync(p, role, moves[..|moves| - |inbox|]) && p.phase.Done?
    ensures inbox == [] && moves != [] && moves[..|moves|] == moves && p.phase == Expected(role, moves)
    ensures LastCode(ROWS, COLS, moves) in {WIN, BOARD_FULL}
  {
    hide Move, After, LastCode;
    var seen := moves[..|moves| - |inbox|];
    assert seen != [] && LastCode(ROWS, COLS, seen) in {WIN, BOARD_FULL};
  }

  lemma {:induction false} OppositeVerdicts(moves: seq<Turn>)
    requires GoodMoves(moves) && moves != [] && LastCode(ROWS, COLS, moves) in {WIN, BOARD_FULL}
    ensures (Expected('X', moves), Expected('O', moves))
      in {(Done(Won), Done(Lost)), (Done(Lost), Done(Won)), (Done(Draw), Done(Draw))}
  {
    hide Move, After, LastCode;
  }

  /** Final verdicts are right and match: one side won and the other lost, or both drew. */
  lemma {:induction false} VerdictsMatch(run: seq<Table>, n: nat)
    requires IsRun(run) && n < |run|
    ensures run[n].a.Valid() && run[n].b.Valid()
    ensures run[n].a.phase.Done? ==> VerdictShown(run[n].a, run[n].a.phase.verdict)
    ensures run[n].b.phase.Done? ==> VerdictShown(run[n].b, run[n].b.phase.verdict)
    ensures run[n].a.phase.Done? && run[n].b.phase.Done? ==>
              (run[n].a.phase.verdict, run[n].b.phase.verdict) in {(Won, Lost), (Lost, Won), (Draw, Draw)}
  {
    hide Move, After, LastCode, InSync, GoodMoves, HasFour;
    RunInv(run, n);
    var t := run[n];
    InvFacts(t);
    if t.a.phase.Done? {
      DoneIsUpToDate(t.a, 'X', t.ba, t.moves);
      DoneShowsVerdict(t.a, 'X', t.moves);
    }
    if t.b.phase.Done? {
      DoneIsUpToDate(t.b, 'O', t.ab, t.moves);
      DoneShowsVerdict(t.b, 'O', t.moves);
      OppositeVerdicts(t.moves);
    }
  }

  lemma {:induction false} UpToDatePhases(p: Peer, q: Peer, moves: seq<Turn>)
    requires GoodMoves(moves) && InSync(p, 'X', moves) && InSync(q, 'O', moves)
    requires p.phase != Failed && q.phase != Failed
    ensures (p.phase.Done? && q.phase.Done?) || p.phase in {ChoosingMark, MyTurn} || q.phase in {ChoosingMark, MyTurn}
    ensures p.phase == TheirTurn ==> !q.phase.Done?
    ensures q.phase == TheirTurn ==> !p.phase.Done?
  {
    hide Move, After, LastCode;
    assert moves[..|moves|] == moves;
  }

  /** While no side has failed the game never gets stuck: it is over, or a prompt is open, or a move can be received. */
  lemma {:induction false} NeverStuck(run: seq<Table>, n: nat)
    requires IsRun(run) && n < |run|
    requires run[n].a.phase != Failed && run[n].b.phase != Failed
    ensures var t := run[n];
            || (t.a.phase.Done? && t.b.phase.Done?)
            || t.a.phase in {ChoosingMark, MyTurn} || t.b.phase in {ChoosingMark, MyTurn}
            || CanAct(t.a, t.ba, t.b, Receive) || CanAct(t.b, t.ab, t.a, Receive)
    ensures !CanAct(run[n].a, run[n].ba, run[n].b, LinkLost) && !CanAct(run[n].b, run[n].ab, run[n].a, LinkLost)
  {
    hide Move, After, LastCode, InSync, GoodMoves;
    RunInv(run, n);
    var t := run[n];
    InvFacts(t);
    if t.ba != [] {
      ReceiverWaits(t.a, 'X', t.moves);
      if t.b.phase == TheirTurn && t.a.phase.Done? {
        DoneIsUpToDate(t.a, 'X', t.ba, t.moves);
      }
    } else if t.ab != [] {
      ReceiverWaits(t.b, 'O', t.moves);
    } else {
      UpToDatePhases(t.a, t.b, t.moves);
    }
  }

  lemma {:induction false} AllAccepted(moves: seq<Turn>)
    requires GoodMoves(moves)
    ensures Accepted(ROWS, COLS, moves) == |moves|
  {
    hide WinThrough, TopRowFull;
    if moves != [] {
      var n := |moves| - 1;
      GoodPrefix(moves);
      AllAccepted(moves[..n]);
      assert moves[..|moves|] == moves;
      if n > 0 {
        assert LastCode(ROWS, COLS, moves[..n]) == PLACED;
      }
    }
  }

  /** A game has at most 42 moves. */
  lemma {:induction false} GameIsBounded(run: seq<Table>, n: nat)
    requires IsRun(run) && n < |run|
    ensures |run[n].moves| <= ROWS * COLS
  {
    RunInv(run, n);
    AllAccepted(run[n].moves);
    AcceptedMovesAreTokens(ROWS, COLS, run[n].moves);
  }
}
