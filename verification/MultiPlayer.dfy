// One side of a game between two peers: what playWithPlayer does with the lines
// typed by its player and the moves received from the other side.

module MultiPlayer {
  import opened Board
  import C = Connect4

  const ROWS: nat := 6
  const COLS: nat := 7

  /** What a prompt gets: end of input, a single word with its first character, or any other line. */
  datatype Input = Eof | Word(first: char) | Other

  datatype Verdict = Won | Lost | Draw

  datatype Phase = ChoosingMark | MyTurn | TheirTurn | Done(verdict: Verdict) | Failed

  /** Marks are EMPTY until the player has chosen. */
  datatype Peer = Peer(starts: bool, phase: Phase, me: char, adv: char, game: Game) {
    ghost predicate Valid() {
      game.board.Valid() && game.board.rows == ROWS && game.board.cols == COLS
    }
  }

  function NewPeer(starts: bool): (p: Peer)
    ensures p.Valid()
  {
    Peer(starts, ChoosingMark, EMPTY, EMPTY, NewGame(ROWS, COLS))
  }

  predicate IsMark(c: char) {
    c in {'X', 'x', 'O', 'o'}
  }

  ghost function Choose(p: Peer, input: Input): (p': Peer)
    requires p.Valid() && p.phase == ChoosingMark
    ensures p'.Valid()
  {
    match input
    case Eof => p.(phase := Failed)
    case Word(c) =>
      if IsMark(c) then
        var (me, adv) := C.MarksFor(c);
        p.(phase := if p.starts then MyTurn else TheirTurn, me := me, adv := adv)
      else p
    case Other => p
  }

  /** The prompt takes the digits 1 to 7; 0 is outside the domain of the model. */
  predicate IsColumn(c: char) {
    '1' <= c <= '7'
  }

  function ColumnOf(c: char): (col: nat)
    requires IsColumn(c)
    ensures col < COLS
  {
    (c as int) - ('1' as int)
  }

  datatype Sent = Nothing | MoveSent(col: int)

  /** A column typed by the player; `up` tells whether a send on the link succeeds. */
  ghost function PlayColumn(p: Peer, col: nat, up: bool): (r: (Peer, Sent))
    requires p.Valid() && p.phase == MyTurn && col < COLS
    ensures r.0.Valid()
  {
    var (g, code) := Move(p.game, col, p.me);
    if code == COLUMN_FULL then (p, Nothing)
    else if !up then (p.(game := g, phase := Failed), Nothing)
    else
      (p.(game := g, phase := if code == WIN then Done(Won) else if code == BOARD_FULL then Done(Draw) else TheirTurn),
       MoveSent(col))
  }

  /** A line at the column prompt. */
  ghost function PlayLine(p: Peer, input: Input, up: bool): (r: (Peer, Sent))
    requires p.Valid() && p.phase == MyTurn
    ensures r.0.Valid()
  {
    match input
    case Eof => (p.(phase := Failed), Nothing)
    case Other => (p, Nothing)
    case Word(c) => if IsColumn(c) then PlayColumn(p, ColumnOf(c), up) else (p, Nothing)
  }

  /** A move received from the other side. */
  ghost function PlayReceived(p: Peer, col: nat): (p': Peer)
    requires p.Valid() && p.phase == TheirTurn && col < COLS
    ensures p'.Valid()
  {
    var (g, code) := Move(p.game, col, p.adv);
    p.(game := g, phase := if code == WIN then Done(Lost) else if code == BOARD_FULL then Done(Draw) else MyTurn)
  }

  predicate InDomain(stdin: seq<Input>, inbox: seq<nat>) {
    && (forall k :: 0 <= k < |stdin| ==> stdin[k] != Word('0'))
    && (forall k :: 0 <= k < |inbox| ==> inbox[k] < COLS)
  }

  datatype Outcome = Outcome(peer: Peer, sent: seq<int>)

  /** The whole run of one side: lines end with end of input, received moves with a lost connection. */
  ghost function Session(p: Peer, stdin: seq<Input>, inbox: seq<nat>, sent: seq<int>, up: nat -> bool): (r: Outcome)
    requires p.Valid() && InDomain(stdin, inbox)
    ensures r.peer.Valid() && (r.peer.phase.Done? || r.peer.phase == Failed)
    decreases |stdin| + |inbox|, p.phase.Failed?
  {
    match p.phase
    case Done(_) => Outcome(p, sent)
    case Failed => Outcome(p, sent)
    case TheirTurn =>
      if inbox == [] then Outcome(p.(phase := Failed), sent)
      else Session(PlayReceived(p, inbox[0]), stdin, inbox[1..], sent, up)
    case ChoosingMark =>
      if stdin == [] then Outcome(p.(phase := Failed), sent)
      else Session(Choose(p, stdin[0]), stdin[1..], inbox, sent, up)
    case MyTurn =>
      if stdin == [] then Outcome(p.(phase := Failed), sent)
      else
        var (p', m) := PlayLine(p, stdin[0], up(|sent|));
        Session(p', stdin[1..], inbox, if m.Nothing? then sent else sent + [m.col], up)
  }

  class Terminal {
    var lines: seq<Input>

    constructor (lines: seq<Input>)
      ensures this.lines == lines
    {
      this.lines := lines;
    }

    method Read() returns (input: Input)
      modifies this
      ensures old(lines) == [] ==> input == Eof && lines == []
      ensures old(lines) != [] ==> input == old(lines)[0] && lines == old(lines)[1..]
    {
      if lines == [] {
        input := Eof;
      } else {
        input := lines[0];
        lines := lines[1..];
      }
    }
  }

  /** The reliable connection to the other side, seen from this side. */
  class Link {
    var inbox: seq<nat>
    var sent: seq<int>
    const up: nat -> bool

    constructor (inbox: seq<nat>, up: nat -> bool)
      ensures this.inbox == inbox && this.sent == [] && this.up == up
    {
      this.inbox := inbox;
      this.sent := [];
      this.up := up;
    }

    method Send(col: int) returns (ok: bool)
      modifies this`sent
      ensures ok == up(|old(sent)|)
      ensures sent == if ok then old(sent) + [col] else old(sent)
    {
      ok := up(|sent|);
      if ok {
        sent := sent + [col];
      }
    }

    method Receive() returns (ok: bool, col: nat)
      modifies this`inbox
      ensures ok <==> old(inbox) != []
      ensures ok ==> col == old(inbox)[0] && inbox == old(inbox)[1..]
      ensures !ok ==> inbox == []
    {
      ok := inbox != [];
      col := 0;
      if ok {
        col := inbox[0];
        inbox := inbox[1..];
      }
    }
  }

  /** The board object holds the game of `p`, whose player has chosen a mark. */
  ghost predicate Holds(c: C.Connect4, p: Peer)
    reads c, c.cells
  {
    && c.Valid() && c.rows == ROWS && c.cols == COLS && p.Valid()
    && p.game == c.State() && p.me == c.player && p.adv == c.adversary && p.me != EMPTY && p.adv != EMPTY
  }

  method AskMark(starts: bool, c: C.Connect4, stdin: Terminal, ghost inbox: seq<nat>, ghost up: nat -> bool)
    returns (ok: bool, ghost p: Peer)
    requires c.Valid() && c.rows == ROWS && c.cols == COLS && c.State() == NewGame(ROWS, COLS)
    requires InDomain(stdin.lines, inbox)
    modifies stdin, c`player, c`adversary
    ensures InDomain(stdin.lines, inbox) && p.Valid()
    ensures Session(NewPeer(starts), old(stdin.lines), inbox, [], up) == Session(p, stdin.lines, inbox, [], up)
    ensures ok ==> Holds(c, p) && p.phase == if starts then MyTurn else TheirTurn
    ensures !ok ==> p.phase == Failed
  {
    p := NewPeer(starts);
    while true
      invariant InDomain(stdin.lines, inbox) && p == NewPeer(starts) && c.State() == p.game
      invariant Session(p, old(stdin.lines), inbox, [], up) == Session(p, stdin.lines, inbox, [], up)
      decreases |stdin.lines|
    {
      ghost var lines := stdin.lines;
      var input := stdin.Read();
      if input == Eof {
        p := p.(phase := Failed);
        return false, p;
      }
      if input.Word? {
        var chosen := c.SetPlayer(input.first);
        if chosen {
          p := Choose(p, input);
          return true, p;
        }
      }
    }
  }

  /** The column prompt: asks again until it gets a digit or the input ends. */
  method AskColumn(stdin: Terminal, ghost p: Peer, ghost inbox: seq<nat>, ghost sent: seq<int>, ghost up: nat -> bool)
    returns (alive: bool, col: nat)
    requires p.Valid() && p.phase == MyTurn && InDomain(stdin.lines, inbox)
    modifies stdin
    ensures InDomain(stdin.lines, inbox)
    ensures !alive ==> Session(p, old(stdin.lines), inbox, sent, up) == Outcome(p.(phase := Failed), sent)
    ensures alive ==> col < COLS && |stdin.lines| < |old(stdin.lines)|
    ensures alive ==> var (p', m) := PlayColumn(p, col, up(|sent|));
              Session(p, old(stdin.lines), inbox, sent, up)
                == Session(p', stdin.lines, inbox, if m.Nothing? then sent else sent + [m.col], up)
  {
    ghost var lines := stdin.lines;
    var input := stdin.Read();
    while !(input.Word? && IsColumn(input.first))
      invariant InDomain(lines, inbox) && |lines| <= |old(stdin.lines)|
      invariant lines == [] ==> input == Eof && stdin.lines == []
      invariant lines != [] ==> input == lines[0] && stdin.lines == lines[1..]
      invariant Session(p, old(stdin.lines), inbox, sent, up) == Session(p, lines, inbox, sent, up)
      decreases |lines|
    {
      if input == Eof {
        return false, 0;
      }
      lines := stdin.lines;
      input := stdin.Read();
    }
    return true, ColumnOf(input.first);
  }

  method OwnTurn(c: C.Connect4, stdin: Terminal, link: Link, ghost p: Peer)
    returns (alive: bool, win: int, ghost p': Peer)
    requires Holds(c, p) && p.phase == MyTurn && InDomain(stdin.lines, link.inbox)
    modifies stdin, link`sent, c`full, c.cells
    ensures InDomain(stdin.lines, link.inbox) && p'.Valid()
    ensures Session(p, old(stdin.lines), link.inbox, old(link.sent), link.up)
         == Session(p', stdin.lines, link.inbox, link.sent, link.up)
    ensures alive ==> Holds(c, p') && |stdin.lines| < |old(stdin.lines)|
    ensures alive ==> win in {WIN, PLACED, COLUMN_FULL, BOARD_FULL}
    ensures p'.phase == if !alive then Failed else if win == WIN then Done(Won)
            else if win == BOARD_FULL then Done(Draw)
                        else if win == COLUMN_FULL then MyTurn else TheirTurn
  {
    win := PLACED;
    var col;
    alive, col := AskColumn(stdin, p, link.inbox, link.sent, link.up);
    if !alive {
      return false, win, p.(phase := Failed);
    }
    p' := PlayColumn(p, col, link.up(|link.sent|)).0;
    win := c.Play(col, c.player);
    if win != COLUMN_FULL {
      alive := link.Send(col);
    }
  }

  method TheirMove(c: C.Connect4, link: Link, ghost p: Peer, ghost lines: seq<Input>)
    returns (alive: bool, win: int, ghost p': Peer)
    requires Holds(c, p) && p.phase == TheirTurn && InDomain(lines, link.inbox)
    modifies link`inbox, c`full, c.cells
    ensures InDomain(lines, link.inbox) && p'.Valid()
    ensures Session(p, lines, old(link.inbox), link.sent, link.up) == Session(p', lines, link.inbox, link.sent, link.up)
    ensures alive ==> Holds(c, p') && |link.inbox| < |old(link.inbox)|
    ensures alive ==> win in {WIN, PLACED, COLUMN_FULL, BOARD_FULL}
    ensures p'.phase == if !alive then Failed else if win == WIN then Done(Lost)
            else if win == BOARD_FULL then Done(Draw)
                        else MyTurn
  {
    win := PLACED;
    var ok, col := link.Receive();
    if !ok {
      return false, win, p.(phase := Failed);
    }
    win := c.Play(col, c.adversary);
    return true, win, PlayReceived(p, col);
  }

  /** The game loop: returns 0 when the game ended, with the verdict it announced, and 1 otherwise. */
  method PlayWithPlayer(starts: bool, stdin: Terminal, link: Link) returns (ret: int, verdict: Verdict)
    requires InDomain(stdin.lines, link.inbox) && link.sent == []
    modifies stdin, link`inbox, link`sent
    ensures var end := Session(NewPeer(starts), old(stdin.lines), old(link.inbox), [], link.up);
            && link.sent == end.sent
            && ret == (if end.peer.phase.Done? then 0 else 1)
            && (ret == 0 ==> end.peer.phase == Done(verdict))
  {
    verdict := Draw;
    ghost var end := Session(NewPeer(starts), stdin.lines, link.inbox, [], link.up);
    var c := new C.Connect4(ROWS, COLS);
    var alive;
    ghost var p;
    alive, p := AskMark(starts, c, stdin, link.inbox, link.up);
    if !alive {
      return 1, verdict;
    }
    var mine := starts;
    var win := PLACED;
    while win == COLUMN_FULL || win == PLACED
      invariant InDomain(stdin.lines, link.inbox) && p.Valid() && fresh(c) && fresh(c.cells)
      invariant win == COLUMN_FULL || win == PLACED ==> Holds(c, p) && p.phase == if mine then MyTurn else TheirTurn
      invariant !(win == COLUMN_FULL || win == PLACED) ==> p.phase == Done(verdict)
      invariant end == Session(p, stdin.lines, link.inbox, link.sent, link.up)
      decreases |stdin.lines| + |link.inbox|
    {
      if mine {
        alive, win, p := OwnTurn(c, stdin, link, p);
        if !alive {
          return 1, verdict;
        }
        if win == WIN {
          verdict := Won;
        } else if win == BOARD_FULL {
          verdict := Draw;
          break;
        } else if win == PLACED {
          mine := false;
        }
      } else {
        alive, win, p := TheirMove(c, link, p, stdin.lines);
        if !alive {
          return 1, verdict;
        }
        if win == WIN {
          verdict := Lost;
        } else if win == BOARD_FULL {
          verdict := Draw;
        }
        mine := true;
      }
    }
    return 0, verdict;
  }
}
