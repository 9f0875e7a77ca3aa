// What a whole session of one side comes to: which columns were played by whom, and how it ended.

module Sessions {
  import opened Board
  import opened BoardTheorems
  import opened MultiPlayer

  /** The columns of the turns with that mark. */
  function ColumnsOf(turns: seq<Turn>, m: char): (s: seq<int>) {
    if turns == [] then []
    else
      var last := turns[|turns| - 1];
      ColumnsOf(turns[..|turns| - 1], m) + if last.mark == m then [last.col] else []
  }

  /** `s` is what remains of `t` when some elements are left out. */
  ghost predicate Within(s: seq<int>, t: seq<int>) {
    s == [] || (t != [] && ((s[0] == t[0] && Within(s[1..], t[1..])) || Within(s, t[1..])))
  }

  /** The columns that the digits among the lines stand for. */
  function Typed(stdin: seq<Input>): (s: seq<int>) {
    if stdin == [] then []
    else
      (if stdin[0].Word? && '1' <= stdin[0].first <= '7' then [(stdin[0].first as int) - ('1' as int)] else []) +
      Typed(stdin[1..])
  }

  /** The sides take turns, the own one first if it starts. */
  ghost predicate Alternate(starts: bool, turns: seq<Turn>, me: char, adv: char) {
    forall k :: 0 <= k < |turns| ==> turns[k].mark == if (k % 2 == 0) == starts then me else adv
  }

  /** No turn before the last one ended the game. */
  ghost predicate OnlyLastEnds(turns: seq<Turn>)
    requires Legal(COLS, turns)
  {
    forall k :: 0 < k < |turns| ==> LastCode(ROWS, COLS, turns[..k]) in {PLACED, COLUMN_FULL}
  }

  /** What the code of the last turn and its player say about the end. */
  ghost predicate PhaseFits(p: Peer, turns: seq<Turn>)
    requires Legal(COLS, turns)
  {
    match p.phase
    case Done(verdict) =>
      turns != [] && var code := LastCode(ROWS, COLS, turns);
      && (verdict.Won? ==> code == WIN && turns[|turns| - 1].mark == p.me)
      && (verdict.Lost? ==> code == WIN && turns[|turns| - 1].mark == p.adv)
      && (verdict.Draw? ==> code == BOARD_FULL)
    case Failed => true
    case ChoosingMark => turns == []
    case _ => turns != [] ==> LastCode(ROWS, COLS, turns) in {PLACED, COLUMN_FULL}
  }

  /** These turns have been played, the own ones sent and the other ones received. */
  ghost predicate Played(p: Peer, turns: seq<Turn>, sent: seq<int>, got: seq<nat>) {
    && p.Valid() && Legal(COLS, turns) && p.game == After(ROWS, COLS, turns)
    && (p.me == EMPTY || p.adv == EMPTY ==> turns == [])
    && (p.me != EMPTY ==> p.me != p.adv && p.adv != EMPTY)
    && Alternate(p.starts, turns, p.me, p.adv) && OnlyLastEnds(turns) && PhaseFits(p, turns)
    && ColumnsOf(turns, p.me) == sent && ColumnsOf(turns, p.adv) == got
  }

  /** Whose turn it is follows from the number of turns. */
  ghost predicate TurnFits(p: Peer, turns: seq<Turn>) {
    && (p.phase == MyTurn ==> p.me != EMPTY && (|turns| % 2 == 0) == p.starts)
    && (p.phase == TheirTurn ==> p.me != EMPTY && (|turns| % 2 == 0) != p.starts)
  }

  /** As `Played`, but for perhaps one own turn that was played and could not be sent. */
  ghost predicate Ended(p: Peer, turns: seq<Turn>, sent: seq<int>, got: seq<nat>) {
    Played(p, turns, sent, got) || (p.phase == Failed && exists col :: Played(p, turns, sent + [col], got))
  }

  lemma {:induction false} WithinLonger(s: seq<int>, t: seq<int>, x: seq<int>)
    requires Within(s, t)
    ensures Within(s, x + t)
  {
    if x == [] {
      assert x + t == t;
    } else {
      WithinLonger(s, t, x[1..]);
      assert (x + t)[1..] == x[1..] + t;
    }
  }

  lemma {:induction false} TypedFirst(stdin: seq<Input>)
    requires stdin != []
    ensures stdin[0].Word? && IsColumn(stdin[0].first) ==>
              Typed(stdin) == [ColumnOf(stdin[0].first) as int] + Typed(stdin[1..])
    ensures exists x :: Typed(stdin) == x + Typed(stdin[1..])
  {
    var x := if stdin[0].Word? && '1' <= stdin[0].first <= '7' then [(stdin[0].first as int) - ('1' as int)] else [];
    assert Typed(stdin) == x + Typed(stdin[1..]);
  }

  lemma {:induction false} CodeOf(g: Game, col: int, m: char)
    requires g.board.Valid() && 0 <= col < g.board.cols
    ensures Move(g, col, m).1 in {WIN, PLACED, COLUMN_FULL, BOARD_FULL}
  {
  }

  lemma {:induction false} OneMore(turns: seq<Turn>, t: Turn)
    requires Legal(COLS, turns) && t.col < COLS && t.mark != EMPTY && OnlyLastEnds(turns)
    requires turns != [] ==> LastCode(ROWS, COLS, turns) in {PLACED, COLUMN_FULL}
    ensures Legal(COLS, turns + [t]) && OnlyLastEnds(turns + [t])
    ensures (After(ROWS, COLS, turns + [t]), LastCode(ROWS, COLS, turns + [t])) ==
            Move(After(ROWS, COLS, turns), t.col, t.mark)
    ensures forall m :: ColumnsOf(turns + [t], m) == ColumnsOf(turns, m) + if t.mark == m then [t.col] else []
  {
    hide Move;
    var ts := turns + [t];
    assert ts[..|turns|] == turns;
    forall k | 0 < k < |ts|
      ensures LastCode(ROWS, COLS, ts[..k]) in {PLACED, COLUMN_FULL}
    {
      assert ts[..k] == turns[..k];
      assert k == |turns| ==> turns[..k] == turns;
    }
  }

  lemma {:induction false} OwnTurnPlayed(p: Peer, turns: seq<Turn>, sent: seq<int>, got: seq<nat>, col: nat, up: bool)
    requires Played(p, turns, sent, got) && TurnFits(p, turns) && p.phase == MyTurn && col < COLS
    ensures var (p', m) := PlayColumn(p, col, up);
            if Move(p.game, col, p.me).1 == COLUMN_FULL then p' == p && m.Nothing?
            else
              && TurnFits(p', turns + [Turn(col, p.me)])
              && Played(p', turns + [Turn(col, p.me)], sent + [col], got)
              && (if up then m == MoveSent(col) else m.Nothing? && p'.phase == Failed)
  {
    hide Move, After, LastCode;
    OneMore(turns, Turn(col, p.me));
    CodeOf(p.game, col, p.me);
  }

  lemma {:induction false} TheirTurnPlayed(p: Peer, turns: seq<Turn>, sent: seq<int>, got: seq<nat>, col: nat)
    requires Played(p, turns, sent, got) && TurnFits(p, turns) && p.phase == TheirTurn && col < COLS
    ensures var p' := PlayReceived(p, col);
            TurnFits(p', turns + [Turn(col, p.adv)]) && Played(p', turns + [Turn(col, p.adv)], sent, got + [col])
  {
    hide Move, After, LastCode;
    OneMore(turns, Turn(col, p.adv));
    CodeOf(p.game, col, p.adv);
  }

  /** The session ends like this: these turns in all, `more` of the waiting columns received and `added` sent. */
  ghost predicate GoesTo(end: Outcome, stdin: seq<Input>, inbox: seq<nat>, sent: seq<int>, got: seq<nat>,
    turns: seq<Turn>, more: nat, added: seq<int>)
  {
    && more <= |inbox| && Ended(end.peer, turns, end.sent, got + inbox[..more])
    && end.sent == sent + added && Within(added, Typed(stdin))
  }

  lemma {:induction false} EndsHere(p: Peer, stdin: seq<Input>, inbox: seq<nat>, sent: seq<int>, got: seq<nat>,
    turns: seq<Turn>)
    requires Ended(p, turns, sent, got)
    ensures GoesTo(Outcome(p, sent), stdin, inbox, sent, got, turns, 0, [])
  {
    hide Ended, Typed;
    assert got + inbox[..0] == got && sent + [] == sent;
  }

  lemma {:induction false} LineSkipped(end: Outcome, stdin: seq<Input>, inbox: seq<nat>, sent: seq<int>, got: seq<nat>,
    turns: seq<Turn>, more: nat, added: seq<int>)
    requires stdin != [] && GoesTo(end, stdin[1..], inbox, sent, got, turns, more, added)
    ensures GoesTo(end, stdin, inbox, sent, got, turns, more, added)
  {
    hide Ended, Typed;
    TypedFirst(stdin);
    var x :| Typed(stdin) == x + Typed(stdin[1..]);
    WithinLonger(added, Typed(stdin[1..]), x);
  }

  lemma {:induction false} LineSent(end: Outcome, stdin: seq<Input>, inbox: seq<nat>, sent: seq<int>, got: seq<nat>,
    turns: seq<Turn>, more: nat, added: seq<int>)
    requires stdin != [] && stdin[0].Word? && IsColumn(stdin[0].first)
    requires GoesTo(end, stdin[1..], inbox, sent + [ColumnOf(stdin[0].first)], got, turns, more, added)
    ensures GoesTo(end, stdin, inbox, sent, got, turns, more, [ColumnOf(stdin[0].first) as int] + added)
  {
    hide Ended, Typed;
    TypedFirst(stdin);
    var col: int := ColumnOf(stdin[0].first);
    assert sent + [col] + added == sent + ([col] + added);
    assert ([col] + added)[1..] == added && Typed(stdin)[1..] == Typed(stdin[1..]);
  }

  lemma {:induction false} ColumnReceived(end: Outcome, stdin: seq<Input>, inbox: seq<nat>, sent: seq<int>,
    got: seq<nat>, turns: seq<Turn>, more: nat, added: seq<int>)
    requires inbox != [] && GoesTo(end, stdin, inbox[1..], sent, got + [inbox[0]], turns, more, added)
    ensures GoesTo(end, stdin, inbox, sent, got, turns, more + 1, added)
  {
    hide Ended, Typed;
    assert got + [inbox[0]] + inbox[1..][..more] == got + inbox[..more + 1];
  }

  lemma {:induction false} SessionGoesOn(p: Peer, stdin: seq<Input>, inbox: seq<nat>, sent: seq<int>, up: nat -> bool,
    turns: seq<Turn>, got: seq<nat>) returns (turns': seq<Turn>, more: nat, added: seq<int>)
    requires Played(p, turns, sent, got) && TurnFits(p, turns) && InDomain(stdin, inbox)
    ensures GoesTo(Session(p, stdin, inbox, sent, up), stdin, inbox, sent, got, turns', more, added)
    decreases |stdin| + |inbox|, p.phase.Failed?, 1
  {
    assert p.Valid();
    FailedPlayed(p, turns, sent, got);
    hide After, LastCode, Played, TurnFits, GoesTo, PlayReceived, PlayLine, Choose;
    turns', more, added := turns, 0, [];
    if p.phase == TheirTurn && inbox != [] {
      TheirTurnPlayed(p, turns, sent, got, inbox[0]);
      turns', more, added := SessionGoesOn(PlayReceived(p, inbox[0]), stdin, inbox[1..], sent, up,
        turns + [Turn(inbox[0], p.adv)], got + [inbox[0]]);
      ColumnReceived(Session(p, stdin, inbox, sent, up), stdin, inbox, sent, got, turns', more, added);
      more := more + 1;
    } else if p.phase == ChoosingMark && stdin != [] {
      ChosenPlayed(p, turns, sent, got, stdin[0]);
      turns', more, added := SessionGoesOn(Choose(p, stdin[0]), stdin[1..], inbox, sent, up, turns, got);
      LineSkipped(Session(p, stdin, inbox, sent, up), stdin, inbox, sent, got, turns', more, added);
    } else if p.phase == MyTurn && stdin != [] {
      turns', more, added := LineGoesOn(p, stdin, inbox, sent, up, turns, got);
    } else {
      EndsHere(p, stdin, inbox, sent, got, turns);
      EndsHere(p.(phase := Failed), stdin, inbox, sent, got, turns);
    }
  }

  lemma {:induction false} LineGoesOn(p: Peer, stdin: seq<Input>, inbox: seq<nat>, sent: seq<int>, up: nat -> bool,
    turns: seq<Turn>, got: seq<nat>) returns (turns': seq<Turn>, more: nat, added: seq<int>)
    requires Played(p, turns, sent, got) && TurnFits(p, turns) && InDomain(stdin, inbox)
    requires p.phase == MyTurn && stdin != []
    ensures GoesTo(Session(p, stdin, inbox, sent, up), stdin, inbox, sent, got, turns', more, added)
    decreases |stdin| + |inbox|, p.phase.Failed?, 0
  {
    assert p.Valid();
    FailedPlayed(p, turns, sent, got);
    hide After, LastCode, Played, TurnFits, GoesTo, PlayColumn;
    var (p', m) := PlayLine(p, stdin[0], up(|sent|));
    if stdin[0].Word? && IsColumn(stdin[0].first) {
      var col := ColumnOf(stdin[0].first);
      OwnTurnPlayed(p, turns, sent, got, col, up(|sent|));
      if Move(p.game, col, p.me).1 == COLUMN_FULL {
        turns', more, added := SessionGoesOn(p', stdin[1..], inbox, sent, up, turns, got);
        LineSkipped(Session(p, stdin, inbox, sent, up), stdin, inbox, sent, got, turns', more, added);
      } else if m.Nothing? {
        turns', more, added := turns + [Turn(col, p.me)], 0, [];
        EndsHere(p', stdin, inbox, sent, got, turns');
      } else {
        turns', more, added := SessionGoesOn(p', stdin[1..], inbox, sent + [col], up, turns + [Turn(col, p.me)], got);
        LineSent(Session(p, stdin, inbox, sent, up), stdin, inbox, sent, got, turns', more, added);
        added := [col as int] + added;
      }
    } else {
      turns', more, added := SessionGoesOn(p', stdin[1..], inbox, sent, up, turns, got);
      LineSkipped(Session(p, stdin, inbox, sent, up), stdin, inbox, sent, got, turns', more, added);
    }
  }

  lemma {:induction false} FailedPlayed(p: Peer, turns: seq<Turn>, sent: seq<int>, got: seq<nat>)
    requires Played(p, turns, sent, got)
    ensures Played(p.(phase := Failed), turns, sent, got) && TurnFits(p.(phase := Failed), turns)
  {
    hide After, LastCode;
  }

  lemma {:induction false} ChosenPlayed(p: Peer, turns: seq<Turn>, sent: seq<int>, got: seq<nat>, input: Input)
    requires Played(p, turns, sent, got) && p.phase == ChoosingMark
    ensures Played(Choose(p, input), turns, sent, got) && TurnFits(Choose(p, input), turns)
  {
    hide After, LastCode;
  }

  /** Every session, whatever is typed and received and whichever sends fail: there are turns, the own and the other's
      alternating, that lead to the final board; the own ones are the columns sent, which were typed in that order, with
      perhaps one more that could not be sent; the other's are the columns received first; only the last turn can have
      ended the game, and the verdict is what its code and its player say. */
  lemma {:induction false} SessionIsGame(starts: bool, stdin: seq<Input>, inbox: seq<nat>, up: nat -> bool)
    returns (turns: seq<Turn>, received: nat)
    requires InDomain(stdin, inbox)
    ensures var end := Session(NewPeer(starts), stdin, inbox, [], up);
            && received <= |inbox| && Ended(end.peer, turns, end.sent, inbox[..received])
            && Within(end.sent, Typed(stdin))
  {
    hide Move, LastCode, Session;
    var added;
    turns, received, added := SessionGoesOn(NewPeer(starts), stdin, inbox, [], up, [], []);
    assert [] + inbox[..received] == inbox[..received];
    assert [] + added == added;
  }
}
