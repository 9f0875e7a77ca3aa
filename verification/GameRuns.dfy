// A run in which somebody else ends a user's game.

module GameRuns {
  import opened Bytes
  import opened Directory
  import opened Handlers
  import opened Lobby
  import opened LobbyRuns
  import opened Answers

  /** The user is this one, whatever handles there are on it, and it is found by name. */
  ghost predicate Here(d: Directory, x: Uid, w: User) {
    x in d.users && d.users[x].(refs := 0) == w && w.name in d.byName && d.byName[w.name] == x
  }

  /** Then it is found by descriptor too. */
  lemma {:induction false} HereByFd(d: Directory, x: Uid, w: User)
    requires Sound(d) && Here(d, x, w)
    ensures w.fd in d.byFd && d.byFd[w.fd] == x
  {
    hide Settled;
  }

  /** Who stays keeps its entry in a round after which the sender stays. */
  lemma {:induction false} StaysHere(env: Env, d: Directory, fd: int, e: Event, o: Oracle, x: Uid, w: User, w': User)
    requires Sound(d) && Here(d, x, w) && fd in d.byFd
    requires var d' := Next(env, d, Message(fd, e, o)).0;
             d.byFd[fd] in d'.users && x in d'.users && d'.users[x].(refs := 0) == w' && w'.name == w.name
    ensures Here(Next(env, d, Message(fd, e, o)).0, x, w')
  {
    hide Settled, Next;
    EntryLostExactly(env, d, Message(fd, e, o), w.name);
  }

  lemma {:induction false} AnswerStep(env: Env, d: Directory, u: Uid, a: User, v: Uid, b: User, x: Uid, c: User,
    accept: bool, port: uint16, o: Oracle)
    requires Sound(d) && Here(d, u, a) && Here(d, v, b) && Here(d, x, c) && u != v && u != x && v != x
    requires a.state == Challenged && a.opponent == b.name
    requires var (s, t) := AnswerStates(a.name in env.certs && b.name in env.certs, accept, b.state, o);
             s != Disconnected && t != Disconnected
    ensures var (s, t) := AnswerStates(a.name in env.certs && b.name in env.certs, accept, b.state, o);
            var d' := Next(env, d, Message(a.fd, Response(accept, port), o)).0;
            && Leads(env, d, Message(a.fd, Response(accept, port), o), d') && Sound(d')
            && Here(d', u, a.(state := s)) && Here(d', v, b.(state := t)) && Here(d', x, c)
  {
    var e := Response(accept, port);
    var (s, t) := AnswerStates(a.name in env.certs && b.name in env.certs, accept, b.state, o);
    HereByFd(d, u, a);
    NextSound(env, d, Message(a.fd, e, o));
    AnswerExactly(env, d, a.fd, accept, port, o);
    hide Work, Indexed, Settled, AnswerStates, AnswerMessages;
    var d' := Next(env, d, Message(a.fd, e, o)).0;
    assert Untouched(d, d', x);
    StaysHere(env, d, a.fd, e, o, u, a, a.(state := s));
    StaysHere(env, d, a.fd, e, o, v, b, b.(state := t));
    StaysHere(env, d, a.fd, e, o, x, c, c);
  }

  /** A rejection frees the opponent, whatever it is doing. */
  lemma {:induction false} RejectStep(env: Env, d: Directory, u: Uid, a: User, v: Uid, b: User, port: uint16, o: Oracle)
    requires Sound(d) && Here(d, u, a) && Here(d, v, b) && u != v && o.Ok(0)
    requires a.state == Challenged && a.opponent == b.name
    ensures var reject := Message(a.fd, Response(false, port), o);
            !OwnEnd(d, reject, v) && Valid(d, reject) && StateOf(Next(env, d, reject).0, v) == Available
  {
    HereByFd(d, u, a);
    AnswerExactly(env, d, a.fd, false, port, o);
    hide Work, Indexed, Settled, AnswerMessages;
  }

  lemma {:induction false} MeetStep(env: Env, d: Directory, u: Uid, a: User, v: Uid, b: User, x: Uid, c: User,
    o: Oracle)
    requires Sound(d) && Here(d, u, a) && Here(d, v, b) && Here(d, x, c) && u != v && u != x && v != x
    requires a.state == Available && b.state == Available && o.Ok(0)
    ensures var d' := Next(env, d, Message(a.fd, Event.Challenge(b.name), o)).0;
            && Leads(env, d, Message(a.fd, Event.Challenge(b.name), o), d') && Sound(d')
            && Here(d', u, a.(state := Challenged, opponent := b.name))
            && Here(d', v, b.(state := Challenged, opponent := a.name)) && Here(d', x, c)
  {
    var e := Event.Challenge(b.name);
    HereByFd(d, u, a);
    NextSound(env, d, Message(a.fd, e, o));
    ChallengeExactly(env, d, a.fd, b.name, o);
    hide Work, Indexed, Settled, ChallengeMessages;
    var d' := Next(env, d, Message(a.fd, e, o)).0;
    assert Untouched(d, d', x);
    StaysHere(env, d, a.fd, e, o, u, a, a.(state := Challenged, opponent := b.name));
    StaysHere(env, d, a.fd, e, o, v, b, b.(state := Challenged, opponent := a.name));
    StaysHere(env, d, a.fd, e, o, x, c, c);
  }

  // ----- Three users -----

  function With3(n: Name, m: Name, w: User): Directory {
    var d := Facing(n, m, Available, [], []);
    Directory(d.users[3 := w], d.byFd[5 := 3], if w.name == [] then d.byName else d.byName[w.name := 3])
  }

  lemma {:induction false} ThirdArrives(env: Env, n: Name, m: Name, k: Name, o: Oracle)
    requires env.ownName != k && n != m && k != n && k != m && k != [] && Sound(Facing(n, m, Available, [], []))
    ensures var joining, secure := User(5, [], JustConnected, [], 0), User(5, [], SecurelyConnected, [], 0);
            && Leads(env, Facing(n, m, Available, [], []), Connect(3, 5), With3(n, m, joining))
            && Leads(env, With3(n, m, joining), Message(5, Verify(true), o), With3(n, m, secure))
            && Leads(env, With3(n, m, secure), Message(5, Event.Register(k), o),
                     With3(n, m, User(5, k, Available, [], 0)))
            && Sound(With3(n, m, User(5, k, Available, [], 0)))
  {
    hide Leads, Sound;
    var joining, secure := User(5, [], JustConnected, [], 0), User(5, [], SecurelyConnected, [], 0);
    var last := User(5, k, Available, [], 0);
    ConnectStep(env, Facing(n, m, Available, [], []), 3, 5);
    VerifyStep(env, With3(n, m, joining), 5, o);
    assert With3(n, m, joining).users[3 := secure] == With3(n, m, secure).users;
    RegisterStep(env, With3(n, m, secure), 5, k, o);
    assert With3(n, m, secure).users[3 := last] == With3(n, m, last).users;
  }

  // ----- The run -----

  function Opening(n: Name, m: Name, k: Name, port: uint16, o: Oracle, half: Oracle): seq<Round> {
    Arrival(1, 3, n, o) + Arrival(2, 4, m, o) + Arrival(3, 5, k, o) +
    [Message(3, Event.Challenge(m), o), Message(4, Response(true, port), half), Message(4, Event.Challenge(k), o),
     Message(5, Response(true, port), o)]
  }

  /** A challenge whose acceptance reaches only the one that accepted. */
  lemma {:induction false} HalfAccepted(env: Env, d: Directory, a: User, b: User, c: User, port: uint16, o: Oracle,
    half: Oracle) returns (d1: Directory, d2: Directory)
    requires Sound(d) && Here(d, 1, a) && Here(d, 2, b) && Here(d, 3, c) && {a.name, b.name} <= env.certs.Keys
    requires a.state == Available && b.state == Available && o.Ok(0) && half.Ok(0) && !half.Ok(1) && half.Ok(2)
    ensures Leads(env, d, Message(a.fd, Event.Challenge(b.name), o), d1)
    ensures Leads(env, d1, Message(b.fd, Response(true, port), half), d2) && Sound(d2)
    ensures Here(d2, 1, a.(state := Challenged, opponent := b.name)) && Here(d2, 2, b.(opponent := a.name)) &&
            Here(d2, 3, c)
  {
    hide Leads, Indexed, Settled, Next, Here;
    MeetStep(env, d, 1, a, 2, b, 3, c, o);
    d1 := Next(env, d, Message(a.fd, Event.Challenge(b.name), o)).0;
    var a', b' := a.(state := Challenged, opponent := b.name), b.(state := Challenged, opponent := a.name);
    AnswerStep(env, d1, 2, b', 1, a', 3, c, true, port, half);
    d2 := Next(env, d1, Message(b.fd, Response(true, port), half)).0;
    assert b'.(state := Available) == b.(opponent := a.name);
  }

  /** A challenge whose acceptance reaches both. */
  lemma {:induction false} BothAccepted(env: Env, d: Directory, a: User, b: User, c: User, port: uint16, o: Oracle)
    returns (d1: Directory, d2: Directory)
    requires Sound(d) && Here(d, 1, a) && Here(d, 2, b) && Here(d, 3, c) && {b.name, c.name} <= env.certs.Keys
    requires b.state == Available && c.state == Available && o.Ok(0) && o.Ok(1)
    ensures Leads(env, d, Message(b.fd, Event.Challenge(c.name), o), d1)
    ensures Leads(env, d1, Message(c.fd, Response(true, port), o), d2) && Sound(d2)
    ensures Here(d2, 1, a) && Here(d2, 2, b.(state := Playing, opponent := c.name))
  {
    hide Leads, Indexed, Settled, Next, Here;
    MeetStep(env, d, 2, b, 3, c, 1, a, o);
    d1 := Next(env, d, Message(b.fd, Event.Challenge(c.name), o)).0;
    var b', c' := b.(state := Challenged, opponent := c.name), c.(state := Challenged, opponent := b.name);
    AnswerStep(env, d1, 3, c', 2, b', 1, a, true, port, o);
    d2 := Next(env, d1, Message(c.fd, Response(true, port), o)).0;
    assert b'.(state := Playing) == b.(state := Playing, opponent := c.name);
  }

  lemma {:induction false} OpeningSteps(env: Env, n: Name, m: Name, k: Name, port: uint16, o: Oracle, half: Oracle)
    returns (d1: Directory, d2: Directory, d3: Directory, d4: Directory)
    requires n != m && k != n && k != m && {n, m, k} <= env.certs.Keys && [] !in {n, m, k}
    requires Sound(With3(n, m, User(5, k, Available, [], 0)))
    requires o.Ok(0) && o.Ok(1) && half.Ok(0) && !half.Ok(1) && half.Ok(2)
    ensures Leads(env, With3(n, m, User(5, k, Available, [], 0)), Message(3, Event.Challenge(m), o), d1)
    ensures Leads(env, d1, Message(4, Response(true, port), half), d2)
    ensures Leads(env, d2, Message(4, Event.Challenge(k), o), d3)
    ensures Leads(env, d3, Message(5, Response(true, port), o), d4)
    ensures Sound(d4) && Here(d4, 1, User(3, n, Challenged, m, 0)) && Here(d4, 2, User(4, m, Playing, k, 0))
  {
    hide Leads, Sound, Next;
    var d := With3(n, m, User(5, k, Available, [], 0));
    var a, b, c := User(3, n, Available, [], 0), User(4, m, Available, [], 0), User(5, k, Available, [], 0);
    assert Here(d, 1, a) && Here(d, 2, b) && Here(d, 3, c);
    hide Here, With3;
    d1, d2 := HalfAccepted(env, d, a, b, c, port, o, half);
    d3, d4 := BothAccepted(env, d2, a.(state := Challenged, opponent := m), b.(opponent := n), c, port, o);
  }

  lemma {:induction false} OpeningRun(env: Env, n: Name, m: Name, k: Name, port: uint16, o: Oracle, half: Oracle)
    requires n != m && k != n && k != m && {n, m, k} <= env.certs.Keys && env.ownName !in {n, m, k}
    requires [] !in {n, m, k} && o.Ok(0) && o.Ok(1) && half.Ok(0) && !half.Ok(1) && half.Ok(2)
    ensures Sound(EMPTY) && ValidRun(env, EMPTY, Opening(n, m, k, port, o, half))
    ensures var d := After(env, EMPTY, Opening(n, m, k, port, o, half));
            Here(d, 1, User(3, n, Challenged, m, 0)) && Here(d, 2, User(4, m, Playing, k, 0))
  {
    hide Leads, Sound, ValidRun, After, Here;
    FirstSteps(env, n, o);
    SecondJoins(env, n, o);
    SecondRegisters(env, n, m, o);
    ThirdArrives(env, n, m, k, o);
    var d1, d2, d3, d4 := OpeningSteps(env, n, m, k, port, o, half);
    hide Joining1, Joining2, Named1, Facing, With3;
    PathRuns(env, [EMPTY, Joining1(JustConnected), Joining1(SecurelyConnected), Named1(n), Joining2(n, JustConnected),
                   Joining2(n, SecurelyConnected), Facing(n, m, Available, [], []),
                   With3(n, m, User(5, [], JustConnected, [], 0)), With3(n, m, User(5, [], SecurelyConnected, [], 0)),
                   With3(n, m, User(5, k, Available, [], 0)), d1, d2, d3, d4],
             Opening(n, m, k, port, o, half));
  }

  /** Of two users one accepts and gets its game start, the other one does not and stays challenged. The first one plays
      with a third user; then the second one rejects the old challenge, and the first one is available in the middle of
      its game. */
  lemma {:induction false} RejectedInGame(env: Env, n: Name, m: Name, k: Name, port: uint16, o: Oracle, half: Oracle)
    requires n != m && k != n && k != m && {n, m, k} <= env.certs.Keys && env.ownName !in {n, m, k}
    requires [] !in {n, m, k} && o.Ok(0) && o.Ok(1) && half.Ok(0) && !half.Ok(1) && half.Ok(2)
    ensures var rs, reject := Opening(n, m, k, port, o, half), Message(3, Response(false, port), o);
            && Sound(EMPTY) && ValidRun(env, EMPTY, rs) && Valid(After(env, EMPTY, rs), reject)
            && !OwnEnd(After(env, EMPTY, rs), reject, 2)
            && StateOf(After(env, EMPTY, rs), 2) == Playing
            && StateOf(Next(env, After(env, EMPTY, rs), reject).0, 2) == Available
  {
    OpeningRun(env, n, m, k, port, o, half);
    hide ValidRun, Next, Opening;
    var d := After(env, EMPTY, Opening(n, m, k, port, o, half));
    hide After;
    RejectStep(env, d, 1, User(3, n, Challenged, m, 0), 2, User(4, m, Playing, k, 0), port, o);
  }
}
