// What each round does to whom: the states of the users before and after, and the messages sent, for every outcome.

module Answers {
  import opened Bytes
  import opened Messages
  import opened Directory
  import opened Listing
  import opened Handlers
  import opened Lobby

  /** A user that is not there any more has been disconnected. */
  function StateOf(d: Directory, x: Uid): UserState {
    if x in d.users then d.users[x].state else Disconnected
  }

  /** Nothing about the user changed. */
  ghost predicate Untouched(d: Directory, d': Directory, x: Uid) {
    (x in d'.users <==> x in d.users) && (x in d.users ==> d'.users[x] == d.users[x])
  }

  /** Everybody but these two is as before. */
  ghost predicate OnlyTwo(d: Directory, d': Directory, u: Uid, v: Uid) {
    forall x: Uid :: x != u && x != v ==> Untouched(d, d', x)
  }

  /** Who is still there has kept its descriptor, name and opponent. */
  ghost predicate SamePerson(d: Directory, d': Directory, x: Uid) {
    x in d'.users ==>
      x in d.users && d'.users[x].fd == d.users[x].fd && d'.users[x].name == d.users[x].name &&
      d'.users[x].opponent == d.users[x].opponent
  }

  // ----- Parts of a round -----

  lemma {:induction false} YieldState(d: Directory, w: Uid, x: Uid)
    requires w in d.users && d.users[w].refs > 0
    ensures StateOf(Yield(d, w), x) == StateOf(d, x)
    ensures x != w ==> Untouched(d, Yield(d, w), x)
    ensures SamePerson(d, Yield(d, w), x)
  {
  }

  lemma {:induction false} BothState(d: Directory, u: Uid, v: Uid, out: Outcome, x: Uid)
    requires u in d.users && v in d.users && d.users[v].refs > 0 && u != v
    ensures var d' := Both(d, u, v, out).d;
            && StateOf(d', x) ==
                 (if x == u then Changed(d.users[u], out.u).state
                  else if x == v then Changed(d.users[v], out.v).state else StateOf(d, x))
            && (x != u && x != v ==> Untouched(d, d', x))
            && u in d'.users && d'.users[u] == Changed(d.users[u], out.u)
            && (v in d'.users ==> d'.users[v] == Changed(d.users[v], out.v).(refs := d.users[v].refs - 1))
  {
    hide Yield;
    YieldState(ChangeBoth(d, u, v, out), v, x);
    YieldState(ChangeBoth(d, u, v, out), v, u);
    YieldUsers(ChangeBoth(d, u, v, out), v, v);
    GivenBack(ChangeBoth(d, u, v, out), v);
  }

  lemma {:induction false} GivenBack(d: Directory, w: Uid)
    requires w in d.users && d.users[w].refs > 0
    ensures w in Yield(d, w).users ==> Yield(d, w).users[w] == d.users[w].(refs := d.users[w].refs - 1)
  {
  }

  /** From what the handler leaves to what the round leaves. */
  lemma {:induction false} WorkState(env: Env, d: Directory, fd: int, e: Event, o: Oracle, x: Uid)
    requires Indexed(d) && fd in d.byFd && d.byFd[fd] in d.users
    ensures Indexed(AddRef(d, d.byFd[fd], 1))
    ensures var u := d.byFd[fd];
            var r, d' := Handle(env, AddRef(d, u, 1), u, e, o), Work(env, d, fd, e, o).0;
            && StateOf(d', x) == (if x == u && !r.res then Disconnected else StateOf(r.d, x))
            && (x != u ==> Untouched(r.d, d', x)) && SamePerson(r.d, d', x)
            && Work(env, d, fd, e, o).1 == r.sent
  {
    WorkYields(env, d, fd, e, o);
    var u := d.byFd[fd];
    var r := Handle(env, AddRef(d, u, 1), u, e, o);
    WorkSends(env, d, fd, e, o);
    hide Handle, Work, Yield, Indexed;
    YieldState(Final(u, r), u, x);
  }

  lemma {:induction false} WorkSends(env: Env, d: Directory, fd: int, e: Event, o: Oracle)
    requires Indexed(d) && fd in d.byFd && d.byFd[fd] in d.users
    ensures Indexed(AddRef(d, d.byFd[fd], 1))
    ensures Work(env, d, fd, e, o).1 == Handle(env, AddRef(d, d.byFd[fd], 1), d.byFd[fd], e, o).sent
  {
    GetKeeps(d, [], fd);
    hide Handle, Indexed;
  }

  // ----- The answer to a challenge -----

  /** The states of the sender and of its opponent after an answer, from the opponent's state before: first that of
      the sender, then that of the opponent. */
  function AnswerStates(certified: bool, accept: bool, other: UserState, o: Oracle): (UserState, UserState) {
    var ok0, ok1, ok2 := o.Ok(0), o.Ok(1), o.Ok(2);
    if !accept then (if o.junk then Available else Disconnected, if ok0 then Available else Disconnected)
    else if other != Challenged then (if ok0 then Challenged else Disconnected, other)
    else if !certified then (Disconnected, Challenged)
    else if ok0 && ok1 then (Playing, Playing)
    else if !ok0 && !ok1 then (Disconnected, Disconnected)
    else if ok0 then (if ok2 then Available else Disconnected, Challenged)
    else (if o.junk then Challenged else Disconnected, if ok2 then Available else Disconnected)
  }

  function StartTo(env: Env, to: Uid, other: User, port: uint16, ok: bool): Sent
    requires other.name in env.certs
  {
    Sent(to, GameStart(other.name, SockAddr(env.address(other.fd), port), env.certs[other.name]), ok)
  }

  /** The messages of an answer: to whom, about whom, and with which address, port and certificate. */
  function AnswerMessages(env: Env, i: Uid, j: Uid, u: User, v: User, accept: bool, port: uint16, o: Oracle)
    : seq<Sent>
  {
    var ok0, ok1, ok2 := o.Ok(0), o.Ok(1), o.Ok(2);
    if !accept then [Sent(j, GameCancel(u.name), ok0)]
    else if v.state != Challenged then [Sent(i, GameCancel(v.name), ok0)]
    else if u.name !in env.certs || v.name !in env.certs then []
    else
      [StartTo(env, i, v, 0, ok0), StartTo(env, j, u, port, ok1)] +
      (if ok0 == ok1 then []
       else if ok0 then [Sent(i, GameCancel(v.name), ok2)]
       else [Sent(j, GameCancel(u.name), ok2)])
  }

  lemma {:induction false} RespondStates(env: Env, i: Uid, j: Uid, u: User, v: User, accept: bool, port: uint16,
    o: Oracle)
    requires u.state == Challenged
    ensures var out := RespondBoth(env, i, j, u, v, accept, port, o);
            && AnswerStates(u.name in env.certs && v.name in env.certs, accept, v.state, o) ==
                 (if out.res then Changed(u, out.u).state else Disconnected, Changed(v, out.v).state)
            && out.sent == AnswerMessages(env, i, j, u, v, accept, port, o)
            && !out.u.Duel? && !out.v.Duel?
  {
  }

  lemma {:induction false} BothResult(d: Directory, u: Uid, v: Uid, out: Outcome)
    requires u in d.users && v in d.users && d.users[v].refs > 0 && u != v
    ensures Both(d, u, v, out).sent == out.sent && Both(d, u, v, out).res == out.res
  {
    hide Yield;
  }

  /** Handles do not matter for what is sent. */
  lemma {:induction false} SameMessages(env: Env, i: Uid, j: Uid, u: User, v: User, u': User, v': User, accept: bool,
    port: uint16, o: Oracle)
    requires u == u'.(refs := u.refs) && v == v'.(refs := v.refs)
    ensures AnswerMessages(env, i, j, u, v, accept, port, o) == AnswerMessages(env, i, j, u', v', accept, port, o)
  {
  }

  lemma {:induction false} FoundAnswer(env: Env, d: Directory, u: Uid, accept: bool, port: uint16, o: Oracle)
    requires Indexed(d) && u in d.users && d.users[u].state == Challenged
    requires d.users[u].opponent in d.byName && d.byName[d.users[u].opponent] != u
    ensures var r, v := HandleResponse(env, d, u, accept, port, o), d.byName[d.users[u].opponent];
            && v in d.users && d.users[v].name == d.users[u].opponent
            && (if r.res then StateOf(r.d, u) else Disconnected, StateOf(r.d, v)) ==
                 AnswerStates(d.users[u].name in env.certs && d.users[v].name in env.certs, accept, d.users[v].state, o)
            && r.sent == AnswerMessages(env, u, v, d.users[u], d.users[v], accept, port, o)
            && OnlyTwo(d, r.d, u, v) && SamePerson(d, r.d, u) && SamePerson(d, r.d, v)
  {
    var v := d.byName[d.users[u].opponent];
    NamesFound(d, d.users[u].opponent);
    var d1 := AddRef(d, v, 1);
    var out := RespondBoth(env, u, v, d1.users[u], d1.users[v], accept, port, o);
    assert HandleResponse(env, d, u, accept, port, o) == Both(d1, u, v, out);
    BothResult(d1, u, v, out);
    RespondStates(env, u, v, d1.users[u], d1.users[v], accept, port, o);
    SameMessages(env, u, v, d1.users[u], d1.users[v], d.users[u], d.users[v], accept, port, o);
    BothState(d1, u, v, out, u);
    BothState(d1, u, v, out, v);
    hide Indexed, Both, RespondBoth, AnswerStates, AnswerMessages, HandleResponse;
    forall x: Uid | x != u && x != v
      ensures Untouched(d, Both(d1, u, v, out).d, x)
    {
      BothState(d1, u, v, out, x);
    }
  }

  /** What the round does to others than its sender is what the handler does. */
  lemma {:induction false} OthersOfRound(env: Env, d: Directory, fd: int, e: Event, o: Oracle, u: Uid, v: Uid)
    requires Indexed(d) && fd in d.byFd && d.byFd[fd] in d.users && u == d.byFd[fd]
    requires Indexed(AddRef(d, u, 1)) && OnlyTwo(AddRef(d, u, 1), Handle(env, AddRef(d, u, 1), u, e, o).d, u, v)
    ensures OnlyTwo(d, Work(env, d, fd, e, o).0, u, v)
  {
    hide Handle, Work, Indexed;
    forall x: Uid | x != u && x != v
      ensures Untouched(d, Work(env, d, fd, e, o).0, x)
    {
      WorkState(env, d, fd, e, o, x);
      assert Untouched(AddRef(d, u, 1), Handle(env, AddRef(d, u, 1), u, e, o).d, x);
    }
  }

  /** One whole round with an answer, for any directory: the states of the two, the messages sent, and that nobody else
      is touched. */
  lemma {:induction false} AnswerExactly(env: Env, d: Directory, fd: int, accept: bool, port: uint16, o: Oracle)
    requires Indexed(d) && fd in d.byFd && d.byFd[fd] in d.users && d.users[d.byFd[fd]].state == Challenged
    ensures var u := d.byFd[fd];
            var (d', sent) := Work(env, d, fd, Response(accept, port), o);
            var name := d.users[u].opponent;
            if name !in d.byName || d.byName[name] == u then
              && StateOf(d', u) == (if o.Ok(0) then Available else Disconnected)
              && sent == [Sent(u, GameCancel(name), o.Ok(0))] && OnlyTwo(d, d', u, u) && SamePerson(d, d', u)
            else
              var v := d.byName[name];
              && v in d.users && u != v
              && (StateOf(d', u), StateOf(d', v)) ==
                   AnswerStates(d.users[u].name in env.certs && name in env.certs, accept, d.users[v].state, o)
              && sent == AnswerMessages(env, u, v, d.users[u], d.users[v], accept, port, o)
              && OnlyTwo(d, d', u, v) && SamePerson(d, d', u) && SamePerson(d, d', v)
  {
    var u, e := d.byFd[fd], Response(accept, port);
    var name := d.users[u].opponent;
    var d0 := AddRef(d, u, 1);
    WorkState(env, d, fd, e, o, u);
    var r := Handle(env, d0, u, e, o);
    assert r == HandleResponse(env, d0, u, accept, port, o);
    if name !in d.byName || d.byName[name] == u {
      assert OnlyTwo(d0, r.d, u, u);
      hide Handle, HandleResponse, Work, Indexed;
      OthersOfRound(env, d, fd, e, o, u, u);
    } else {
      var v := d.byName[name];
      NamesFound(d, name);
      hide Handle, HandleResponse, Work, Indexed, AnswerStates, AnswerMessages;
      FoundAnswer(env, d0, u, accept, port, o);
      WorkState(env, d, fd, e, o, v);
      OthersOfRound(env, d, fd, e, o, u, v);
      SameMessages(env, u, v, d0.users[u], d0.users[v], d.users[u], d.users[v], accept, port, o);
    }
  }

  // ----- A challenge -----

  /** The states of the sender and of the challenged user after a challenge, from the latter's state before. */
  function ChallengeStates(other: UserState, o: Oracle): (UserState, UserState) {
    if other != Available then (if o.Ok(0) then Available else Disconnected, other)
    else if o.Ok(0) then (Challenged, Challenged)
    else (if o.Ok(1) then Available else Disconnected, Disconnected)
  }

  /** The messages of a challenge: to whom and about whom. */
  function ChallengeMessages(i: Uid, j: Uid, u: User, v: User, o: Oracle): seq<Sent> {
    if v.state != Available then [Sent(i, GameCancel(v.name), o.Ok(0))]
    else
      [Sent(j, ChallengeForward(u.name), o.Ok(0))] + if o.Ok(0) then [] else [Sent(i, GameCancel(v.name), o.Ok(1))]
  }

  /** Who is challenged has the other one as its opponent, and otherwise keeps the one it had. */
  predicate OpponentsFit(d: Directory, d': Directory, u: Uid, v: Uid, met: bool)
    requires u in d.users && v in d.users
  {
    && (u in d'.users ==> d'.users[u].opponent == if met then d.users[v].name else d.users[u].opponent)
    && (v in d'.users ==> d'.users[v].opponent == if met then d.users[u].name else d.users[v].opponent)
    && (u in d'.users ==> d'.users[u].name == d.users[u].name && d'.users[u].fd == d.users[u].fd)
    && (v in d'.users ==> d'.users[v].name == d.users[v].name && d'.users[v].fd == d.users[v].fd)
  }

  lemma {:induction false} FoundChallenge(d: Directory, u: Uid, name: Name, o: Oracle)
    requires Indexed(d) && u in d.users && d.users[u].state == Available && name in d.byName && d.byName[name] != u
    ensures var r, v := HandleChallenge(d, u, name, o), d.byName[name];
            && v in d.users && d.users[v].name == name
            && (if r.res then StateOf(r.d, u) else Disconnected) == ChallengeStates(d.users[v].state, o).0
            && StateOf(r.d, v) == ChallengeStates(d.users[v].state, o).1
            && r.sent == ChallengeMessages(u, v, d.users[u], d.users[v], o)
            && OnlyTwo(d, r.d, u, v) && OpponentsFit(d, r.d, u, v, d.users[v].state == Available && o.Ok(0))
  {
    var v := d.byName[name];
    NamesFound(d, name);
    var d1 := AddRef(d, v, 1);
    var out := ChallengeBoth(u, v, d1.users[u], d1.users[v], name, o);
    assert HandleChallenge(d, u, name, o) == Both(d1, u, v, out);
    BothResult(d1, u, v, out);
    BothState(d1, u, v, out, u);
    BothState(d1, u, v, out, v);
    hide Indexed, Both, HandleChallenge;
    forall x: Uid | x != u && x != v
      ensures Untouched(d, Both(d1, u, v, out).d, x)
    {
      BothState(d1, u, v, out, x);
    }
  }

  /** One whole round with a challenge, for any directory. */
  lemma {:induction false} ChallengeExactly(env: Env, d: Directory, fd: int, name: Name, o: Oracle)
    requires Indexed(d) && fd in d.byFd && d.byFd[fd] in d.users && d.users[d.byFd[fd]].state == Available
    ensures var u := d.byFd[fd];
            var (d', sent) := Work(env, d, fd, Event.Challenge(name), o);
            if name !in d.byName || d.byName[name] == u then
              && StateOf(d', u) == (if o.Ok(0) then Available else Disconnected)
              && sent == [Sent(u, GameCancel(name), o.Ok(0))] && OnlyTwo(d, d', u, u) && SamePerson(d, d', u)
            else
              var v := d.byName[name];
              && v in d.users && u != v
              && (StateOf(d', u), StateOf(d', v)) == ChallengeStates(d.users[v].state, o)
              && sent == ChallengeMessages(u, v, d.users[u], d.users[v], o)
              && OnlyTwo(d, d', u, v) && OpponentsFit(d, d', u, v, d.users[v].state == Available && o.Ok(0))
  {
    var u, e := d.byFd[fd], Event.Challenge(name);
    var d0 := AddRef(d, u, 1);
    WorkState(env, d, fd, e, o, u);
    var r := Handle(env, d0, u, e, o);
    assert r == HandleChallenge(d0, u, name, o);
    if name !in d.byName || d.byName[name] == u {
      assert OnlyTwo(d0, r.d, u, u);
      hide Handle, HandleChallenge, Work, Indexed;
      OthersOfRound(env, d, fd, e, o, u, u);
    } else {
      var v := d.byName[name];
      NamesFound(d, name);
      hide Handle, HandleChallenge, Work, Indexed, ChallengeStates;
      FoundChallenge(d0, u, name, o);
      WorkState(env, d, fd, e, o, v);
      OthersOfRound(env, d, fd, e, o, u, v);
    }
  }

  // ----- All other rounds -----

  /** The state of the sender after any other message, from its state before. */
  function OtherState(env: Env, d: Directory, user: User, e: Event, o: Oracle): UserState {
    if e == Raised || e == Dropped then Disconnected
    else match user.state
      case JustConnected => (match e
        case Hello(ok) => if ok then JustConnected else Disconnected
        case Verify(ok) => if ok then SecurelyConnected else Disconnected
        case CertificateRequest => if o.Ok(0) then JustConnected else Disconnected
        case _ => JustConnected)
      case SecurelyConnected =>
        if !e.Register? then SecurelyConnected
        else if e.name == env.ownName || e.name in d.byName then Disconnected else Available
      case Available => if e.ListRequest? && !o.Ok(0) then Disconnected else Available
      case Playing => if e.EndOfGame? then Available else Playing
      case s => s
  }

  /** What is sent then, always to the sender: the server's certificate or the list. */
  ghost function OtherMessages(env: Env, d: Directory, u: Uid, state: UserState, e: Event, o: Oracle): seq<Sent>
    requires Indexed(d)
  {
    if state == JustConnected && e == CertificateRequest then [Sent(u, Certificate(env.ownCert), o.Ok(0))]
    else if state == Available && e.ListRequest? then
      var from := if e.offset < 0x8000_0000 then e.offset else e.offset - 0x1_0000_0000;
      [Sent(u, UsersList(Listed(Offered(d), from)), o.Ok(0))]
    else []
  }

  lemma {:induction false} SameOffered(d: Directory, u: Uid)
    requires Indexed(d) && u in d.users && Indexed(AddRef(d, u, 1))
    ensures Offered(AddRef(d, u, 1)) == Offered(d)
  {
    assert AvailableNames(AddRef(d, u, 1)) == AvailableNames(d);
  }

  lemma {:induction false} SameOther(env: Env, d: Directory, u: Uid, e: Event, o: Oracle)
    requires u in d.users
    ensures var d' := AddRef(d, u, 1); OtherState(env, d', d'.users[u], e, o) == OtherState(env, d, d.users[u], e, o)
  {
  }

  lemma {:induction false} OtherHandled(env: Env, d: Directory, u: Uid, e: Event, o: Oracle)
    requires Indexed(d) && u in d.users
    requires !(d.users[u].state == Challenged && e.Response?) && !(d.users[u].state == Available && e.Challenge?)
    ensures var r := Handle(env, d, u, e, o);
            && (if r.res then StateOf(r.d, u) else Disconnected) == OtherState(env, d, d.users[u], e, o)
            && r.sent == OtherMessages(env, d, u, d.users[u].state, e, o)
            && OnlyTwo(d, r.d, u, u)
            && u in r.d.users && r.d.users[u].fd == d.users[u].fd && r.d.users[u].opponent == d.users[u].opponent
            && r.d.users[u].name == NameAfter(env, d.users[u], e)
  {
    hide Indexed, Offered, Listed, Insert;
  }

  /** One whole round with any other message, for any directory. */
  lemma {:induction false} OthersExactly(env: Env, d: Directory, fd: int, e: Event, o: Oracle)
    requires Indexed(d) && fd in d.byFd && d.byFd[fd] in d.users
    requires var s := d.users[d.byFd[fd]].state; !(s == Challenged && e.Response?) && !(s == Available && e.Challenge?)
    ensures var u := d.byFd[fd];
            var (d', sent) := Work(env, d, fd, e, o);
            && StateOf(d', u) == OtherState(env, d, d.users[u], e, o)
            && sent == OtherMessages(env, d, u, d.users[u].state, e, o)
            && OnlyTwo(d, d', u, u)
            && (u in d'.users ==> d'.users[u].name == NameAfter(env, d.users[u], e) && d'.users[u].fd == d.users[u].fd)
  {
    var u := d.byFd[fd];
    hide Handle, Work, Indexed, Offered, Listed, OtherState;
    WorkState(env, d, fd, e, o, u);
    OtherHandled(env, AddRef(d, u, 1), u, e, o);
    SameOffered(d, u);
    SameOther(env, d, u, e, o);
    OthersOfRound(env, d, fd, e, o, u, u);
  }

  /** A broken connection disconnects its user, and nobody else is touched. */
  lemma {:induction false} LostExactly(env: Env, d: Directory, fd: int)
    requires Indexed(d) && fd in d.byFd && d.byFd[fd] in d.users
    ensures var u, d' := d.byFd[fd], Next(env, d, Lost(fd)).0;
            StateOf(d', u) == Disconnected && OnlyTwo(d, d', u, u) && SamePerson(d, d', u)
  {
    var u := d.byFd[fd];
    var d1 := SetState(AddRef(d, u, 1), u, Disconnected);
    hide Indexed, Yield;
    forall x: Uid
      ensures x != u ==> Untouched(d, Yield(d1, u), x)
    {
      YieldState(d1, u, x);
    }
    YieldState(d1, u, u);
  }

  // ----- From the start of a game to its end -----

  /** Both game starts of the round were taken, and one of them went to `x`. */
  predicate StartsGame(sent: seq<Sent>, x: Uid) {
    && |sent| == 2 && sent[0].m.GameStart? && sent[1].m.GameStart? && sent[0].ok && sent[1].ok
    && (sent[0].to == x || sent[1].to == x)
  }

  /** `x` says that the game is over, or goes away. */
  predicate OwnEnd(d: Directory, r: Round, x: Uid) {
    match r
    case Connect(_, _) => false
    case Lost(fd) => fd in d.byFd && d.byFd[fd] == x
    case Message(fd, e, o) => fd in d.byFd && d.byFd[fd] == x && (e.EndOfGame? || e.Raised? || e.Dropped?)
  }

  /** Somebody challenged, whose opponent is found to be `x`, rejects. */
  predicate RejectedBy(d: Directory, r: Round, x: Uid)
    requires forall fd :: fd in d.byFd ==> d.byFd[fd] in d.users
  {
    r.Message? && r.fd in d.byFd &&
    var u := d.byFd[r.fd];
    u != x && d.users[u].state == Challenged && r.e.Response? && !r.e.accept &&
    d.users[u].opponent in d.byName && d.byName[d.users[u].opponent] == x
  }

  predicate EndsGame(d: Directory, r: Round, x: Uid)
    requires forall fd :: fd in d.byFd ==> d.byFd[fd] in d.users
  {
    OwnEnd(d, r, x) || RejectedBy(d, r, x)
  }

  /** Whose state and messages are these: nobody but the two, and what they say about playing. */
  lemma {:induction false} TablePlaying(env: Env, i: Uid, j: Uid, u: User, v: User, accept: bool, port: uint16,
    o: Oracle, x: Uid)
    requires i != j
    ensures var (a, b) := AnswerStates(u.name in env.certs && v.name in env.certs, accept, v.state, o);
            var starts := StartsGame(AnswerMessages(env, i, j, u, v, accept, port, o), x);
            && (x == i ==> (a == Playing <==> starts))
            && (x == j ==> (b == Playing <==> starts || (v.state == Playing && accept)))
            && (x != i && x != j ==> !starts)
  {
  }

  lemma {:induction false} AnswerPlaying(env: Env, d: Directory, fd: int, e: Event, o: Oracle, x: Uid)
    requires Indexed(d) && fd in d.byFd && d.byFd[fd] in d.users && d.users[d.byFd[fd]].state == Challenged
    requires e.Response?
    requires forall k :: k in d.byFd ==> d.byFd[k] in d.users
    ensures StateOf(Work(env, d, fd, e, o).0, x) == Playing <==>
            (StateOf(d, x) == Playing && !EndsGame(d, Message(fd, e, o), x)) ||
            StartsGame(Work(env, d, fd, e, o).1, x)
  {
    var u := d.byFd[fd];
    var name := d.users[u].opponent;
    AnswerExactly(env, d, fd, e.accept, e.port, o);
    var d' := Work(env, d, fd, e, o).0;
    if name in d.byName && d.byName[name] != u {
      var v := d.byName[name];
      NamesFound(d, name);
      TablePlaying(env, u, v, d.users[u], d.users[v], e.accept, e.port, o, x);
      hide Work, Indexed, AnswerStates, AnswerMessages, StartsGame;
      assert x != u && x != v ==> Untouched(d, d', x);
    } else {
      hide Work, Indexed;
      assert x != u ==> Untouched(d, d', x);
    }
  }

  lemma {:induction false} ChallengePlaying(env: Env, d: Directory, fd: int, e: Event, o: Oracle, x: Uid)
    requires Indexed(d) && fd in d.byFd && d.byFd[fd] in d.users && d.users[d.byFd[fd]].state == Available &&
             e.Challenge?
    requires forall k :: k in d.byFd ==> d.byFd[k] in d.users
    ensures StateOf(Work(env, d, fd, e, o).0, x) == Playing <==>
            (StateOf(d, x) == Playing && !EndsGame(d, Message(fd, e, o), x)) ||
            StartsGame(Work(env, d, fd, e, o).1, x)
  {
    var u := d.byFd[fd];
    ChallengeExactly(env, d, fd, e.name, o);
    hide Work, Indexed;
    var d' := Work(env, d, fd, e, o).0;
    assert x != u && (e.name in d.byName ==> x != d.byName[e.name]) ==> Untouched(d, d', x);
  }

  lemma {:induction false} OtherPlaying(env: Env, d: Directory, fd: int, e: Event, o: Oracle, x: Uid)
    requires Indexed(d) && fd in d.byFd && d.byFd[fd] in d.users && forall k :: k in d.byFd ==> d.byFd[k] in d.users
    requires var s := d.users[d.byFd[fd]].state; !(s == Challenged && e.Response?) && !(s == Available && e.Challenge?)
    ensures StateOf(Work(env, d, fd, e, o).0, x) == Playing <==>
            (StateOf(d, x) == Playing && !EndsGame(d, Message(fd, e, o), x)) ||
            StartsGame(Work(env, d, fd, e, o).1, x)
  {
    hide Work, Indexed, Offered, Listed;
    OthersExactly(env, d, fd, e, o);
    if x != d.byFd[fd] {
      assert Untouched(d, Work(env, d, fd, e, o).0, x);
    }
  }

  lemma {:induction false} MessagePlaying(env: Env, d: Directory, fd: int, e: Event, o: Oracle, x: Uid)
    requires Indexed(d) && fd in d.byFd && d.byFd[fd] in d.users && forall k :: k in d.byFd ==> d.byFd[k] in d.users
    ensures StateOf(Work(env, d, fd, e, o).0, x) == Playing <==>
            (StateOf(d, x) == Playing && !EndsGame(d, Message(fd, e, o), x)) ||
            StartsGame(Work(env, d, fd, e, o).1, x)
  {
    hide Work, Indexed, StateOf, StartsGame, EndsGame;
    var s := d.users[d.byFd[fd]].state;
    if s == Challenged && e.Response? {
      AnswerPlaying(env, d, fd, e, o, x);
    } else if s == Available && e.Challenge? {
      ChallengePlaying(env, d, fd, e, o, x);
    } else {
      OtherPlaying(env, d, fd, e, o, x);
    }
  }

  lemma {:induction false} ConnectPlaying(d: Directory, u: Uid, fd: int, x: Uid)
    requires Indexed(d) && Valid(d, Connect(u, fd))
    ensures StateOf(Connected(d, u, fd), x) == Playing <==> StateOf(d, x) == Playing
  {
    hide Indexed;
  }

  /** One round: a user is playing afterwards exactly if it was and its game did not end, or its game starts now. */
  lemma {:induction false} PlayingExactly(env: Env, d: Directory, r: Round, x: Uid)
    requires Indexed(d) && Valid(d, r)
    ensures forall fd :: fd in d.byFd ==> d.byFd[fd] in d.users
    ensures var (d', sent) := Next(env, d, r);
            StateOf(d', x) == Playing <==> (StateOf(d, x) == Playing && !EndsGame(d, r, x)) || StartsGame(sent, x)
  {
    assert forall k :: k in d.byFd ==> d.byFd[k] in d.users;
    hide Indexed, Work, StateOf, Connected, Disconnect;
    match r
    case Connect(u, fd) => ConnectPlaying(d, u, fd, x);
    case Message(fd, e, o) =>
      if fd in d.byFd {
        MessagePlaying(env, d, fd, e, o, x);
      } else {
        NobodyThere(env, d, fd, e, o);
      }
    case Lost(fd) =>
      if fd in d.byFd {
        LostExactly(env, d, fd);
        LostPlaying(env, d, fd, x);
      } else {
        NobodyLost(d, fd);
      }
  }

  lemma {:induction false} NobodyThere(env: Env, d: Directory, fd: int, e: Event, o: Oracle)
    requires Indexed(d) && fd !in d.byFd
    ensures Work(env, d, fd, e, o) == (d, [])
  {
    hide Indexed;
  }

  lemma {:induction false} NobodyLost(d: Directory, fd: int)
    requires Indexed(d) && fd !in d.byFd
    ensures Disconnect(d, fd) == d
  {
    hide Indexed;
  }

  lemma {:induction false} LostPlaying(env: Env, d: Directory, fd: int, x: Uid)
    requires Indexed(d) && fd in d.byFd && d.byFd[fd] in d.users
    ensures StateOf(Next(env, d, Lost(fd)).0, x) == Playing <==> StateOf(d, x) == Playing && d.byFd[fd] != x
  {
    LostExactly(env, d, fd);
    hide Indexed, Next;
    if x != d.byFd[fd] {
      assert Untouched(d, Next(env, d, Lost(fd)).0, x);
    }
  }

  /** After these rounds: the last one that started a game of `x`, if any, was not followed by one that ended it. */
  ghost predicate InGame(env: Env, d: Directory, rs: seq<Round>, x: Uid, now: bool)
    requires Sound(d) && ValidRun(env, d, rs)
    decreases |rs|
  {
    if rs == [] then now
    else
      NextSound(env, d, rs[0]);
      InGame(env, Next(env, d, rs[0]).0, rs[1..], x,
             (now && !EndsGame(d, rs[0], x)) || StartsGame(Next(env, d, rs[0]).1, x))
  }

  lemma {:induction false} InGameIsPlaying(env: Env, d: Directory, rs: seq<Round>, x: Uid, now: bool)
    requires Sound(d) && ValidRun(env, d, rs) && (now <==> StateOf(d, x) == Playing)
    ensures StateOf(After(env, d, rs), x) == Playing <==> InGame(env, d, rs, x, now)
    decreases |rs|
  {
    hide Settled, Next, StateOf, StartsGame, EndsGame;
    if rs != [] {
      NextSound(env, d, rs[0]);
      PlayingExactly(env, d, rs[0], x);
      InGameIsPlaying(env, Next(env, d, rs[0]).0, rs[1..], x,
        (now && !EndsGame(d, rs[0], x)) || StartsGame(Next(env, d, rs[0]).1, x));
    }
  }

  /** In every run from the empty server, with any faults: a user is playing exactly from a round in which both game
      starts, one of them to it, were taken, until its game ends. */
  lemma {:induction false} PlayingFromStartToEnd(env: Env, rs: seq<Round>, x: Uid)
    requires Sound(EMPTY) && ValidRun(env, EMPTY, rs)
    ensures StateOf(After(env, EMPTY, rs), x) == Playing <==> InGame(env, EMPTY, rs, x, false)
  {
    InGameIsPlaying(env, EMPTY, rs, x, false);
  }

  // ----- Whose game it is -----

  /** While challenged users are paired off nobody else ends a user's game. */
  lemma {:induction false} OnlyOwnEnds(d: Directory, r: Round, x: Uid)
    requires Indexed(d) && Matching(d) && StateOf(d, x) == Playing
    ensures forall fd :: fd in d.byFd ==> d.byFd[fd] in d.users
    ensures EndsGame(d, r, x) <==> OwnEnd(d, r, x)
  {
    assert forall fd :: fd in d.byFd ==> d.byFd[fd] in d.users;
    hide Indexed;
    if r.Message? && r.fd in d.byFd {
      assert InPair(d, d.byFd[r.fd]);
    }
  }

  /** From a round that starts its game until the user itself ends it or goes away. */
  ghost predicate InOwnGame(env: Env, d: Directory, rs: seq<Round>, x: Uid, now: bool)
    requires Sound(d) && ValidRun(env, d, rs)
    decreases |rs|
  {
    if rs == [] then now
    else
      NextSound(env, d, rs[0]);
      InOwnGame(env, Next(env, d, rs[0]).0, rs[1..], x,
                (now && !OwnEnd(d, rs[0], x)) || StartsGame(Next(env, d, rs[0]).1, x))
  }

  lemma {:induction false} OwnGameIsPlaying(env: Env, d: Directory, rs: seq<Round>, x: Uid, now: bool)
    requires Inv(d) && Sound(d) && ValidRun(env, d, rs) && AllHarmless(env, d, rs)
    requires now <==> StateOf(d, x) == Playing
    ensures StateOf(After(env, d, rs), x) == Playing <==> InOwnGame(env, d, rs, x, now)
    decreases |rs|
  {
    hide Matching, Settled, Next, StateOf, StartsGame, EndsGame, OwnEnd, KeepsMatching;
    if rs != [] {
      NextSound(env, d, rs[0]);
      MatchingKeptExactly(env, d, rs[0]);
      PlayingExactly(env, d, rs[0], x);
      if now {
        OnlyOwnEnds(d, rs[0], x);
      }
      OwnGameIsPlaying(env, Next(env, d, rs[0]).0, rs[1..], x,
        (now && !OwnEnd(d, rs[0], x)) || StartsGame(Next(env, d, rs[0]).1, x));
    }
  }

  /** In every run from the empty server that keeps challenged users paired off: a user is playing exactly from a round
      in which both game starts, one of them to it, were taken, until its own end of game or its disconnection. */
  lemma {:induction false} PlayingUntilOwnEnd(env: Env, rs: seq<Round>, x: Uid)
    requires Sound(EMPTY) && ValidRun(env, EMPTY, rs) && AllHarmless(env, EMPTY, rs)
    ensures StateOf(After(env, EMPTY, rs), x) == Playing <==> InOwnGame(env, EMPTY, rs, x, false)
  {
    OwnGameIsPlaying(env, EMPTY, rs, x, false);
  }
}
