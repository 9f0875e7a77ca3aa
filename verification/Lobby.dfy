// The lobby as a state machine whose rounds are whole messages: how challenges pair users up, and who is found by name.

module Lobby {
  import opened Bytes
  import opened Messages
  import opened Directory
  import opened Listing
  import opened Handlers

  /** A client connects, a worker handles one message, or the main loop finds a connection broken. */
  datatype Round = Connect(u: Uid, fd: int) | Message(fd: int, e: Event, o: Oracle) | Lost(fd: int)

  /** Addresses and open descriptors are unique. */
  predicate Valid(d: Directory, r: Round) {
    match r
    case Connect(u, fd) => u !in d.users && forall w :: w in d.users ==> d.users[w].fd != fd
    case _ => true
  }

  function Connected(d: Directory, u: Uid, fd: int): Directory {
    Add(d.(users := d.users[u := User(fd, [], JustConnected, [], 0)]), u).0
  }

  function Disconnect(d: Directory, fd: int): Directory
    requires Indexed(d)
  {
    var (d', found) := GetByFd(d, fd);
    if found == None then d' else Yield(SetState(d', found.value, Disconnected), found.value)
  }

  ghost function Next(env: Env, d: Directory, r: Round): (Directory, seq<Sent>)
    requires Indexed(d)
  {
    match r
    case Connect(u, fd) => (Connected(d, u, fd), [])
    case Message(fd, e, o) => Work(env, d, fd, e, o)
    case Lost(fd) => (Disconnect(d, fd), [])
  }

  // ----- The matching -----

  /** A registered user is found under its name, and nobody else has that name. */
  ghost predicate Owns(d: Directory, u: Uid)
    requires u in d.users
  {
    && (Registered(d.users[u].state) ==> d.users[u].name != [])
    && (d.users[u].name != [] ==> d.users[u].name in d.byName && d.byName[d.users[u].name] == u)
    && (d.users[u].state == JustConnected || d.users[u].state == SecurelyConnected ==> d.users[u].name == [])
  }

  /** `u` and `v` are in a challenge with each other. */
  ghost predicate Paired(d: Directory, u: Uid, v: Uid)
    requires u in d.users && v in d.users
  {
    && u != v && d.users[u].state == Challenged && d.users[v].state == Challenged
    && d.users[u].opponent == d.users[v].name && d.users[v].opponent == d.users[u].name
  }

  /** A challenged user's opponent is found, is challenged, and has this user as its opponent. */
  ghost predicate InPair(d: Directory, u: Uid)
    requires u in d.users
  {
    d.users[u].state == Challenged ==>
      var name := d.users[u].opponent;
      name in d.byName && d.byName[name] in d.users && Paired(d, u, d.byName[name])
  }

  ghost predicate Matching(d: Directory) {
    forall u :: u in d.users ==> Owns(d, u) && InPair(d, u)
  }

  ghost predicate Inv(d: Directory) {
    Indexed(d) && Matching(d)
  }

  // ----- The rounds that keep it -----

  /** The name can be indexed, nobody has it, and the list is not full; or it is refused without being set. */
  predicate CanRegister(env: Env, d: Directory, name: Name) {
    name == env.ownName || (name != [] && name !in d.byName && |d.byFd| < MAX_USERS)
  }

  /** An accepted challenge ends for both: both starts are sent or neither is, or the sender cannot be reached and its
      handler, whose result is not set then, happens to fail. */
  predicate EndsForBoth(env: Env, u: User, o: Oracle) {
    u.name in env.certs && u.opponent in env.certs && (o.Ok(0) == o.Ok(1) || (!o.Ok(0) && !o.junk))
  }

  /** What the sender's message may not be: in a challenge one that fails or starts a game for one of the two only,
      and before it a registration that is refused or cannot be indexed. */
  predicate Harmless(env: Env, d: Directory, u: Uid, e: Event, o: Oracle)
    requires u in d.users
  {
    match d.users[u].state
    case Challenged =>
      e != Raised && e != Dropped && (e.Response? && e.accept ==> EndsForBoth(env, d.users[u], o))
    case SecurelyConnected => e.Register? ==> CanRegister(env, d, e.name)
    case _ => true
  }

  predicate KeepsMatching(env: Env, d: Directory, r: Round)
    requires forall fd :: fd in d.byFd ==> d.byFd[fd] in d.users
  {
    match r
    case Connect(_, _) => true
    case Lost(fd) => fd in d.byFd ==> d.users[d.byFd[fd]].state != Challenged
    case Message(fd, e, o) => fd in d.byFd ==> Harmless(env, d, d.byFd[fd], e, o)
  }

  // ----- Each part of a round keeps the matching -----

  predicate Joining(s: UserState) {
    s == JustConnected || s == SecurelyConnected
  }

  lemma {:induction false} AddRefInv(d: Directory, u: Uid, delta: int)
    requires Inv(d) && u in d.users && d.users[u].refs + delta >= 0
    ensures Inv(AddRef(d, u, delta))
  {
    AddRefKeeps(d, u, delta);
    hide Indexed;
    var r := AddRef(d, u, delta);
    forall w | w in r.users
      ensures Owns(r, w) && InPair(r, w)
    {
      assert Owns(d, w) && InPair(d, w);
    }
  }

  /** A user that is in no challenge changes its state. */
  lemma {:induction false} StateInv(d: Directory, u: Uid, s: UserState)
    requires Inv(d) && u in d.users && d.users[u].state != Challenged && s != Challenged
    requires Registered(s) ==> d.users[u].name != []
    requires Joining(s) ==> d.users[u].name == []
    ensures Inv(SetState(d, u, s))
  {
    SetStateKeeps(d, u, s);
    hide Indexed;
    var r := SetState(d, u, s);
    forall w | w in r.users
      ensures Owns(r, w) && InPair(r, w)
    {
      assert Owns(d, w) && InPair(d, w);
    }
  }

  lemma {:induction false} DeleteInv(d: Directory, u: Uid)
    requires Inv(d) && u in d.users && d.users[u].state != Challenged && Indexed(Delete(d, u))
    ensures Inv(Delete(d, u))
  {
    hide Indexed;
    var r := Delete(d, u);
    assert Owns(d, u);
    forall w | w in r.users
      ensures Owns(r, w) && InPair(r, w)
    {
      assert Owns(d, w) && InPair(d, w);
    }
  }

  lemma {:induction false} YieldInv(d: Directory, u: Uid)
    requires Inv(d) && u in d.users && d.users[u].refs > 0
    ensures Inv(Yield(d, u))
  {
    AddRefInv(d, u, -1);
    YieldKeeps(d, u);
    hide Indexed, Matching, Delete;
    if u !in Yield(d, u).users {
      DeleteInv(AddRef(d, u, -1), u);
    }
  }

  /** Both users of a pair leave it, or two users in no challenge form one or do not. */
  ghost predicate Repaired(d: Directory, u: Uid, v: Uid, u': User, v': User) {
    && u in d.users && v in d.users && u != v
    && Registered(d.users[u].state) && Registered(d.users[v].state) && !Joining(u'.state) && !Joining(v'.state)
    && (d.users[u].state == Challenged || d.users[v].state == Challenged ==> Paired(d, u, v))
    && u' == d.users[u].(state := u'.state, opponent := u'.opponent)
    && v' == d.users[v].(state := v'.state, opponent := v'.opponent)
    && (u'.state == Challenged || v'.state == Challenged ==>
          u'.state == v'.state && u'.opponent == v'.name && v'.opponent == u'.name)
  }

  lemma {:induction false} RepairedTwo(d: Directory, u: Uid, v: Uid, u': User, v': User)
    requires Repaired(d, u, v, u', v') && Owns(d, u) && Owns(d, v)
    ensures var r := d.(users := d.users[u := u'][v := v']);
            Owns(r, u) && InPair(r, u) && Owns(r, v) && InPair(r, v)
  {
  }

  lemma {:induction false} RepairedOther(d: Directory, u: Uid, v: Uid, u': User, v': User, w: Uid)
    requires Repaired(d, u, v, u', v') && Owns(d, u) && Owns(d, v) && w in d.users && w != u && w != v
    requires Owns(d, w) && InPair(d, w)
    ensures var r := d.(users := d.users[u := u'][v := v']); Owns(r, w) && InPair(r, w)
  {
  }

  lemma {:induction false} PairInv(d: Directory, u: Uid, v: Uid, u': User, v': User)
    requires Inv(d) && Repaired(d, u, v, u', v')
    ensures Inv(d.(users := d.users[u := u'][v := v']))
  {
    var r := d.(users := d.users[u := u'][v := v']);
    SameIndexed(d, r);
    hide Indexed, Owns, InPair, Paired;
    assert Owns(d, u) && Owns(d, v);
    forall w | w in r.users
      ensures Owns(r, w) && InPair(r, w)
    {
      assert Owns(d, w) && InPair(d, w);
      if w == u || w == v {
        RepairedTwo(d, u, v, u', v');
      } else {
        RepairedOther(d, u, v, u', v', w);
      }
    }
  }

  // ----- Each handler keeps the matching -----

  /** The sender is disconnected if its handler failed. */
  function Final(u: Uid, r: Reply): Directory
    requires u in r.d.users
  {
    if r.res then r.d else SetState(r.d, u, Disconnected)
  }

  ghost predicate HandledInv(u: Uid, r: Reply) {
    u in r.d.users && Inv(Final(u, r))
  }

  function Ended(out: Outcome): Outcome {
    if out.res then out else out.(u := To(Disconnected))
  }

  /** Disconnecting the sender before or after the other user is given back makes no difference. */
  lemma {:induction false} FinalBoth(d: Directory, u: Uid, v: Uid, out: Outcome)
    requires u in d.users && v in d.users && d.users[v].refs > 0 && u != v && (!out.res ==> !out.u.Duel?)
    ensures u in Both(d, u, v, out).d.users
    ensures Final(u, Both(d, u, v, out)) == Both(d, u, v, Ended(out)).d
  {
    var a, b := Final(u, Both(d, u, v, out)), Both(d, u, v, Ended(out)).d;
    assert a.users == b.users;
  }

  lemma {:induction false} BothInv(d: Directory, u: Uid, v: Uid, out: Outcome)
    requires Inv(d) && u in d.users && v in d.users && d.users[v].refs > 0 && (!out.res ==> !out.u.Duel?)
    requires Repaired(d, u, v, Changed(d.users[u], Ended(out).u), Changed(d.users[v], out.v))
    ensures HandledInv(u, Both(d, u, v, out))
  {
    FinalBoth(d, u, v, out);
    PairInv(d, u, v, Changed(d.users[u], Ended(out).u), Changed(d.users[v], out.v));
    hide Inv, Final;
    YieldInv(ChangeBoth(d, u, v, Ended(out)), v);
  }

  lemma {:induction false} UnchangedInv(d: Directory, u: Uid, v: Uid, out: Outcome)
    requires Inv(d) && u in d.users && v in d.users && d.users[v].refs > 0 && u != v
    requires out.u == out.v == Keep && d.users[u].state != Challenged
    ensures HandledInv(u, Both(d, u, v, out))
  {
    hide Inv;
    assert ChangeBoth(d, u, v, out).users == d.users;
    YieldInv(d, v);
    if !out.res {
      StateInv(Yield(d, v), u, Disconnected);
    }
  }

  lemma {:induction false} QuietInv(u: Uid, r: Reply)
    requires Inv(r.d) && u in r.d.users && (!r.res ==> r.d.users[u].state != Challenged)
    ensures HandledInv(u, r)
  {
    hide Inv;
    if !r.res {
      StateInv(r.d, u, Disconnected);
    }
  }

  lemma {:induction false} ChallengeInv(d: Directory, u: Uid, name: Name, o: Oracle)
    requires Inv(d) && u in d.users && d.users[u].state == Available
    ensures HandledInv(u, HandleChallenge(d, u, name, o))
  {
    var (d', found) := GetByName(d, name);
    if found == None {
      QuietInv(u, HandleChallenge(d, u, name, o));
    } else {
      var v := found.value;
      AddRefInv(d, v, 1);
      if v == u {
        hide Inv;
        QuietInv(u, HandleChallenge(d, u, name, o));
      } else {
        hide Inv, HandledInv, Both, ChallengeBoth;
        ChallengeBothInv(d', u, v, name, o);
      }
    }
  }

  lemma {:induction false} ChallengeBothInv(d: Directory, u: Uid, v: Uid, name: Name, o: Oracle)
    requires Inv(d) && u in d.users && v in d.users && u != v && d.users[u].state == Available && d.users[v].refs > 0
    ensures HandledInv(u, Both(d, u, v, ChallengeBoth(u, v, d.users[u], d.users[v], name, o)))
  {
    hide Indexed, HandledInv, Both;
    var out := ChallengeBoth(u, v, d.users[u], d.users[v], name, o);
    if d.users[v].state == Available {
      BothInv(d, u, v, out);
    } else {
      UnchangedInv(d, u, v, out);
    }
  }

  lemma {:induction false} ResponseInv(env: Env, d: Directory, u: Uid, accept: bool, port: uint16, o: Oracle)
    requires Inv(d) && u in d.users && d.users[u].state == Challenged
    requires accept ==> EndsForBoth(env, d.users[u], o)
    ensures HandledInv(u, HandleResponse(env, d, u, accept, port, o))
  {
    assert Owns(d, u) && InPair(d, u);
    var v := d.byName[d.users[u].opponent];
    var d' := AddRef(d, v, 1);
    AddRefInv(d, v, 1);
    assert Paired(d', u, v) && d'.users[v].refs > 0;
    hide Inv, HandledInv, Both, RespondBoth, Paired, InPair, Owns;
    RespondBothInv(env, d', u, v, accept, port, o);
  }

  lemma {:induction false} RespondBothInv(env: Env, d: Directory, u: Uid, v: Uid, accept: bool, port: uint16, o: Oracle)
    requires Inv(d) && u in d.users && v in d.users && Paired(d, u, v) && d.users[v].refs > 0
    requires accept ==> EndsForBoth(env, d.users[u], o)
    ensures HandledInv(u, Both(d, u, v, RespondBoth(env, u, v, d.users[u], d.users[v], accept, port, o)))
  {
    hide Indexed, HandledInv, Both;
    BothInv(d, u, v, RespondBoth(env, u, v, d.users[u], d.users[v], accept, port, o));
  }

  /** A user that no index knows yet and that is in no challenge takes the place of another record, or is new. */
  lemma {:induction false} PutInv(d: Directory, u: Uid, user: User, r: Directory)
    requires Indexed(d) && Matching(d) && Indexed(r)
    requires u in d.users ==> d.users[u].state != Challenged && d.users[u].name == []
    requires user.state != Challenged && r.users == d.users[u := user] && forall n :: n in d.byName ==> d.byName[n] != u
    requires user.name !in d.byName && r.byName == if user.name == [] then d.byName else d.byName[user.name := u]
    requires Registered(user.state) <==> user.name != []
    ensures Matching(r)
  {
    hide Indexed;
    forall w | w in r.users
      ensures Owns(r, w) && InPair(r, w)
    {
      if w != u {
        assert Owns(d, w) && InPair(d, w);
      }
    }
  }

  lemma {:induction false} NotIndexed(d: Directory, u: Uid)
    requires Indexed(d) && (u in d.users ==> d.users[u].name == [])
    ensures forall n :: n in d.byName ==> n != [] && d.byName[n] != u
  {
  }

  /** The sender as its registration leaves it, before it is entered into the index. */
  function Ready(d: Directory, u: Uid, name: Name): Directory
    requires u in d.users
  {
    SetState(d.(users := d.users[u := d.users[u].(name := name)]), u, Available)
  }

  lemma {:induction false} ReadyIndexed(d: Directory, u: Uid, name: Name)
    requires Indexed(d) && u in d.users && d.users[u].name == []
    ensures Indexed(Ready(d, u, name)) && Ready(d, u, name).byName == d.byName && Ready(d, u, name).byFd == d.byFd
    ensures Ready(d, u, name).users == d.users[u := d.users[u].(name := name, state := Available)]
  {
    NotIndexed(d, u);
    hide Indexed;
    RenameKeeps(d, u, name);
    SetStateKeeps(d.(users := d.users[u := d.users[u].(name := name)]), u, Available);
  }

  lemma {:induction false} NewNameInv(d: Directory, u: Uid, name: Name)
    requires Inv(d) && u in d.users && d.users[u].state == SecurelyConnected
    requires name != [] && name !in d.byName && |d.byFd| < MAX_USERS
    ensures Inv(Add(Ready(d, u, name), u).0)
  {
    assert Owns(d, u) && d.users[u].name == [];
    NotIndexed(d, u);
    hide Indexed, Matching, Owns, Ready;
    ReadyIndexed(d, u, name);
    AddKeeps(Ready(d, u, name), u);
    PutInv(d, u, d.users[u].(name := name, state := Available), Add(Ready(d, u, name), u).0);
  }

  lemma {:induction false} RegisterInv(env: Env, d: Directory, u: Uid, name: Name)
    requires Inv(d) && u in d.users && d.users[u].state == SecurelyConnected && CanRegister(env, d, name)
    ensures HandledInv(u, HandleRegister(env, d, u, name))
  {
    hide Inv;
    if name == env.ownName {
      QuietInv(u, HandleRegister(env, d, u, name));
    } else {
      NewNameInv(d, u, name);
    }
  }

  lemma {:induction false} WelcomeInv(env: Env, d: Directory, u: Uid, e: Event, o: Oracle)
    requires Inv(d) && u in d.users && d.users[u].state == JustConnected
    ensures HandledInv(u, Welcome(env, d, u, e, o))
  {
    assert Owns(d, u);
    hide Inv, HandledInv;
    StateInv(d, u, SecurelyConnected);
    StateInv(d, u, Disconnected);
    QuietInv(u, Welcome(env, d, u, e, o));
  }

  lemma {:induction false} GameEndInv(d: Directory, u: Uid)
    requires Inv(d) && u in d.users && d.users[u].state == Playing
    ensures Inv(SetState(d, u, Available))
  {
    assert Owns(d, u);
    StateInv(d, u, Available);
  }

  lemma {:induction false} HandleInv(env: Env, d: Directory, u: Uid, e: Event, o: Oracle)
    requires Inv(d) && u in d.users && Harmless(env, d, u, e, o)
    ensures HandledInv(u, Handle(env, d, u, e, o))
  {
    assert Indexed(d);
    hide Inv, HandledInv, Indexed, CanRegister, EndsForBoth;
    hide Welcome, HandleRegister, HandleChallenge, HandleResponse, Listed, Offered;
    var s := d.users[u].state;
    if e == Raised || e == Dropped {
      QuietInv(u, Reply(d, [], false));
    } else if s == JustConnected {
      WelcomeInv(env, d, u, e, o);
    } else if s == SecurelyConnected && e.Register? {
      RegisterInv(env, d, u, e.name);
    } else if s == Available && e.Challenge? {
      ChallengeInv(d, u, e.name, o);
    } else if s == Challenged && e.Response? {
      ResponseInv(env, d, u, e.accept, e.port, o);
    } else if s == Playing && e.EndOfGame? {
      GameEndInv(d, u);
      QuietInv(u, Reply(SetState(d, u, Available), [], true));
    } else {
      QuietInv(u, Handle(env, d, u, e, o));
    }
  }

  lemma {:induction false} WorkYields(env: Env, d: Directory, fd: int, e: Event, o: Oracle)
    requires Indexed(d) && fd in d.byFd && d.byFd[fd] in d.users
    ensures Indexed(AddRef(d, d.byFd[fd], 1))
    ensures var u, r := d.byFd[fd], Handle(env, AddRef(d, d.byFd[fd], 1), d.byFd[fd], e, o);
            u in r.d.users && r.d.users[u].refs > 0 && Work(env, d, fd, e, o).0 == Yield(Final(u, r), u)
  {
    GetKeeps(d, [], fd);
    HandleHolds(env, AddRef(d, d.byFd[fd], 1), d.byFd[fd], e, o);
    hide Indexed, Handle, Yield;
  }

  lemma {:induction false} WorkInv(env: Env, d: Directory, fd: int, e: Event, o: Oracle)
    requires Inv(d) && (fd in d.byFd ==> d.byFd[fd] in d.users && Harmless(env, d, d.byFd[fd], e, o))
    ensures Inv(Work(env, d, fd, e, o).0)
  {
    if fd in d.byFd {
      var u := d.byFd[fd];
      var d0 := AddRef(d, u, 1);
      AddRefInv(d, u, 1);
      assert Harmless(env, d0, u, e, o);
      WorkYields(env, d, fd, e, o);
      hide Handle, Inv, Yield, SetState, Harmless, Indexed, Work;
      HandleInv(env, d0, u, e, o);
      YieldInv(Final(u, Handle(env, d0, u, e, o)), u);
    }
  }

  lemma {:induction false} ConnectInv(d: Directory, u: Uid, fd: int)
    requires Inv(d) && u !in d.users && forall w :: w in d.users ==> d.users[w].fd != fd
    ensures Inv(Connected(d, u, fd))
  {
    var d' := d.(users := d.users[u := User(fd, [], JustConnected, [], 0)]);
    NotIndexed(d, u);
    NewIndexed(d, u, User(fd, [], JustConnected, [], 0));
    AddKeeps(d', u);
    hide Indexed, Matching;
    PutInv(d, u, d'.users[u], Add(d', u).0);
  }

  lemma {:induction false} NextInv(env: Env, d: Directory, r: Round)
    requires Inv(d) && Valid(d, r) && KeepsMatching(env, d, r)
    ensures Inv(Next(env, d, r).0)
  {
    hide Matching, Work, Harmless;
    match r
    case Connect(u, fd) => ConnectInv(d, u, fd);
    case Message(fd, e, o) => WorkInv(env, d, fd, e, o);
    case Lost(fd) =>
      var (d', found) := GetByFd(d, fd);
      if found.Some? {
        var u := found.value;
        AddRefInv(d, u, 1);
        StateInv(d', u, Disconnected);
        YieldInv(SetState(d', u, Disconnected), u);
      }
  }

  // ----- The other rounds break it -----

  /** `a` is in a challenge, and whoever may be found under its opponent's name is not. */
  lemma {:induction false} HalfPair(d: Directory, a: Uid, b: Uid)
    requires a in d.users && d.users[a].state == Challenged
    requires d.users[a].opponent in d.byName ==> d.byName[d.users[a].opponent] == b
    requires b in d.users ==> d.users[b].state != Challenged
    ensures !Matching(d)
  {
    assert !InPair(d, a);
  }

  /** A user that goes away while it is challenged leaves the other one challenged. */
  lemma {:induction false} LeavingBreaks(d: Directory, u: Uid)
    requires Inv(d) && u in d.users && d.users[u].state == Challenged && d.users[u].refs > 0
    ensures !Matching(Yield(SetState(d, u, Disconnected), u))
  {
    assert Owns(d, u) && InPair(d, u);
    var v := d.byName[d.users[u].opponent];
    hide Indexed, Matching;
    HalfPair(Yield(SetState(d, u, Disconnected), u), v, u);
  }

  lemma {:induction false} RegisterBreaks(env: Env, d: Directory, u: Uid, name: Name)
    requires Inv(d) && u in d.users && d.users[u].state == SecurelyConnected && d.users[u].refs > 0
    requires !CanRegister(env, d, name)
    ensures var r := HandleRegister(env, d, u, name); !Matching(Yield(Final(u, r), u))
  {
    assert Owns(d, u);
    NotIndexed(d, u);
    var d' := Yield(Final(u, HandleRegister(env, d, u, name)), u);
    if name in d.byName {
      NamesFound(d, name);
      hide Indexed;
      var w := d.byName[name];
      if u in d'.users {
        assert !Owns(d', u);
      } else {
        assert w in d'.users && !Owns(d', w);
      }
    } else {
      hide Indexed;
      assert u in d'.users && !Owns(d', u);
    }
  }

  lemma {:induction false} NamesFound(d: Directory, n: Name)
    requires Indexed(d) && n in d.byName
    ensures d.byName[n] in d.users && d.users[d.byName[n]].name == n && n != []
  {
  }

  /** One of a pair stays in the challenge and the other does not. */
  lemma {:induction false} HalfWritten(d: Directory, u: Uid, v: Uid, out: Outcome)
    requires u in d.users && v in d.users && Paired(d, u, v) && Owns(d, u) && Owns(d, v)
    requires d.users[v].refs > 0 && d.users[u].refs > 0 && (!out.res ==> !out.u.Duel?)
    requires var u', v' := Changed(d.users[u], Ended(out).u), Changed(d.users[v], out.v);
             || (u' == d.users[u] && v'.state != Challenged)
             || (v' == d.users[v] && u'.state != Challenged)
    ensures u in Both(d, u, v, out).d.users
    ensures var r := Both(d, u, v, out); r.d.users[u].refs > 0 && !Matching(Yield(Final(u, r), u))
  {
    FinalBoth(d, u, v, out);
    var d' := Yield(Both(d, u, v, Ended(out)).d, u);
    hide Matching;
    if Changed(d.users[u], Ended(out).u) == d.users[u] {
      HalfPair(d', u, v);
    } else {
      HalfPair(d', v, u);
    }
  }

  lemma {:induction false} ResponseBreaks(env: Env, d: Directory, u: Uid, port: uint16, o: Oracle)
    requires Inv(d) && u in d.users && d.users[u].state == Challenged && d.users[u].refs > 0
    requires !EndsForBoth(env, d.users[u], o)
    ensures var r := HandleResponse(env, d, u, true, port, o);
            u in r.d.users && r.d.users[u].refs > 0 && !Matching(Yield(Final(u, r), u))
  {
    assert Owns(d, u) && InPair(d, u);
    var v := d.byName[d.users[u].opponent];
    var d' := AddRef(d, v, 1);
    AddRefInv(d, v, 1);
    hide Indexed, Both, Final;
    assert Owns(d', u) && Owns(d', v) && InPair(d', u);
    var out := RespondBoth(env, u, v, d'.users[u], d'.users[v], true, port, o);
    HalfWritten(d', u, v, out);
  }

  lemma {:induction false} WorkBreaks(env: Env, d: Directory, fd: int, e: Event, o: Oracle)
    requires Inv(d) && fd in d.byFd && d.byFd[fd] in d.users && !Harmless(env, d, d.byFd[fd], e, o)
    ensures !Matching(Work(env, d, fd, e, o).0)
  {
    var u := d.byFd[fd];
    var d0 := AddRef(d, u, 1);
    AddRefInv(d, u, 1);
    assert !Harmless(env, d0, u, e, o);
    WorkYields(env, d, fd, e, o);
    hide Matching, Indexed, Yield, SetState, HandleResponse, HandleRegister, EndsForBoth, CanRegister, Work;
    if d0.users[u].state == SecurelyConnected {
      RegisterBreaks(env, d0, u, e.name);
    } else if e == Raised || e == Dropped {
      LeavingBreaks(d0, u);
    } else {
      ResponseBreaks(env, d0, u, e.port, o);
    }
  }

  /** For every round and every outcome of its sends: afterwards everybody that has registered is found and the
      challenged users are paired off exactly when nobody leaves a challenge alone, no accepted challenge ends for one
      of the two only, and no registration sets a name that is taken, empty or finds no room. */
  lemma {:induction false} MatchingKeptExactly(env: Env, d: Directory, r: Round)
    requires Inv(d) && Valid(d, r)
    ensures Matching(Next(env, d, r).0) <==> KeepsMatching(env, d, r)
  {
    assert Indexed(d);
    hide Matching, Indexed, Work, Harmless;
    if KeepsMatching(env, d, r) {
      NextInv(env, d, r);
    } else if r.Message? {
      WorkBreaks(env, d, r.fd, r.e, r.o);
    } else {
      AddRefInv(d, d.byFd[r.fd], 1);
      LeavingBreaks(AddRef(d, d.byFd[r.fd], 1), d.byFd[r.fd]);
    }
  }

  // ----- What every round keeps -----

  /** Nobody is found by name before it has registered. */
  ghost predicate Settled(d: Directory) {
    forall n :: n in d.byName ==> d.byName[n] in d.users && !Joining(d.users[d.byName[n]].state)
  }

  ghost predicate Sound(d: Directory) {
    Indexed(d) && Settled(d)
  }

  lemma {:induction false} AddRefSound(d: Directory, u: Uid, delta: int)
    requires Sound(d) && u in d.users && d.users[u].refs + delta >= 0
    ensures Sound(AddRef(d, u, delta))
  {
    AddRefKeeps(d, u, delta);
    hide Indexed;
  }

  /** A state that is not one of the first two, or a user that is not found by name. */
  lemma {:induction false} StateSound(d: Directory, u: Uid, s: UserState)
    requires Sound(d) && u in d.users && (Joining(s) ==> Joining(d.users[u].state))
    ensures Sound(SetState(d, u, s))
  {
    SetStateKeeps(d, u, s);
    hide Indexed;
  }

  lemma {:induction false} ChangeSound(d: Directory, u: Uid, c: Change)
    requires Sound(d) && u in d.users && (c.To? ==> !Joining(c.state))
    ensures Sound(ChangeOne(d, u, c))
  {
    SameIndexed(d, ChangeOne(d, u, c));
    hide Indexed;
  }

  lemma {:induction false} YieldSound(d: Directory, u: Uid)
    requires Sound(d) && u in d.users && d.users[u].refs > 0
    ensures Sound(Yield(d, u))
  {
    YieldKeeps(d, u);
    var r := Yield(d, u);
    forall n | n in r.byName
      ensures r.byName[n] in r.users && !Joining(r.users[r.byName[n]].state)
    {
      NamesFound(r, n);
      assert n in d.byName && r.byName[n] == d.byName[n];
    }
  }

  lemma {:induction false} AddSound(d: Directory, u: Uid)
    requires Sound(d) && u in d.users && (d.users[u].name == [] || !Joining(d.users[u].state))
    ensures Sound(Add(d, u).0)
  {
    AddKeeps(d, u);
    hide Indexed;
  }

  lemma {:induction false} BothSound(d: Directory, u: Uid, v: Uid, out: Outcome)
    requires Sound(d) && u in d.users && v in d.users && d.users[v].refs > 0 && u != v
    requires (out.u.To? ==> !Joining(out.u.state)) && (out.v.To? ==> !Joining(out.v.state))
    ensures Sound(Both(d, u, v, out).d)
  {
    hide Sound, Yield;
    ChangeSound(d, u, out.u);
    ChangeSound(ChangeOne(d, u, out.u), v, out.v);
    YieldSound(ChangeBoth(d, u, v, out), v);
  }

  lemma {:induction false} ChallengeSound(d: Directory, u: Uid, name: Name, o: Oracle)
    requires Sound(d) && u in d.users
    ensures Sound(HandleChallenge(d, u, name, o).d)
  {
    var (d', found) := GetByName(d, name);
    if found.Some? {
      AddRefSound(d, found.value, 1);
      hide Indexed, Settled, Both;
      if found.value != u {
        BothSound(d', u, found.value, ChallengeBoth(u, found.value, d'.users[u], d'.users[found.value], name, o));
      }
    }
  }

  lemma {:induction false} ResponseSound(env: Env, d: Directory, u: Uid, accept: bool, port: uint16, o: Oracle)
    requires Sound(d) && u in d.users
    ensures Sound(HandleResponse(env, d, u, accept, port, o).d)
  {
    var (d', found) := GetByName(d, d.users[u].opponent);
    if found.None? {
      StateSound(d, u, Available);
    } else {
      var v := found.value;
      AddRefSound(d, v, 1);
      if v == u {
        StateSound(d', u, Available);
      } else {
        hide Indexed, Settled, Both;
        BothSound(d', u, v, RespondBoth(env, u, v, d'.users[u], d'.users[v], accept, port, o));
      }
    }
  }

  lemma {:induction false} NotFoundYet(d: Directory, u: Uid)
    requires Sound(d) && u in d.users && Joining(d.users[u].state)
    ensures forall n :: n in d.byName ==> d.byName[n] != u
  {
  }

  lemma {:induction false} RenameSound(d: Directory, u: Uid, name: Name)
    requires Sound(d) && u in d.users && Joining(d.users[u].state)
    ensures Sound(d.(users := d.users[u := d.users[u].(name := name)]))
  {
    NotFoundYet(d, u);
    RenameKeeps(d, u, name);
    hide Indexed;
  }

  lemma {:induction false} RegisterSound(env: Env, d: Directory, u: Uid, name: Name)
    requires Sound(d) && u in d.users && Joining(d.users[u].state)
    ensures Sound(HandleRegister(env, d, u, name).d)
  {
    hide Sound, Add;
    if name != env.ownName {
      RenameSound(d, u, name);
      var named := d.(users := d.users[u := d.users[u].(name := name)]);
      StateSound(named, u, Disconnected);
      StateSound(named, u, Available);
      AddSound(SetState(named, u, Available), u);
    }
  }

  lemma {:induction false} WelcomeSound(env: Env, d: Directory, u: Uid, e: Event, o: Oracle)
    requires Sound(d) && u in d.users && d.users[u].state == JustConnected
    ensures Sound(Welcome(env, d, u, e, o).d)
  {
    hide Sound;
    StateSound(d, u, SecurelyConnected);
    StateSound(d, u, Disconnected);
  }

  lemma {:induction false} HandleSound(env: Env, d: Directory, u: Uid, e: Event, o: Oracle)
    requires Sound(d) && u in d.users
    ensures Sound(Handle(env, d, u, e, o).d)
  {
    hide Indexed, Settled, Welcome, HandleRegister, HandleChallenge, HandleResponse, Listed, Offered;
    var s := d.users[u].state;
    if s == JustConnected {
      WelcomeSound(env, d, u, e, o);
    } else if s == SecurelyConnected && e.Register? {
      RegisterSound(env, d, u, e.name);
    } else if s == Available && e.Challenge? {
      ChallengeSound(d, u, e.name, o);
    } else if s == Challenged && e.Response? {
      ResponseSound(env, d, u, e.accept, e.port, o);
    } else if s == Playing {
      StateSound(d, u, Available);
    }
  }

  lemma {:induction false} LeaveSound(d: Directory, u: Uid, res: bool)
    requires Sound(d) && u in d.users && d.users[u].refs > 0
    ensures Sound(Yield(if res then d else SetState(d, u, Disconnected), u))
  {
    StateSound(d, u, Disconnected);
    hide Sound;
    YieldSound(if res then d else SetState(d, u, Disconnected), u);
  }

  /** Every round keeps both indexes in agreement with the users, and leads to no user that has not registered. */
  lemma {:induction false} NextSound(env: Env, d: Directory, r: Round)
    requires Sound(d) && Valid(d, r)
    ensures Sound(Next(env, d, r).0)
  {
    match r
    case Connect(u, fd) =>
      var user := User(fd, [], JustConnected, [], 0);
      NewIndexed(d, u, user);
      assert Settled(d.(users := d.users[u := user]));
      AddSound(d.(users := d.users[u := user]), u);
    case Message(fd, e, o) =>
      var (d0, found) := GetByFd(d, fd);
      if found.Some? {
        var u := found.value;
        AddRefSound(d, u, 1);
        hide Handle, Yield, SetState, Indexed, Settled;
        HandleSound(env, d0, u, e, o);
        HandleHolds(env, d0, u, e, o);
        LeaveSound(Handle(env, d0, u, e, o).d, u, Handle(env, d0, u, e, o).res);
      }
    case Lost(fd) =>
      var (d0, found) := GetByFd(d, fd);
      if found.Some? {
        AddRefSound(d, found.value, 1);
        LeaveSound(d0, found.value, false);
      }
  }

  // ----- Over whole runs -----

  /** Any rounds, as long as addresses and open descriptors are unique. */
  ghost predicate ValidRun(env: Env, d: Directory, rs: seq<Round>)
    requires Sound(d)
    decreases |rs|
  {
    rs == [] || (Valid(d, rs[0]) && (NextSound(env, d, rs[0]); ValidRun(env, Next(env, d, rs[0]).0, rs[1..])))
  }

  ghost function After(env: Env, d: Directory, rs: seq<Round>): (r: Directory)
    requires Sound(d) && ValidRun(env, d, rs)
    ensures Sound(r)
    decreases |rs|
  {
    if rs == [] then d else NextSound(env, d, rs[0]); After(env, Next(env, d, rs[0]).0, rs[1..])
  }

  /** Rounds that keep the matching, one by one. */
  ghost predicate AllHarmless(env: Env, d: Directory, rs: seq<Round>)
    requires Sound(d) && ValidRun(env, d, rs)
    decreases |rs|
  {
    rs == [] ||
    (KeepsMatching(env, d, rs[0]) && (NextSound(env, d, rs[0]); AllHarmless(env, Next(env, d, rs[0]).0, rs[1..])))
  }

  /** The matching holds at the start and after every round. */
  ghost predicate MatchingThroughout(env: Env, d: Directory, rs: seq<Round>)
    requires Sound(d) && ValidRun(env, d, rs)
    decreases |rs|
  {
    Matching(d) &&
    (rs == [] || (NextSound(env, d, rs[0]); MatchingThroughout(env, Next(env, d, rs[0]).0, rs[1..])))
  }

  const EMPTY := Directory(map[], map[], map[])

  lemma {:induction false} RunInv(env: Env, d: Directory, rs: seq<Round>)
    requires Inv(d) && Sound(d) && ValidRun(env, d, rs) && AllHarmless(env, d, rs)
    ensures Inv(After(env, d, rs))
    decreases |rs|
  {
    hide Matching, Settled, Next, KeepsMatching;
    if rs != [] {
      NextSound(env, d, rs[0]);
      NextInv(env, d, rs[0]);
      RunInv(env, Next(env, d, rs[0]).0, rs[1..]);
    }
  }

  /** Over whole runs, with any faults: the matching holds all the time exactly when every round is one that
      keeps it. */
  lemma {:induction false} MatchingThroughoutExactly(env: Env, d: Directory, rs: seq<Round>)
    requires Inv(d) && Sound(d) && ValidRun(env, d, rs)
    ensures MatchingThroughout(env, d, rs) <==> AllHarmless(env, d, rs)
    decreases |rs|
  {
    hide Matching, Settled, Next, KeepsMatching;
    if rs != [] {
      NextSound(env, d, rs[0]);
      MatchingKeptExactly(env, d, rs[0]);
      var d' := Next(env, d, rs[0]).0;
      if Matching(d') {
        MatchingThroughoutExactly(env, d', rs[1..]);
      } else {
        assert !MatchingThroughout(env, d', rs[1..]);
      }
    }
  }

  /** In every reachable state the challenged users are paired off through their opponents' names:
      nobody challenges itself, the relation is symmetric, and nobody is in two challenges. */
  lemma {:induction false} ChallengesMatch(env: Env, rs: seq<Round>, u: Uid, w: Uid)
    requires ValidRun(env, EMPTY, rs) && AllHarmless(env, EMPTY, rs)
    requires var d := After(env, EMPTY, rs);
             && u in d.users && d.users[u].state == Challenged && w in d.users && d.users[w].state == Challenged
    ensures var d := After(env, EMPTY, rs);
            && d.users[u].opponent in d.byName && d.byName[d.users[u].opponent] in d.users
            && Paired(d, u, d.byName[d.users[u].opponent])
            && (d.users[u].opponent == d.users[w].opponent ==> u == w)
            && (d.users[u].name == d.users[w].name ==> u == w)
  {
    RunInv(env, EMPTY, rs);
    var d := After(env, EMPTY, rs);
    hide Indexed, ValidRun, AllHarmless, After;
    assert Owns(d, u) && InPair(d, u) && Owns(d, w) && InPair(d, w);
  }

  // ----- Games start in pairs -----

  ghost predicate Starts(s: Sent) {
    s.m.GameStart?
  }

  /** First two messages, one to each of the two, each naming the other one, and then no more of the kind. */
  ghost predicate PairOfStarts(d: Directory, u: Uid, v: Uid, sent: seq<Sent>)
    requires u in d.users && v in d.users
  {
    && |sent| >= 2 && sent[0].to == u && sent[1].to == v && sent[0].m.GameStart? && sent[1].m.GameStart?
    && sent[0].m.username == d.users[v].name && sent[1].m.username == d.users[u].name
    && forall k :: 2 <= k < |sent| ==> !Starts(sent[k])
  }

  /** The sender accepts a challenge between two users whose certificates are known. */
  predicate Accepts(env: Env, u: User, e: Event) {
    u.state == Challenged && e.Response? && e.accept && u.name in env.certs && u.opponent in env.certs
  }

  /** Whatever sends succeed, a round sends a game start exactly when a challenged user accepts; then it sends one to
      each of the pair, naming each other, and no more. */
  lemma {:induction false} GamesStartInPairs(env: Env, d: Directory, fd: int, e: Event, o: Oracle)
    requires Inv(d) && fd in d.byFd
    ensures d.byFd[fd] in d.users
    ensures var u, sent := d.byFd[fd], Work(env, d, fd, e, o).1;
            if Accepts(env, d.users[u], e) then
              && d.users[u].opponent in d.byName && d.byName[d.users[u].opponent] in d.users
              && PairOfStarts(d, u, d.byName[d.users[u].opponent], sent)
            else forall k :: 0 <= k < |sent| ==> !Starts(sent[k])
  {
    var u := d.byFd[fd];
    var d0 := AddRef(d, u, 1);
    AddRefInv(d, u, 1);
    assert Owns(d, u) && InPair(d, u);
    GetKeeps(d, [], fd);
    hide Handle;
    HandleSends(env, d0, u, e, o);
  }

  lemma {:induction false} HandleSends(env: Env, d: Directory, u: Uid, e: Event, o: Oracle)
    requires Inv(d) && u in d.users
    ensures var sent := Handle(env, d, u, e, o).sent;
            if Accepts(env, d.users[u], e) then
              && d.users[u].opponent in d.byName && d.byName[d.users[u].opponent] in d.users
              && PairOfStarts(d, u, d.byName[d.users[u].opponent], sent)
            else forall k :: 0 <= k < |sent| ==> !Starts(sent[k])
  {
    hide Indexed, Matching, HandleResponse, HandleChallenge, HandleRegister, Offered, Listed;
    if d.users[u].state == Challenged && e.Response? {
      ResponseSends(env, d, u, e.accept, e.port, o);
    } else if d.users[u].state == Available && e.Challenge? {
      ChallengeSends(d, u, e.name, o);
    } else if d.users[u].state == SecurelyConnected && e.Register? {
      RegisterSends(env, d, u, e.name);
    }
  }

  lemma {:induction false} ChallengeSends(d: Directory, u: Uid, name: Name, o: Oracle)
    requires u in d.users && Indexed(d)
    ensures var sent := HandleChallenge(d, u, name, o).sent; forall k :: 0 <= k < |sent| ==> !Starts(sent[k])
  {
    hide Indexed, Yield;
  }

  lemma {:induction false} RegisterSends(env: Env, d: Directory, u: Uid, name: Name)
    requires u in d.users
    ensures HandleRegister(env, d, u, name).sent == []
  {
    hide Add;
  }

  lemma {:induction false} ResponseSends(env: Env, d: Directory, u: Uid, accept: bool, port: uint16, o: Oracle)
    requires Inv(d) && u in d.users && d.users[u].state == Challenged
    ensures var sent := HandleResponse(env, d, u, accept, port, o).sent;
            if accept && d.users[u].name in env.certs && d.users[u].opponent in env.certs then
              && d.users[u].opponent in d.byName && d.byName[d.users[u].opponent] in d.users
              && PairOfStarts(d, u, d.byName[d.users[u].opponent], sent)
            else forall k :: 0 <= k < |sent| ==> !Starts(sent[k])
  {
    assert Owns(d, u) && InPair(d, u);
    assert Owns(d, d.byName[d.users[u].opponent]);
    hide Indexed, Yield;
  }

  // ----- Who is found by name -----

  /** A user that registers under a free name is found by it exactly when the name is not empty and the
      list not full. */
  lemma {:induction false} RegisteredIsFound(env: Env, d: Directory, u: Uid, name: Name)
    requires Indexed(d) && u in d.users && d.users[u].name == [] && name != env.ownName && name !in d.byName
    ensures var r := HandleRegister(env, d, u, name);
            && r.res && r.d.users[u].state == Available
            && (name in r.d.byName && r.d.byName[name] == u <==> name != [] && |d.byFd| < MAX_USERS)
  {
    NotIndexed(d, u);
    hide Indexed;
  }

  // ----- When somebody who stays is no longer found -----

  /** The name of the sender after its message: a registration under any name but the server's own sets it. */
  function NameAfter(env: Env, user: User, e: Event): Name {
    if user.state == SecurelyConnected && e.Register? && e.name != env.ownName then e.name else user.name
  }

  /** Until the sender is given back, no entry is lost but together with the user that it leads to, and none is
      redirected. */
  ghost predicate EntryStays(d: Directory, r: Directory, n: Name)
    requires n in d.byName
  {
    if n in r.byName then r.byName[n] == d.byName[n] && d.byName[n] in r.users else d.byName[n] !in r.users
  }

  lemma {:induction false} BothEntry(d: Directory, u: Uid, v: Uid, out: Outcome, n: Name)
    requires Indexed(d) && u in d.users && v in d.users && d.users[v].refs > 0 && u != v
    requires n in d.byName && d.users[v].name in d.byName && d.byName[d.users[v].name] == v
    ensures EntryStays(d, Both(d, u, v, out).d, n) && u in Both(d, u, v, out).d.users
    ensures Both(d, u, v, out).d.users[u].name == d.users[u].name
  {
    NamesFound(d, n);
    hide Indexed;
  }

  lemma {:induction false} ChallengeEntry(d: Directory, u: Uid, name: Name, o: Oracle, n: Name)
    requires Indexed(d) && u in d.users && n in d.byName
    ensures var r := HandleChallenge(d, u, name, o).d;
            EntryStays(d, r, n) && u in r.users && r.users[u].name == d.users[u].name
  {
    NamesFound(d, n);
    var (d', found) := GetByName(d, name);
    if found.Some? {
      NamesFound(d, name);
      AddRefKeeps(d, found.value, 1);
      hide Indexed, Both;
      if found.value != u {
        BothEntry(d', u, found.value, ChallengeBoth(u, found.value, d'.users[u], d'.users[found.value], name, o), n);
      }
    }
  }

  lemma {:induction false} ResponseEntry(env: Env, d: Directory, u: Uid, accept: bool, port: uint16, o: Oracle, n: Name)
    requires Indexed(d) && u in d.users && n in d.byName
    ensures var r := HandleResponse(env, d, u, accept, port, o).d;
            EntryStays(d, r, n) && u in r.users && r.users[u].name == d.users[u].name
  {
    NamesFound(d, n);
    var (d', found) := GetByName(d, d.users[u].opponent);
    if found.Some? {
      var v := found.value;
      NamesFound(d, d.users[u].opponent);
      AddRefKeeps(d, v, 1);
      hide Indexed, Both;
      if v != u {
        BothEntry(d', u, v, RespondBoth(env, u, v, d'.users[u], d'.users[v], accept, port, o), n);
      }
    }
  }

  lemma {:induction false} HandleEntry(env: Env, d: Directory, u: Uid, e: Event, o: Oracle, n: Name)
    requires Indexed(d) && u in d.users && n in d.byName
    ensures var r := Handle(env, d, u, e, o).d;
            EntryStays(d, r, n) && u in r.users && r.users[u].name == NameAfter(env, d.users[u], e)
  {
    NamesFound(d, n);
    hide Indexed, HandleChallenge, HandleResponse, Listed, Offered;
    var s := d.users[u].state;
    if s == Available && e.Challenge? {
      ChallengeEntry(d, u, e.name, o, n);
    } else if s == Challenged && e.Response? {
      ResponseEntry(env, d, u, e.accept, e.port, o, n);
    }
  }

  /** The user whose message or broken connection a round is about. */
  function Subject(d: Directory, r: Round): Option<Uid> {
    if r.Connect? || r.fd !in d.byFd then None else Some(d.byFd[r.fd])
  }

  lemma {:induction false} LeaveEntry(d: Directory, r: Directory, u: Uid, res: bool, n: Name)
    requires n in d.byName && EntryStays(d, r, n) && u in r.users && r.users[u].refs > 0
    ensures var d' := Yield(if res then r else SetState(r, u, Disconnected), u);
            && (n in d'.byName ==> d'.byName[n] == d.byName[n])
            && (d.byName[n] in d'.users ==> (n !in d'.byName <==> u !in d'.users && r.users[u].name == n))
  {
  }

  lemma {:induction false} FdFound(d: Directory, fd: int)
    requires Indexed(d) && fd in d.byFd
    ensures d.byFd[fd] in d.users && d.users[d.byFd[fd]].fd == fd
  {
  }

  /** The rounds after which a user that stays is no longer found: exactly those in which a user goes away whose
      name, as it is then, is the one that the other is found by. No round redirects an entry. */
  lemma {:induction false} EntryLostExactly(env: Env, d: Directory, r: Round, n: Name)
    requires Indexed(d) && Valid(d, r) && n in d.byName
    ensures var d' := Next(env, d, r).0;
            && (n in d'.byName ==> d'.byName[n] == d.byName[n])
            && (d.byName[n] in d'.users ==>
                  (n !in d'.byName <==>
                     match Subject(d, r)
                     case None => false
                     case Some(u) =>
                       && u in d.users && u !in d'.users
                       && n == if r.Message? then NameAfter(env, d.users[u], r.e) else d.users[u].name))
  {
    NamesFound(d, n);
    if Subject(d, r).Some? {
      var u := Subject(d, r).value;
      FdFound(d, r.fd);
      GetKeeps(d, [], r.fd);
      hide Indexed, Handle, Yield, SetState;
      if r.Message? {
        var d0 := AddRef(d, u, 1);
        HandleEntry(env, d0, u, r.e, r.o, n);
        HandleHolds(env, d0, u, r.e, r.o);
        LeaveEntry(d, Handle(env, d0, u, r.e, r.o).d, u, Handle(env, d0, u, r.e, r.o).res, n);
      } else {
        LeaveEntry(d, AddRef(d, u, 1), u, false, n);
      }
    }
  }

  /** Whoever is refused a name because it is taken, and then goes away, takes the name's entry with it:
      the user that registered it first stays, but is no longer found. */
  lemma {:induction false} RefusedNameIsLost(env: Env, d: Directory, fd: int, name: Name, o: Oracle)
    requires Indexed(d) && fd in d.byFd && d.users[d.byFd[fd]].refs == 0
    requires d.users[d.byFd[fd]].state == SecurelyConnected && d.users[d.byFd[fd]].name == []
    requires name in d.byName && name != env.ownName
    ensures var r := Work(env, d, fd, Event.Register(name), o).0;
            && name !in r.byName && d.byFd[fd] !in r.users
            && d.byName[name] in r.users && r.users[d.byName[name]] == d.users[d.byName[name]]
  {
    hide FdsDiffer;
  }
}
