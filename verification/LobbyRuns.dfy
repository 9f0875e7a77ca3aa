// Runs of the lobby from the empty directory after which a registered user is not found under its name.

module LobbyRuns {
  import opened Messages
  import opened Directory
  import opened Handlers
  import opened Lobby

  // ----- Steps from known directories to known directories -----

  ghost predicate Leads(env: Env, d: Directory, r: Round, d': Directory) {
    Sound(d) && Valid(d, r) && Next(env, d, r).0 == d'
  }

  /** The directories that the rounds lead through. */
  ghost predicate Path(env: Env, ds: seq<Directory>, rs: seq<Round>) {
    && |ds| == |rs| + 1 && Sound(ds[0])
    && forall k :: 0 <= k < |rs| ==> Leads(env, ds[k], rs[k], ds[k + 1])
  }

  lemma {:induction false} PathRuns(env: Env, ds: seq<Directory>, rs: seq<Round>)
    requires Path(env, ds, rs)
    ensures ValidRun(env, ds[0], rs) && After(env, ds[0], rs) == ds[|rs|]
    decreases |rs|
  {
    hide Sound, Next, Valid;
    if rs != [] {
      assert Leads(env, ds[0], rs[0], ds[0 + 1]);
      NextSound(env, ds[0], rs[0]);
      forall k | 0 <= k < |rs[1..]|
        ensures Leads(env, ds[1..][k], rs[1..][k], ds[1..][k + 1])
      {
        assert Leads(env, ds[k + 1], rs[k + 1], ds[k + 1 + 1]);
      }
      PathRuns(env, ds[1..], rs[1..]);
    }
  }

  lemma {:induction false} ConnectStep(env: Env, d: Directory, u: Uid, fd: int)
    requires Sound(d) && Valid(d, Connect(u, fd)) && fd !in d.byFd && |d.byFd| < MAX_USERS
    ensures var d' := Directory(d.users[u := User(fd, [], JustConnected, [], 0)], d.byFd[fd := u], d.byName);
            Leads(env, d, Connect(u, fd), d') && Sound(d')
  {
    NextSound(env, d, Connect(u, fd));
    hide Sound;
  }

  lemma {:induction false} VerifyStep(env: Env, d: Directory, fd: int, o: Oracle)
    requires Sound(d) && fd in d.byFd && d.byFd[fd] in d.users &&
             d.users[d.byFd[fd]] == User(fd, [], JustConnected, [], 0)
    ensures var d' := d.(users := d.users[d.byFd[fd] := User(fd, [], SecurelyConnected, [], 0)]);
            Leads(env, d, Message(fd, Verify(true), o), d') && Sound(d')
  {
    NextSound(env, d, Message(fd, Verify(true), o));
    hide Indexed, Settled;
    var d' := d.(users := d.users[d.byFd[fd] := User(fd, [], SecurelyConnected, [], 0)]);
    assert Work(env, d, fd, Verify(true), o).0.users == d'.users;
  }

  /** Registering under a free name: with an entry if the name is not empty and the list not full. */
  lemma {:induction false} RegisterStep(env: Env, d: Directory, fd: int, n: Name, o: Oracle)
    requires Sound(d) && fd in d.byFd && d.byFd[fd] in d.users &&
             d.users[d.byFd[fd]] == User(fd, [], SecurelyConnected, [], 0)
    requires n !in d.byName && n != env.ownName
    ensures var u := d.byFd[fd];
            var d' := Directory(d.users[u := User(fd, n, Available, [], 0)], d.byFd,
                                if n == [] || |d.byFd| >= MAX_USERS then d.byName else d.byName[n := u]);
            Leads(env, d, Message(fd, Event.Register(n), o), d') && Sound(d')
  {
    NextSound(env, d, Message(fd, Event.Register(n), o));
    hide Indexed, Settled;
    assert Work(env, d, fd, Event.Register(n), o).0.users == d.users[d.byFd[fd] := User(fd, n, Available, [], 0)];
  }

  /** Registering under a name that is taken: the user goes away, and with it the entry of the one who has the name. */
  lemma {:induction false} RefusedStep(env: Env, d: Directory, fd: int, n: Name, o: Oracle)
    requires Sound(d) && fd in d.byFd && d.byFd[fd] in d.users &&
             d.users[d.byFd[fd]] == User(fd, [], SecurelyConnected, [], 0)
    requires n in d.byName && n != env.ownName
    ensures var d' := Directory(Remove(d.users, d.byFd[fd]), Remove(d.byFd, fd), Remove(d.byName, n));
            Leads(env, d, Message(fd, Event.Register(n), o), d') && Sound(d')
  {
    NextSound(env, d, Message(fd, Event.Register(n), o));
    hide Indexed, Settled;
    assert Work(env, d, fd, Event.Register(n), o).0.users == Remove(d.users, d.byFd[fd]);
  }

  lemma {:induction false} LostStep(env: Env, d: Directory, fd: int)
    requires Sound(d) && fd in d.byFd && d.byFd[fd] in d.users && d.users[d.byFd[fd]].fd == fd &&
             d.users[d.byFd[fd]].refs == 0
    ensures var d' := Directory(Remove(d.users, d.byFd[fd]), Remove(d.byFd, fd),
                                Remove(d.byName, d.users[d.byFd[fd]].name));
            Leads(env, d, Lost(fd), d') && Sound(d')
  {
    NextSound(env, d, Lost(fd));
    hide Indexed, Settled;
    assert Disconnect(d, fd).users == Remove(d.users, d.byFd[fd]);
  }

  lemma {:induction false} EmptySound()
    ensures Sound(EMPTY)
  {
  }

  // ----- One user, and two that want one name -----

  function Joining1(s: UserState): Directory {
    Directory(map[1 := User(3, [], s, [], 0)], map[3 := 1], map[])
  }

  function Named1(n: Name): Directory {
    Directory(map[1 := User(3, n, Available, [], 0)], map[3 := 1], if n == [] then map[] else map[n := 1])
  }

  /** The first user has the name and the second one is joining. */
  function Joining2(n: Name, s: UserState): Directory {
    Directory(Named1(n).users[2 := User(4, [], s, [], 0)], Named1(n).byFd[4 := 2], Named1(n).byName)
  }

  lemma {:induction false} FirstSteps(env: Env, n: Name, o: Oracle)
    requires env.ownName != n
    ensures Sound(EMPTY) && Leads(env, EMPTY, Connect(1, 3), Joining1(JustConnected))
    ensures Leads(env, Joining1(JustConnected), Message(3, Verify(true), o), Joining1(SecurelyConnected))
    ensures Leads(env, Joining1(SecurelyConnected), Message(3, Event.Register(n), o), Named1(n)) && Sound(Named1(n))
  {
    hide Leads, Sound;
    EmptySound();
    ConnectStep(env, EMPTY, 1, 3);
    VerifyStep(env, Joining1(JustConnected), 3, o);
    var secure := User(3, [], SecurelyConnected, [], 0);
    assert Joining1(JustConnected).users[1 := secure] == Joining1(SecurelyConnected).users;
    RegisterStep(env, Joining1(SecurelyConnected), 3, n, o);
    assert Joining1(SecurelyConnected).users[1 := User(3, n, Available, [], 0)] == Named1(n).users;
  }

  lemma {:induction false} SecondJoins(env: Env, n: Name, o: Oracle)
    requires Sound(Named1(n))
    ensures Leads(env, Named1(n), Connect(2, 4), Joining2(n, JustConnected))
    ensures Leads(env, Joining2(n, JustConnected), Message(4, Verify(true), o), Joining2(n, SecurelyConnected))
    ensures Sound(Joining2(n, SecurelyConnected))
  {
    hide Leads, Sound;
    ConnectStep(env, Named1(n), 2, 4);
    var d := Joining2(n, JustConnected);
    VerifyStep(env, d, 4, o);
    assert d.users[2 := User(4, [], SecurelyConnected, [], 0)] == Joining2(n, SecurelyConnected).users;
  }

  lemma {:induction false} SecondRefused(env: Env, n: Name, o: Oracle)
    requires env.ownName != n && n != [] && Sound(Joining2(n, SecurelyConnected))
    ensures Leads(env, Joining2(n, SecurelyConnected), Message(4, Event.Register(n), o),
              Directory(Named1(n).users, Named1(n).byFd, map[]))
  {
    hide Leads, Sound;
    var e := Joining2(n, SecurelyConnected);
    RefusedStep(env, e, 4, n, o);
    assert Remove(e.users, 2) == Named1(n).users && Remove(e.byFd, 4) == Named1(n).byFd && Remove(e.byName, n) == map[];
  }

  function Arrival(u: Uid, fd: int, n: Name, o: Oracle): seq<Round> {
    [Connect(u, fd), Message(fd, Verify(true), o), Message(fd, Event.Register(n), o)]
  }

  /** The first user registers under the empty name: it is available, and nobody can find it. */
  lemma {:induction false} NamelessRun(env: Env, o: Oracle)
    requires env.ownName != []
    ensures ValidRun(env, EMPTY, Arrival(1, 3, [], o))
    ensures After(env, EMPTY, Arrival(1, 3, [], o)) ==
            Directory(map[1 := User(3, [], Available, [], 0)], map[3 := 1], map[])
  {
    hide Leads, Sound, ValidRun, After;
    FirstSteps(env, [], o);
    PathRuns(env, [EMPTY, Joining1(JustConnected), Joining1(SecurelyConnected), Named1([])], Arrival(1, 3, [], o));
  }

  /** Two users want one name: the second is refused and goes away, and the first is no longer found. */
  lemma {:induction false} NamesakeRun(env: Env, n: Name, o: Oracle)
    requires env.ownName != n && n != []
    ensures ValidRun(env, EMPTY, Arrival(1, 3, n, o) + Arrival(2, 4, n, o))
    ensures After(env, EMPTY, Arrival(1, 3, n, o) + Arrival(2, 4, n, o)) ==
            Directory(map[1 := User(3, n, Available, [], 0)], map[3 := 1], map[])
  {
    hide Leads, Sound, ValidRun, After;
    FirstSteps(env, n, o);
    SecondJoins(env, n, o);
    SecondRefused(env, n, o);
    var d' := Directory(Named1(n).users, Named1(n).byFd, map[]);
    assert d'.users == map[1 := User(3, n, Available, [], 0)] && d'.byFd == map[3 := 1];
    hide Joining1, Joining2, Named1;
    PathRuns(env, [EMPTY, Joining1(JustConnected), Joining1(SecurelyConnected), Named1(n),
                   Joining2(n, JustConnected), Joining2(n, SecurelyConnected), d'],
             Arrival(1, 3, n, o) + Arrival(2, 4, n, o));
  }

  // ----- A challenge that ends for one of the two -----

  /** Both users are registered, and in this state. */
  function Facing(n: Name, m: Name, state: UserState, nOpponent: Name, mOpponent: Name): Directory {
    Directory(map[1 := User(3, n, state, nOpponent, 0), 2 := User(4, m, state, mOpponent, 0)], map[3 := 1, 4 := 2],
              map[n := 1, m := 2])
  }

  lemma {:induction false} SecondRegisters(env: Env, n: Name, m: Name, o: Oracle)
    requires env.ownName != m && n != [] && m != [] && n != m && Sound(Joining2(n, SecurelyConnected))
    ensures Leads(env, Joining2(n, SecurelyConnected), Message(4, Event.Register(m), o),
            Facing(n, m, Available, [], []))
    ensures Sound(Facing(n, m, Available, [], []))
  {
    hide Leads, Sound;
    var d := Joining2(n, SecurelyConnected);
    RegisterStep(env, d, 4, m, o);
    assert d.users[2 := User(4, m, Available, [], 0)] == Facing(n, m, Available, [], []).users;
  }

  function Two(n: Name, m: Name, x: User, y: User): Directory {
    Directory(map[1 := x, 2 := y], map[3 := 1, 4 := 2], map[n := 1, m := 2])
  }

  lemma {:induction false} TwoRefs(n: Name, m: Name, x: User, y: User, delta: int)
    requires x.refs + delta >= 0 && y.refs + delta >= 0
    ensures AddRef(Two(n, m, x, y), 1, delta) == Two(n, m, x.(refs := x.refs + delta), y)
    ensures AddRef(Two(n, m, x, y), 2, delta) == Two(n, m, x, y.(refs := y.refs + delta))
  {
    assert AddRef(Two(n, m, x, y), 1, delta).users == Two(n, m, x.(refs := x.refs + delta), y).users;
    assert AddRef(Two(n, m, x, y), 2, delta).users == Two(n, m, x, y.(refs := y.refs + delta)).users;
  }

  /** The handler takes and gives back a handle on the second user, and writes to both. */
  lemma {:induction false} ChallengeHandled(n: Name, m: Name, x: User, y: User, o: Oracle)
    requires n != m && x.name == n && y.name == m && x.state == Available && y.state == Available && o.Ok(0)
    requires Indexed(Two(n, m, x, y))
    ensures var r := HandleChallenge(Two(n, m, x, y), 1, m, o);
            r.res && r.d == Two(n, m, x.(state := Challenged, opponent := m), y.(state := Challenged, opponent := n))
  {
    hide Indexed, Yield;
    TwoRefs(n, m, x, y, 1);
    var d' := Two(n, m, x, y.(refs := y.refs + 1));
    var out := ChallengeBoth(1, 2, x, y.(refs := y.refs + 1), m, o);
    assert out.u == Duel(m) && out.v == Duel(n) && out.res;
    var x', y' := x.(state := Challenged, opponent := m), y.(state := Challenged, opponent := n);
    assert ChangeBoth(d', 1, 2, out) == Two(n, m, x', y'.(refs := y.refs + 1)) by {
      assert ChangeBoth(d', 1, 2, out).users == Two(n, m, x', y'.(refs := y.refs + 1)).users;
    }
    TwoYield(n, m, x', y'.(refs := y.refs + 1));
  }

  lemma {:induction false} TwoYield(n: Name, m: Name, x: User, y: User)
    requires x.state != Disconnected && y.state != Disconnected
    ensures x.refs > 0 ==> Yield(Two(n, m, x, y), 1) == Two(n, m, x.(refs := x.refs - 1), y)
    ensures y.refs > 0 ==> Yield(Two(n, m, x, y), 2) == Two(n, m, x, y.(refs := y.refs - 1))
  {
    if x.refs > 0 {
      assert AddRef(Two(n, m, x, y), 1, -1).users == Two(n, m, x.(refs := x.refs - 1), y).users;
    }
    if y.refs > 0 {
      assert AddRef(Two(n, m, x, y), 2, -1).users == Two(n, m, x, y.(refs := y.refs - 1)).users;
    }
  }

  lemma {:induction false} ChallengeStep(env: Env, n: Name, m: Name, o: Oracle)
    requires n != m && Sound(Facing(n, m, Available, [], [])) && o.Ok(0)
    ensures Leads(env, Facing(n, m, Available, [], []), Message(3, Event.Challenge(m), o),
            Facing(n, m, Challenged, m, n))
    ensures Sound(Facing(n, m, Challenged, m, n))
  {
    var d := Facing(n, m, Available, [], []);
    NextSound(env, d, Message(3, Event.Challenge(m), o));
    var x, y := User(3, n, Available, [], 1), User(4, m, Available, [], 0);
    TwoRefs(n, m, x.(refs := 0), y, 1);
    AddRefKeeps(d, 1, 1);
    ChallengeHandled(n, m, x, y, o);
    TwoYield(n, m, x.(state := Challenged, opponent := m), y.(state := Challenged, opponent := n));
    hide Indexed, Settled, HandleChallenge, Yield, AddRef;
    assert Work(env, d, 3, Event.Challenge(m), o).0 == Facing(n, m, Challenged, m, n);
  }

  /** The second user is lost while challenged: the first one goes on being challenged by nobody. */
  lemma {:induction false} UnpairedRun(env: Env, n: Name, m: Name, o: Oracle)
    requires env.ownName != n && env.ownName != m && n != [] && m != [] && n != m && o.Ok(0)
    ensures var rs := Arrival(1, 3, n, o) + Arrival(2, 4, m, o) + [Message(3, Event.Challenge(m), o), Lost(4)];
            ValidRun(env, EMPTY, rs) && After(env, EMPTY, rs) ==
              Directory(map[1 := User(3, n, Challenged, m, 0)], map[3 := 1], map[n := 1])
  {
    hide Leads, Sound, ValidRun, After;
    FirstSteps(env, n, o);
    SecondJoins(env, n, o);
    SecondRegisters(env, n, m, o);
    ChallengeStep(env, n, m, o);
    var d := Facing(n, m, Challenged, m, n);
    LostStep(env, d, 4);
    var d' := Directory(map[1 := User(3, n, Challenged, m, 0)], map[3 := 1], map[n := 1]);
    assert Remove(d.users, 2) == d'.users && Remove(d.byFd, 4) == d'.byFd && Remove(d.byName, m) == d'.byName;
    hide Joining1, Joining2, Named1, Facing;
    PathRuns(env, [EMPTY, Joining1(JustConnected), Joining1(SecurelyConnected), Named1(n), Joining2(n, JustConnected),
                   Joining2(n, SecurelyConnected), Facing(n, m, Available, [], []), d, d'],
             Arrival(1, 3, n, o) + Arrival(2, 4, m, o) + [Message(3, Event.Challenge(m), o), Lost(4)]);
  }

  // ----- A full list, and nobody refused -----

  function Newcomer(fd: int): User {
    User(fd, [], JustConnected, [], 0)
  }

  /** The first users, each under its own number as descriptor. */
  function Crowd(k: nat): Directory {
    Directory(map u: Uid | u < k :: Newcomer(u), map fd: int | 0 <= fd < k :: Newcomer(fd).fd, map[])
  }

  lemma {:induction false} CrowdGrows(k: nat)
    ensures Crowd(k + 1) ==
            Directory(Crowd(k).users[k := User(k, [], JustConnected, [], 0)], Crowd(k).byFd[k := k], map[])
  {
    assert Crowd(k + 1).users == Crowd(k).users[k := User(k, [], JustConnected, [], 0)];
    assert Crowd(k + 1).byFd == Crowd(k).byFd[k := k];
  }

  lemma {:induction false} CrowdSize(k: nat)
    ensures |Crowd(k).byFd| == k
  {
    if k == 0 {
      assert Crowd(0).byFd == map[];
    } else {
      CrowdSize(k - 1);
      CrowdGrows(k - 1);
    }
  }

  lemma {:induction false} CrowdSound(k: nat)
    requires k <= MAX_USERS
    ensures Sound(Crowd(k))
  {
    CrowdSize(k);
  }

  /** User 0 registers while the list is full; user 1 leaves; user 2 registers under the same name; user 0 leaves. */
  function Takeover(n: Name, o: Oracle): seq<Round> {
    [Message(0, Verify(true), o), Message(0, Event.Register(n), o), Lost(1),
     Message(2, Verify(true), o), Message(2, Event.Register(n), o), Lost(0)]
  }

  function CrowdThenTakeover(k: nat, n: Name, o: Oracle): seq<Round>
    requires k <= MAX_USERS
    decreases MAX_USERS - k
  {
    if k == MAX_USERS then Takeover(n, o) else [Connect(k, k)] + CrowdThenTakeover(k + 1, n, o)
  }

  ghost predicate Unfindable(d: Directory, u: Uid, n: Name) {
    u in d.users && d.users[u] == User(u, n, Available, [], 0) && u in d.byFd && d.byFd[u] == u && n !in d.byName
  }

  lemma {:induction false} FullSteps(env: Env, n: Name, o: Oracle) returns (d1: Directory, d2: Directory, d3: Directory)
    requires env.ownName != n
    ensures Sound(Crowd(MAX_USERS)) && Sound(d3)
    ensures Leads(env, Crowd(MAX_USERS), Message(0, Verify(true), o), d1)
    ensures Leads(env, d1, Message(0, Event.Register(n), o), d2) && Leads(env, d2, Lost(1), d3)
    ensures d3.byName == map[] && |d3.byFd| < MAX_USERS
    ensures 0 in d3.byFd && d3.byFd[0] == 0 && 0 in d3.users && d3.users[0] == User(0, n, Available, [], 0)
    ensures 2 in d3.byFd && d3.byFd[2] == 2 && 2 in d3.users && d3.users[2] == User(2, [], JustConnected, [], 0)
  {
    hide Leads, Sound;
    var d := Crowd(MAX_USERS);
    CrowdSound(MAX_USERS);
    CrowdSize(MAX_USERS);
    VerifyStep(env, d, 0, o);
    d1 := d.(users := d.users[0 := User(0, [], SecurelyConnected, [], 0)]);
    RegisterStep(env, d1, 0, n, o);
    d2 := d1.(users := d1.users[0 := User(0, n, Available, [], 0)]);
    LostStep(env, d2, 1);
    d3 := Directory(Remove(d2.users, 1), Remove(d2.byFd, 1), Remove(d2.byName, []));
    assert d3.byFd.Keys == d2.byFd.Keys - {1};
    assert d3.byName == map[];
  }

  lemma {:induction false} FreedSteps(env: Env, n: Name, o: Oracle, d3: Directory)
    returns (d4: Directory, d5: Directory, d6: Directory)
    requires env.ownName != n && n != [] && Sound(d3) && d3.byName == map[] && |d3.byFd| < MAX_USERS
    requires 0 in d3.byFd && d3.byFd[0] == 0 && 0 in d3.users && d3.users[0] == User(0, n, Available, [], 0)
    requires 2 in d3.byFd && d3.byFd[2] == 2 && 2 in d3.users && d3.users[2] == User(2, [], JustConnected, [], 0)
    ensures Leads(env, d3, Message(2, Verify(true), o), d4) && Leads(env, d4, Message(2, Event.Register(n), o), d5)
    ensures Leads(env, d5, Lost(0), d6) && Unfindable(d6, 2, n)
  {
    hide Leads, Sound;
    VerifyStep(env, d3, 2, o);
    d4 := d3.(users := d3.users[2 := User(2, [], SecurelyConnected, [], 0)]);
    RegisterStep(env, d4, 2, n, o);
    d5 := Directory(d4.users[2 := User(2, n, Available, [], 0)], d4.byFd, d4.byName[n := 2]);
    LostStep(env, d5, 0);
    d6 := Directory(Remove(d5.users, 0), Remove(d5.byFd, 0), Remove(d5.byName, n));
  }

  lemma {:induction false} TakeoverRun(env: Env, n: Name, o: Oracle)
    requires env.ownName != n && n != []
    ensures Sound(Crowd(MAX_USERS)) && ValidRun(env, Crowd(MAX_USERS), Takeover(n, o))
    ensures Unfindable(After(env, Crowd(MAX_USERS), Takeover(n, o)), 2, n)
  {
    hide Leads, Sound, ValidRun, After, Crowd, Unfindable;
    var d1, d2, d3 := FullSteps(env, n, o);
    var d4, d5, d6 := FreedSteps(env, n, o, d3);
    PathRuns(env, [Crowd(MAX_USERS), d1, d2, d3, d4, d5, d6], Takeover(n, o));
  }

  lemma {:induction false} OneMore(env: Env, d: Directory, r: Round, d': Directory, rs: seq<Round>)
    requires Leads(env, d, r, d') && Sound(d') && ValidRun(env, d', rs)
    ensures ValidRun(env, d, [r] + rs) && After(env, d, [r] + rs) == After(env, d', rs)
  {
    hide Sound, Next, Valid;
    assert ([r] + rs)[1..] == rs;
    NextSound(env, d, r);
  }

  lemma {:induction false} CrowdStep(env: Env, k: nat)
    requires k < MAX_USERS
    ensures Sound(Crowd(k)) && Sound(Crowd(k + 1)) && Leads(env, Crowd(k), Connect(k, k), Crowd(k + 1))
  {
    hide Sound, Leads;
    CrowdSound(k);
    CrowdGrows(k);
    CrowdSize(k);
    ConnectStep(env, Crowd(k), k, k);
  }

  lemma {:induction false} FromCrowd(env: Env, k: nat, n: Name, o: Oracle)
    requires env.ownName != n && n != [] && k <= MAX_USERS
    ensures Sound(Crowd(k)) && ValidRun(env, Crowd(k), CrowdThenTakeover(k, n, o))
    ensures Unfindable(After(env, Crowd(k), CrowdThenTakeover(k, n, o)), 2, n)
    decreases MAX_USERS - k
  {
    hide Sound, Unfindable, Crowd, Leads, ValidRun, After, Takeover;
    if k == MAX_USERS {
      TakeoverRun(env, n, o);
    } else {
      CrowdStep(env, k);
      FromCrowd(env, k + 1, n, o);
      OneMore(env, Crowd(k), Connect(k, k), Crowd(k + 1), CrowdThenTakeover(k + 1, n, o));
    }
  }

  /** A user that registers while the list is full has no entry, and takes a later namesake's with it when it leaves:
      in this run nobody is refused a name, and user 2 ends up registered and not found. */
  lemma {:induction false} FullListRun(env: Env, n: Name, o: Oracle)
    requires env.ownName != n && n != []
    ensures ValidRun(env, EMPTY, CrowdThenTakeover(0, n, o))
    ensures Unfindable(After(env, EMPTY, CrowdThenTakeover(0, n, o)), 2, n)
  {
    FromCrowd(env, 0, n, o);
    assert Crowd(0).users == map[] && Crowd(0).byFd == map[];
    hide ValidRun, After, CrowdThenTakeover;
  }
}
