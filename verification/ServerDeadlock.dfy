// Deadlock: there is none as long as every message is handed on, and exactly one way into it otherwise.

module ServerDeadlock {
  import opened Bytes
  import opened Directory
  import opened Handlers
  import opened ServerMachine
  import opened ServerInvariants
  import opened ServerRuns
  import opened ServerTheorems

  // ----- Exactly when nothing moves -----

  /** Waits, perhaps through others, for a mutex that was left locked. */
  ghost predicate Hopeless(s: Server, t: Tid) {
    exists c :: Chain(s, c) && c[0] == t && Jammed(s, c[|c| - 1])
  }

  lemma {:induction false} HopelessBlocked(s: Server, t: Tid)
    requires Hopeless(s, t)
    ensures t < |s.threads| && Blocked(s, t)
  {
    var c :| Chain(s, c) && c[0] == t && Jammed(s, c[|c| - 1]);
    if |c| > 1 {
      assert WaitsOn(s, c[0], c[0 + 1]);
    }
  }

  /** No thread can step exactly when every thread in the middle of its work waits, perhaps through others,
      for a mutex that was left locked. */
  lemma {:induction false} DeadlockExactly(s: Server)
    requires Inv(s)
    ensures (forall r: Tid :: !CanStep(s, r)) <==>
            forall t :: 0 <= t < |s.threads| && s.threads[t] != Idle ==> Hopeless(s, t)
  {
    hide Inv, Hopeless;
    if forall r: Tid :: !CanStep(s, r) {
      forall t | 0 <= t < |s.threads| && s.threads[t] != Idle
        ensures Hopeless(s, t)
      {
        assert !CanStep(s, t);
        var c := EveryWaitEnds(s, t);
        ChainHopeless(s, c);
      }
    }
    if forall t :: 0 <= t < |s.threads| && s.threads[t] != Idle ==> Hopeless(s, t) {
      forall r: Tid
        ensures !CanStep(s, r)
      {
        if r < |s.threads| && s.threads[r] != Idle {
          HopelessBlocked(s, r);
        }
      }
    }
  }

  lemma {:induction false} ChainHopeless(s: Server, c: seq<Tid>)
    requires Chain(s, c) && Jammed(s, c[|c| - 1])
    ensures Hopeless(s, c[0])
  {
  }

  // ----- It is for good -----

  lemma {:induction false} BlockedStays(env: Env, s: Server, t: Tid, start: Op)
    requires Inv(s) && t < |s.threads| && Blocked(s, t)
    ensures Step(env, s, t, start) == s
  {
    assert Alive(s, s.threads[t]);
    hide Inv, ListOp, Select, NextOfTwo;
    BlockedNext(env, s, t, start);
  }

  /** A blocked thread is about to take what it waits for. */
  lemma {:induction false} BlockedNext(env: Env, s: Server, t: Tid, start: Op)
    requires t < |s.threads| && Indexed(s.d) && Alive(s, s.threads[t]) && Blocked(s, t)
    ensures var a := Next(env, s, t, start);
            (a.Acquire? && (a.x in s.owner || a.x in s.lost)) || (a.Enter? && s.list.Some?)
  {
    hide Indexed, ListOp, Select, NameLess, OutcomeOf, PutsOf, PutOne;
  }

  /** A step of another thread does not end a wait, unless it releases. */
  lemma {:induction false} WaitStays(env: Env, s: Server, r: Tid, start: Op, t: Tid, q: Tid)
    requires Inv(s) && r < |s.threads| && r != t && r != q && WaitsOn(s, t, q)
    ensures WaitsOn(Step(env, s, r, start), t, q)
  {
    NextFits(env, s, r, start);
    var a := Next(env, s, r, start);
    ReleasesOwn(s, r, a);
    hide Inv, Next, Fits, Perform, WaitsOn;
    WaitKept(s, r, a, t, q);
  }

  lemma {:induction false} ReleasesOwn(s: Server, r: Tid, a: Act)
    requires r < |s.threads| && OwnersHold(s) && ListHeld(s) && Fits(s.threads[r], a)
    ensures a.Release? || a.Abandon? ==> a.x in s.owner && s.owner[a.x] == r
    ensures a.Exec? ==> s.list == Some(r)
  {
    hide HoldsLock, SameLocks;
  }

  lemma {:induction false} WaitKept(s: Server, r: Tid, a: Act, t: Tid, q: Tid)
    requires r < |s.threads| && r != t && r != q && WaitsOn(s, t, q)
    requires a.Release? || a.Abandon? ==> a.x in s.owner && s.owner[a.x] == r
    requires a.Exec? ==> s.list == Some(r)
    ensures WaitsOn(Perform(s, r, a), t, q)
  {
    hide WaitsFor;
  }

  lemma {:induction false} JamStays(env: Env, s: Server, r: Tid, start: Op, t: Tid)
    requires Inv(s) && r < |s.threads| && Jammed(s, t)
    ensures var s' := Step(env, s, r, start); s'.threads[t] == s.threads[t] && Jammed(s', t)
  {
    hide Inv, Next;
    if r == t {
      BlockedStays(env, s, t, start);
    }
  }

  lemma {:induction false} ChainStays(env: Env, s: Server, r: Tid, start: Op, c: seq<Tid>)
    requires Inv(s) && r < |s.threads| && Chain(s, c) && Jammed(s, c[|c| - 1])
    ensures var s' := Step(env, s, r, start);
            Chain(s', c) && Jammed(s', c[|c| - 1]) && s'.threads[c[0]] == s.threads[c[0]]
  {
    hide Inv, Step, Jammed, WaitsOn;
    var s' := Step(env, s, r, start);
    if r in c {
      var k :| 0 <= k < |c| && c[k] == r;
      assert Chain(s, c[k..]) by {
        forall j | 0 <= j < |c[k..]| - 1
          ensures WaitsOn(s, c[k..][j], c[k..][j + 1])
        {
          assert WaitsOn(s, c[k + j], c[k + j + 1]);
        }
      }
      ChainHopeless(s, c[k..]);
      HopelessBlocked(s, r);
      BlockedStays(env, s, r, start);
    } else {
      forall k | 0 <= k < |c| - 1
        ensures WaitsOn(s', c[k], c[k + 1])
      {
        WaitStays(env, s, r, start, c[k], c[k + 1]);
      }
      JamStays(env, s, r, start, c[|c| - 1]);
      OthersStay(env, s, r, start, c[0]);
    }
  }

  lemma {:induction false} OthersStay(env: Env, s: Server, r: Tid, start: Op, t: Tid)
    requires Inv(s) && r < |s.threads| && t < |s.threads| && r != t
    ensures Step(env, s, r, start).threads[t] == s.threads[t]
  {
    hide Inv, Next;
  }

  /** Whoever waits for a lost mutex stays where it is in every continuation of the run. */
  lemma {:induction false} HopelessForever(env: Env, s: Server, turns: seq<Turn>, t: Tid)
    requires Inv(s) && Hopeless(s, t) && forall k :: 0 <= k < |turns| ==> turns[k].t < |s.threads|
    ensures t < |s.threads| && Run(env, s, turns).threads[t] == s.threads[t] && Hopeless(Run(env, s, turns), t)
    decreases |turns|
  {
    hide Inv, Step;
    var c :| Chain(s, c) && c[0] == t && Jammed(s, c[|c| - 1]);
    if turns != [] {
      assert turns[0].t < |s.threads|;
      ChainStays(env, s, turns[0].t, turns[0].start, c);
      var s' := Step(env, s, turns[0].t, turns[0].start);
      assert forall k :: 0 <= k < |turns[1..]| ==> turns[1..][k] == turns[k + 1];
      HopelessForever(env, s', turns[1..], t);
    }
  }

  // ----- No message dropped, no deadlock -----

  /** The message that a thread has not looked at yet is not one that handleMsg drops. */
  predicate Clean(pc: Pc) {
    && (pc.List? && pc.op.Fetch? ==> !pc.op.e.Dropped?)
    && (pc.Lock? || pc.Dispatch? ==> !pc.e.Dropped?)
  }

  ghost predicate AllClean(s: Server) {
    s.lost == {} && forall t :: 0 <= t < |s.threads| ==> Clean(s.threads[t])
  }

  lemma {:induction false} NextClean(env: Env, s: Server, t: Tid, start: Op)
    requires t < |s.threads| && Indexed(s.d) && Alive(s, s.threads[t]) && Clean(s.threads[t])
    requires start.Fetch? ==> !start.e.Dropped?
    ensures Clean(Next(env, s, t, start).pc) && !Next(env, s, t, start).Abandon?
  {
    hide Indexed, ListOp, NextOfTwo, Select;
    var pc := s.threads[t];
    if Inside(pc) {
      ListOpClean(s, pc.op);
    } else if OfTwo(pc) {
      OfTwoClean(env, s, pc);
    } else if pc.Dispatch? {
      SelectClean(env, s.d.users[pc.u], pc.u, pc.e, pc.o);
    }
  }

  lemma {:induction false} FetchClean(s: Server, fd: int, e: Event, o: Oracle)
    requires Indexed(s.d) && !e.Dropped?
    ensures Clean(ListOp(s, Fetch(fd, e, o)).pc) && ListOp(s, Fetch(fd, e, o)).Exec?
  {
    assert fd in s.d.byFd ==> s.d.byFd[fd] in s.d.users;
    hide Indexed;
  }

  lemma {:induction false} ListOpClean(s: Server, op: Op)
    requires Indexed(s.d) && Alive(s, List(op, true)) && Clean(List(op, true))
    ensures Clean(ListOp(s, op).pc) && ListOp(s, op).Exec?
  {
    if op.Fetch? {
      FetchClean(s, op.fd, op.e, op.o);
    } else {
      ListOpFits(s, op);
      hide Indexed, Alive, Add, Yield, Fits, AddRef;
    }
  }

  lemma {:induction false} OfTwoClean(env: Env, s: Server, pc: Pc)
    requires OfTwo(pc) && Alive(s, pc)
    ensures Clean(NextOfTwo(env, s, pc).pc) && !NextOfTwo(env, s, pc).Abandon?
  {
    hide NameLess, OutcomeOf, PutsOf, PutOne;
  }

  lemma {:induction false} SelectClean(env: Env, user: User, u: Uid, e: Event, o: Oracle)
    requires !e.Dropped?
    ensures Clean(Select(env, user, u, e, o))
  {
  }

  lemma {:induction false} StepClean(env: Env, s: Server, t: Tid, start: Op)
    requires Inv(s) && t < |s.threads| && AllClean(s) && (start.Fetch? ==> !start.e.Dropped?)
    ensures AllClean(Step(env, s, t, start))
  {
    assert Indexed(s.d) && Alive(s, s.threads[t]);
    hide Inv, Next, Clean;
    NextClean(env, s, t, start);
  }

  ghost predicate NothingDropped(turns: seq<Turn>) {
    forall k :: 0 <= k < |turns| && turns[k].start.Fetch? ==> !turns[k].start.e.Dropped?
  }

  lemma {:induction false} RunClean(env: Env, s: Server, turns: seq<Turn>)
    requires Inv(s) && AllClean(s) && forall k :: 0 <= k < |turns| ==> turns[k].t < |s.threads|
    requires NothingDropped(turns)
    ensures AllClean(Run(env, s, turns))
    decreases |turns|
  {
    hide Inv, Step, AllClean;
    if turns != [] {
      assert turns[0].t < |s.threads|;
      StepClean(env, s, turns[0].t, turns[0].start);
      assert forall k :: 0 <= k < |turns[1..]| ==> turns[1..][k] == turns[k + 1];
      RunClean(env, Step(env, s, turns[0].t, turns[0].start), turns[1..]);
    }
  }

  lemma {:induction false} SomeoneSteps(s: Server, t: Tid) returns (r: Tid)
    requires Inv(s) && t < |s.threads| && s.threads[t] != Idle && s.lost == {}
    ensures CanStep(s, r)
  {
    hide Inv;
    r := t;
    if Blocked(s, t) {
      var c := EveryWaitEnds(s, t);
      r := c[|c| - 1];
    }
  }

  lemma {:induction false} NoCircle(s: Server)
    requires Inv(s)
    ensures forall c :: Chain(s, c) ==> !WaitsOn(s, c[|c| - 1], c[0])
  {
    hide Inv, WaitsOn;
    forall c | Chain(s, c)
      ensures !WaitsOn(s, c[|c| - 1], c[0])
    {
      NoCycle(s, c);
    }
  }

  /** In every run in which handleMsg drops no message, of any number of workers: as long as some thread is in the
      middle of its work, some thread can step. In every run whatsoever no threads wait in a circle. */
  lemma {:induction false} NoDeadlock(env: Env, workers: nat, turns: seq<Turn>, t: Tid) returns (r: Tid)
    requires forall k :: 0 <= k < |turns| ==> turns[k].t < workers + 1
    requires t < workers + 1 && Run(env, Initial(workers), turns).threads[t] != Idle
    ensures NothingDropped(turns) ==> CanStep(Run(env, Initial(workers), turns), r)
    ensures forall c :: Chain(Run(env, Initial(workers), turns), c) ==>
              !WaitsOn(Run(env, Initial(workers), turns), c[|c| - 1], c[0])
  {
    InitialClean(workers);
    hide Inv, Initial, Run, AllClean, Chain, WaitsOn, CanStep, NothingDropped;
    var s := Run(env, Initial(workers), turns);
    r := t;
    if NothingDropped(turns) {
      RunClean(env, Initial(workers), turns);
      CleanLost(s);
      r := SomeoneSteps(s, t);
    }
    NoCircle(s);
  }

  lemma {:induction false} InitialClean(workers: nat)
    ensures AllClean(Initial(workers))
  {
  }

  lemma {:induction false} CleanLost(s: Server)
    requires AllClean(s)
    ensures s.lost == {}
  {
  }

  // ----- A message dropped -----

  /** These turns lead from `s` to `s'`. */
  ghost predicate Reaches(env: Env, s: Server, turns: seq<Turn>, s': Server) {
    && Inv(s) && Inv(s') && (forall k :: 0 <= k < |turns| ==> turns[k].t < |s.threads|)
    && Run(env, s, turns) == s'
  }

  lemma {:induction false} RunMore(env: Env, s: Server, turns: seq<Turn>, turn: Turn)
    requires Inv(s) && turn.t < |s.threads| && forall k :: 0 <= k < |turns| ==> turns[k].t < |s.threads|
    ensures Run(env, s, turns + [turn]) == Step(env, Run(env, s, turns), turn.t, turn.start)
    decreases |turns|
  {
    hide Inv, Step;
    if turns == [] {
      assert turns + [turn] == [turn] && [turn][1..] == [];
      assert Run(env, Step(env, s, turn.t, turn.start), []) == Step(env, s, turn.t, turn.start);
    } else {
      assert turns[0].t < |s.threads|;
      assert (turns + [turn])[1..] == turns[1..] + [turn];
      assert forall k :: 0 <= k < |turns[1..]| ==> turns[1..][k] == turns[k + 1];
      RunMore(env, Step(env, s, turns[0].t, turns[0].start), turns[1..], turn);
    }
  }

  /** One more turn. */
  lemma {:induction false} Further(env: Env, s0: Server, turns: seq<Turn>, s: Server, t: Tid, start: Op)
    requires Reaches(env, s0, turns, s) && t < |s.threads|
    ensures |s0.threads| == |s.threads| && Indexed(s.d) && Alive(s, s.threads[t])
    ensures Reaches(env, s0, turns + [Turn(t, start)], Perform(s, t, Next(env, s, t, start)))
  {
    assert Indexed(s.d) && Alive(s, s.threads[t]);
    hide Inv, Next, Perform, Run;
    RunMore(env, s0, turns, Turn(t, start));
    assert Step(env, s, t, start) == Perform(s, t, Next(env, s, t, start));
  }

  function Returned(s: Server, t: Tid, a: Act): Server
    requires t < |s.threads| && a.Exec?
  {
    s.(threads := s.threads[t := a.pc], d := a.d, logs := a.logs, clock := a.clock)
  }

  /** A method of the list, from its call to its return. */
  lemma {:induction false} Called(env: Env, s0: Server, turns: seq<Turn>, s: Server, t: Tid, op: Op, start: Op)
    requires Reaches(env, s0, turns, s) && t < |s.threads| && s.list == None && s.threads[t] == List(op, false)
    ensures Indexed(s.d) && Alive(s, List(op, true)) && ListOp(s, op).Exec?
    ensures Reaches(env, s0, turns + [Turn(t, start)] + [Turn(t, start)], Returned(s, t, ListOp(s, op)))
  {
    hide Reaches, ListOp, Select, NextOfTwo, Indexed;
    Further(env, s0, turns, s, t, start);
    var s1 := s.(threads := s.threads[t := List(op, true)], list := Some(t));
    assert Perform(s, t, Next(env, s, t, start)) == s1;
    Further(env, s0, turns + [Turn(t, start)], s1, t, start);
    assert Alive(s, List(op, true)) by {
      AliveInside(s, op);
    }
    SameListOp(s, s1, op);
    assert s1.threads[t := ListOp(s, op).pc] == s.threads[t := ListOp(s, op).pc];
  }

  lemma {:induction false} AliveInside(s: Server, op: Op)
    requires Alive(s, List(op, false))
    ensures Alive(s, List(op, true))
  {
  }

  /** An idle thread starts to work, up to the return of its first call of the list. */
  lemma {:induction false} Started(env: Env, s0: Server, turns: seq<Turn>, s: Server, t: Tid,
    op: Op)
    returns (more: seq<Turn>)
    requires Reaches(env, s0, turns, s) && t < |s.threads| && s.list == None && s.threads[t] == Idle
    requires if t == 0 then op.Poll? || op.Accept? else op.Fetch?
    ensures Indexed(s.d) && Alive(s, List(op, true)) && ListOp(s, op).Exec?
    ensures Reaches(env, s0, more, Returned(s, t, ListOp(s, op)))
  {
    hide Reaches, ListOp, Select, NextOfTwo, Indexed;
    Further(env, s0, turns, s, t, op);
    var s1 := s.(threads := s.threads[t := List(op, false)]);
    assert Perform(s, t, Next(env, s, t, op)) == s1;
    Called(env, s0, turns + [Turn(t, op)], s1, t, op, op);
    more := turns + [Turn(t, op)] + [Turn(t, op)] + [Turn(t, op)];
    SameListOp(s, s1, op);
    assert s1.threads[t := ListOp(s, op).pc] == s.threads[t := ListOp(s, op).pc];
  }

  /** The only user, under descriptor 3. */
  function Only(state: UserState, refs: nat): Directory {
    Directory(map[1 := User(3, [], state, [], refs)], map[3 := 1], map[])
  }

  /** A main loop that is idle and two workers. */
  function World(d: Directory, owner: map<Uid, Tid>, lost: set<Uid>, a: Pc, b: Pc): Server {
    Server(d, if d.users == map[] then map[] else map[1 := Log(false, false, 0, 0)], 0, owner, lost, None, [Idle, a, b])
  }

  lemma {:induction false} EmptyWorld(env: Env)
    ensures Reaches(env, Initial(2), [], World(Directory(map[], map[], map[]), map[], {}, Idle, Idle))
  {
    hide Inv;
    assert seq(3, _ => Idle) == [Idle, Idle, Idle];
    assert Initial(2) == World(Directory(map[], map[], map[]), map[], {}, Idle, Idle);
  }

  lemma {:induction false} Accepted(env: Env) returns (turns: seq<Turn>)
    ensures Reaches(env, Initial(2), turns, World(Only(JustConnected, 0), map[], {}, Idle, Idle))
  {
    var s := World(Directory(map[], map[], map[]), map[], {}, Idle, Idle);
    EmptyWorld(env);
    hide Reaches, Initial, Select, NextOfTwo, Indexed, Alive;
    turns := Started(env, Initial(2), [], s, 0, Accept(1, 3));
    assert Returned(s, 0, ListOp(s, Accept(1, 3))) == World(Only(JustConnected, 0), map[], {}, Idle, Idle);
  }

  lemma {:induction false} Fetched(env: Env, s0: Server, turns: seq<Turn>, s: Server, t: Tid, refs: nat, e: Event,
    o: Oracle)
    returns (more: seq<Turn>)
    requires Reaches(env, s0, turns, s) && s.d == Only(JustConnected, refs) && s.list == None
    requires 0 < t < |s.threads| && s.threads[t] == Idle
    ensures Reaches(env, s0, more, s.(d := Only(JustConnected, refs + 1), threads := s.threads[t := Lock(1, e, o)]))
  {
    hide Reaches, Indexed, Alive;
    more := Started(env, s0, turns, s, t, Fetch(3, e, o));
    assert AddRef(s.d, 1, 1).users == Only(JustConnected, refs + 1).users;
  }

  lemma {:induction false} FirstFetch(env: Env, o: Oracle) returns (turns: seq<Turn>)
    ensures Reaches(env, Initial(2), turns, World(Only(JustConnected, 1), map[], {}, Lock(1, Dropped, o), Idle))
  {
    hide Reaches, Initial;
    turns := Accepted(env);
    var s := World(Only(JustConnected, 0), map[], {}, Idle, Idle);
    turns := Fetched(env, Initial(2), turns, s, 1, 0, Dropped, o);
    assert s.threads[1 := Lock(1, Dropped, o)] == [Idle, Lock(1, Dropped, o), Idle];
  }

  lemma {:induction false} SecondFetch(env: Env, e: Event, o: Oracle) returns (turns: seq<Turn>)
    ensures Reaches(env, Initial(2), turns,
              World(Only(JustConnected, 2), map[1 := 1], {}, Dispatch(1, Dropped, o), Lock(1, e, o)))
  {
    hide Reaches, Initial, ListOp, Select, NextOfTwo, Indexed, Alive;
    var start := Poll(0, false);
    turns := FirstFetch(env, o);
    var s1 := World(Only(JustConnected, 1), map[], {}, Lock(1, Dropped, o), Idle);
    Further(env, Initial(2), turns, s1, 1, start);
    turns := turns + [Turn(1, start)];
    var s2 := World(Only(JustConnected, 1), map[1 := 1], {}, Dispatch(1, Dropped, o), Idle);
    assert s1.threads[1 := Dispatch(1, Dropped, o)] == s2.threads;
    turns := Fetched(env, Initial(2), turns, s2, 2, 1, e, o);
    assert s2.threads[2 := Lock(1, e, o)] == [Idle, Dispatch(1, Dropped, o), Lock(1, e, o)];
  }

  lemma {:induction false} Dropping(env: Env, e: Event, o: Oracle) returns (turns: seq<Turn>)
    ensures Reaches(env, Initial(2), turns,
              World(Only(JustConnected, 2), map[], {1}, Finished(1, false), Lock(1, e, o)))
  {
    hide Reaches, Initial, ListOp, Select, NextOfTwo, Indexed, Alive;
    var start := Poll(0, false);
    turns := SecondFetch(env, e, o);
    var s := World(Only(JustConnected, 2), map[1 := 1], {}, Dispatch(1, Dropped, o), Lock(1, e, o));
    Further(env, Initial(2), turns, s, 1, start);
    turns := turns + [Turn(1, start)];
    assert Remove(s.owner, 1) == map[] && s.lost + {1} == {1};
    assert s.threads[1 := Finished(1, false)] == [Idle, Finished(1, false), Lock(1, e, o)];
  }

  lemma {:induction false} Disconnecting(env: Env, e: Event, o: Oracle) returns (turns: seq<Turn>)
    ensures Reaches(env, Initial(2), turns,
              World(Only(Disconnected, 2), map[], {1}, List(YieldUser(1), false), Lock(1, e, o)))
  {
    hide Reaches, Initial, ListOp, Select, NextOfTwo, Indexed, Alive;
    var start := Poll(0, false);
    turns := Dropping(env, e, o);
    var s := World(Only(JustConnected, 2), map[], {1}, Finished(1, false), Lock(1, e, o));
    Further(env, Initial(2), turns, s, 1, start);
    turns := turns + [Turn(1, start)];
    assert s.threads[1 := List(YieldUser(1), false)] == [Idle, List(YieldUser(1), false), Lock(1, e, o)];
    assert s.d.users[1 := s.d.users[1].(state := Disconnected)] == Only(Disconnected, 2).users;
    assert s.logs[1 := s.logs[1]] == s.logs;
  }

  /** One worker's message is dropped while another one has fetched the same user: the first leaves the user locked,
      disconnects it and is done, and the second waits for it for ever. */
  lemma {:induction false} DroppedMessageRun(env: Env, e: Event, o: Oracle) returns (turns: seq<Turn>, s: Server)
    ensures Reaches(env, Initial(2), turns, s)
    ensures s == World(Only(Disconnected, 1), map[], {1}, Idle, Lock(1, e, o))
    ensures Hopeless(s, 2) && forall r: Tid :: !CanStep(s, r)
  {
    hide Reaches, Initial, Select, NextOfTwo, Indexed, Alive;
    var start := Poll(0, false);
    turns := Disconnecting(env, e, o);
    var s1 := World(Only(Disconnected, 2), map[], {1}, List(YieldUser(1), false), Lock(1, e, o));
    Called(env, Initial(2), turns, s1, 1, YieldUser(1), start);
    turns := turns + [Turn(1, start)] + [Turn(1, start)];
    s := World(Only(Disconnected, 1), map[], {1}, Idle, Lock(1, e, o));
    assert s1.threads[1 := Idle] == s.threads;
    assert AddRef(s1.d, 1, -1).users == s.d.users;
    assert Returned(s1, 1, ListOp(s1, YieldUser(1))) == s;
    NobodySteps(s, e, o);
  }

  lemma {:induction false} NobodySteps(s: Server, e: Event, o: Oracle)
    requires s == World(Only(Disconnected, 1), map[], {1}, Idle, Lock(1, e, o))
    ensures Hopeless(s, 2) && forall r: Tid :: !CanStep(s, r)
  {
    assert Jammed(s, 2);
    ChainHopeless(s, [2]);
    forall r: Tid
      ensures !CanStep(s, r)
    {
      assert r == 0 || r == 1 || r == 2 || r >= |s.threads|;
    }
  }
}
