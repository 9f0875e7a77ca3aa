// Every run of the server: no deadlock, no use of deleted users, states reached in order.

module ServerRuns {
  import opened Bytes
  import opened Directory
  import opened Handlers
  import opened ServerMachine
  import opened ServerInvariants

  // ----- The invariant -----

  ghost predicate AllPcsOk(s: Server) {
    forall t :: 0 <= t < |s.threads| ==> Named(s.d, s.logs, s.threads[t]) && PcOk(s.d, s.logs, s.threads[t])
  }

  ghost predicate Inv(s: Server) {
    OwnersHold(s) && ListHeld(s) && RefsCount(s) && AllAlive(s) && WorldOk(s.d, s.logs, s.clock) && AllPcsOk(s)
  }

  function ClockAfter(s: Server, a: Act): nat {
    if a.Exec? then a.clock else s.clock
  }

  /** The world is kept, and the thread may rely on what it now relies on. */
  ghost predicate Kept(s: Server, pc: Pc, a: Act) {
    && WorldKept(s, pc, DirAfter(s, a), LogsAfter(s, a), ClockAfter(s, a))
    && (Named(DirAfter(s, a), LogsAfter(s, a), a.pc) ==> PcOk(DirAfter(s, a), LogsAfter(s, a), a.pc))
  }

  lemma {:induction false} OutcomeOk(env: Env, i: Uid, j: Uid, u: User, v: User, job: Job)
    ensures PutsOk(PutsOf(OutcomeOf(env, i, j, u, v, job)))
  {
  }

  lemma {:induction false} SelectKept(env: Env, s: Server, u: Uid, e: Event, o: Oracle)
    requires WorldOk(s.d, s.logs, s.clock) && u in s.d.users && u in s.logs && !e.Dropped?
    ensures PcOk(s.d, s.logs, Select(env, s.d.users[u], u, e, o))
  {
    hide Indexed, NameOk, TwoOk;
    assert UserOk(s.d, s.logs, s.clock, u);
  }

  lemma {:induction false} FoundIsLater(s: Server, u: Uid, name: Name)
    requires WorldOk(s.d, s.logs, s.clock) && u in s.d.users && u in s.logs && name in s.d.byName &&
             s.d.byName[name] != u
    ensures var v := s.d.byName[name];
            && v in s.d.users && v in s.logs && s.logs[v].registered && s.logs[v].stamp > 0
            && (s.d.users[u].name == s.d.users[v].name ==> s.logs[u].stamp < s.logs[v].stamp)
  {
    hide UserOk, FdsDiffer;
    assert NameOk(s.d, s.logs, name);
    assert Newest(s.d, s.logs, name, u);
  }

  /** What the thread may rely on once it has found `v`. */
  lemma {:induction false} FoundOk(s: Server, u: Uid, v: Uid, job: Job)
    requires u in s.d.users && u in s.logs && s.logs[u].registered && u != v
    requires v in s.d.users && v in s.logs && s.logs[v].registered && s.logs[v].stamp > 0
    requires s.d.users[u].name == s.d.users[v].name ==> s.logs[u].stamp < s.logs[v].stamp
    ensures Named(AddRef(s.d, v, 1), s.logs, Pair(u, v, job)) && PcOk(AddRef(s.d, v, 1), s.logs, Pair(u, v, job))
  {
  }

  lemma {:induction false} FindResult(s: Server, u: Uid, name: Name, job: Job)
    requires Indexed(s.d) && Alive(s, List(Find(u, name, job), true))
    ensures name in s.d.byName ==> s.d.byName[name] in s.d.users
    ensures ListOp(s, Find(u, name, job)) ==
            if name !in s.d.byName then Exec(s.d, s.logs, s.clock, NotFound(u, job))
            else if s.d.byName[name] == u then
              Exec(AddRef(s.d, u, 1), s.logs[u := s.logs[u].(leaked := s.logs[u].leaked + 1)], s.clock,
                  NotFound(u, job))
            else Exec(AddRef(s.d, s.d.byName[name], 1), s.logs, s.clock, Pair(u, s.d.byName[name], job))
  {
    assert name in s.d.byName ==> s.d.byName[name] in s.d.users;
    hide Indexed, AddRef;
  }

  lemma {:induction false} FindKept(s: Server, u: Uid, name: Name, job: Job)
    requires WorldOk(s.d, s.logs, s.clock) && Indexed(s.d) && Alive(s, List(Find(u, name, job), true)) &&
             s.logs[u].registered
    ensures Kept(s, List(Find(u, name, job), true), ListOp(s, Find(u, name, job)))
  {
    hide WorldKept, WorldOk, Indexed, TwoOk, ListOp, AddRef;
    FindResult(s, u, name, job);
    var pc, a := List(Find(u, name, job), true), ListOp(s, Find(u, name, job));
    if name in s.d.byName {
      var v := s.d.byName[name];
      EntryNamed(s.d, name);
      HandleTaken(s, pc, v, a.logs);
      if v != u {
        FoundIsLater(s, u, name);
        hide PcOk, Named;
        FoundOk(s, u, v, job);
      }
    } else {
      NothingWritten(s, pc, s.clock);
    }
  }

  lemma {:induction false} EntryNamed(d: Directory, name: Name)
    requires Indexed(d) && name in d.byName
    ensures d.byName[name] in d.users && d.users[d.byName[name]].name == name
  {
  }

  lemma {:induction false} LookupKept(s: Server, op: Op, fd: int)
    requires WorldOk(s.d, s.logs, s.clock) && ((op.Fetch? && op.fd == fd) || (op.Poll? && op.fd == fd))
    ensures Kept(s, List(op, true), ListOp(s, op))
  {
    var a := ListOp(s, op);
    if fd in s.d.byFd {
      assert s.d.byFd[fd] in s.d.users;
      hide WorldKept, WorldOk;
      HandleTaken(s, List(op, true), s.d.byFd[fd], a.logs);
    } else {
      hide WorldKept, WorldOk;
      NothingWritten(s, List(op, true), s.clock);
    }
  }

  lemma {:induction false} ListOpKept(s: Server, op: Op)
    requires WorldOk(s.d, s.logs, s.clock) && Indexed(s.d) && Alive(s, List(op, true)) &&
             Named(s.d, s.logs, List(op, true))
    requires PcOk(s.d, s.logs, List(op, true))
    ensures Kept(s, List(op, true), ListOp(s, op))
  {
    hide WorldKept, WorldOk, Indexed, Yield, Add, AddRef;
    var pc, a := List(op, true), ListOp(s, op);
    match op
    case Fetch(fd, e, o) => LookupKept(s, op, fd);
    case Poll(fd, broken) => LookupKept(s, op, fd);
    case Accept(u, fd) =>
      if u in s.logs || exists w :: w in s.d.users && s.d.users[w].fd == fd {
        NothingWritten(s, pc, s.clock);
      } else {
        UserAdded(s, pc, u, fd);
      }
    case Index(u) => UserIndexed(s, pc, u);
    case Find(u, name, job) => FindKept(s, u, name, job);
    case YieldOther(u, v, res) => HandleGiven(s, pc, v);
    case YieldUser(u) => HandleGiven(s, pc, u);
    case _ => NothingWritten(s, pc, s.clock);
  }

  lemma {:induction false} PairKept(env: Env, s: Server, pc: Pc)
    requires pc.Pair? && Alive(s, pc) && Named(s.d, s.logs, pc) && TwoOk(s.d, s.logs, pc)
    ensures NextOfTwo(env, s, pc).Move? || NextOfTwo(env, s, pc).Release?
    ensures PcOk(s.d, s.logs, NextOfTwo(env, s, pc).pc)
  {
    hide NameLess;
    NameLessTotal(s.d.users[pc.u].name, s.d.users[pc.v].name);
  }

  lemma {:induction false} CommitKept(env: Env, s: Server, pc: Pc)
    requires WorldOk(s.d, s.logs, s.clock) && pc.Commit? && Alive(s, pc) && Named(s.d, s.logs, pc) &&
             TwoOk(s.d, s.logs, pc)
    ensures Kept(s, pc, NextOfTwo(env, s, pc))
  {
    hide WorldKept, WorldOk, PutOne;
    if pc.puts == [] {
      NothingWritten(s, pc, s.clock);
    } else {
      assert PutOk(pc.puts[0]);
      PutWritten(s, pc, pc.u, pc.v, pc.puts[0]);
    }
  }

  lemma {:induction false} NextOfTwoKept(env: Env, s: Server, pc: Pc)
    requires WorldOk(s.d, s.logs, s.clock) && OfTwo(pc) && Alive(s, pc) && Named(s.d, s.logs, pc) &&
             PcOk(s.d, s.logs, pc)
    ensures Kept(s, pc, NextOfTwo(env, s, pc))
  {
    hide WorldKept, WorldOk, NameLess, OutcomeOf, PutsOf, PutOne, PutsOk;
    if pc.Commit? {
      CommitKept(env, s, pc);
    } else {
      NothingWritten(s, pc, s.clock);
      if pc.Seen? {
        OutcomeOk(env, pc.u, pc.v, s.d.users[pc.u].(state := pc.state), s.d.users[pc.v], pc.job);
      } else if pc.Pair? {
        hide TwoOk, PcOk;
        PairKept(env, s, pc);
      }
    }
  }

  lemma {:induction false} SetToKept(s: Server, pc: Pc)
    requires WorldOk(s.d, s.logs, s.clock) && pc.SetTo? && Alive(s, pc) && Named(s.d, s.logs, pc) &&
             PcOk(s.d, s.logs, pc)
    ensures var u := pc.u;
            Kept(s, pc, Write1(s, u, s.d.users[u].(state := pc.state),
              if pc.state == SecurelyConnected then s.logs[u].(secured := true) else s.logs[u], Finish(u, pc.res)))
  {
    assert UserOk(s.d, s.logs, s.clock, pc.u);
    hide WorldKept, WorldOk;
    StateWritten(s, pc, pc.u, pc.state, if pc.state == SecurelyConnected then s.logs[pc.u].(secured := true)
        else s.logs[pc.u]);
  }

  lemma {:induction false} RenameKept(s: Server, pc: Pc)
    requires WorldOk(s.d, s.logs, s.clock) && pc.Rename? && Alive(s, pc) && Named(s.d, s.logs, pc) &&
             PcOk(s.d, s.logs, pc)
    ensures var u := pc.u;
            Kept(s, pc, Write1(s, u, s.d.users[u].(name := pc.name), s.logs[u], List(Exists(u, pc.name), false)))
  {
    hide WorldKept, WorldOk;
    NameWritten(s, pc, pc.u, pc.name);
    assert s.logs[pc.u := s.logs[pc.u]] == s.logs;
  }

  lemma {:induction false} DecideKept(s: Server, pc: Pc)
    requires WorldOk(s.d, s.logs, s.clock) && pc.Decide? && Alive(s, pc) && Named(s.d, s.logs, pc) &&
             PcOk(s.d, s.logs, pc)
    ensures var u := pc.u;
            Kept(s, pc, Write1(s, u, s.d.users[u].(state := if pc.taken then Disconnected else Available),
              s.logs[u].(registered := true), if pc.taken then Finish(u, false) else List(Index(u), false)))
  {
    hide WorldKept, WorldOk;
    RegistrationWritten(s, pc, pc.u, if pc.taken then Disconnected else Available);
  }

  lemma {:induction false} FinishedKept(s: Server, pc: Pc)
    requires WorldOk(s.d, s.logs, s.clock) && pc.Finished? && Alive(s, pc) && Named(s.d, s.logs, pc)
    ensures var u := pc.u;
            Kept(s, pc, Write1(s, u, s.d.users[u].(state := Disconnected), s.logs[u], List(YieldUser(u), false)))
  {
    hide WorldKept, WorldOk;
    StateWritten(s, pc, pc.u, Disconnected, s.logs[pc.u]);
  }

  lemma {:induction false} WriteKept(env: Env, s: Server, t: Tid, start: Op)
    requires t < |s.threads| && WorldOk(s.d, s.logs, s.clock) && Indexed(s.d)
    requires Alive(s, s.threads[t]) && Named(s.d, s.logs, s.threads[t])
    requires PcOk(s.d, s.logs, s.threads[t]) && Writes(s.threads[t])
    ensures Kept(s, s.threads[t], Next(env, s, t, start))
  {
    hide WorldOk, Indexed, Kept, Write1, PcOk;
    var pc := s.threads[t];
    match pc
    case SetTo(_, _, _) => SetToKept(s, pc);
    case Rename(_, _) => RenameKept(s, pc);
    case Decide(_, _) => DecideKept(s, pc);
    case Finished(_, _) => FinishedKept(s, pc);
  }

  lemma {:induction false} NextKept(env: Env, s: Server, t: Tid, start: Op)
    requires t < |s.threads| && WorldOk(s.d, s.logs, s.clock) && Indexed(s.d)
    requires Alive(s, s.threads[t]) && Named(s.d, s.logs, s.threads[t]) && PcOk(s.d, s.logs, s.threads[t])
    ensures Kept(s, s.threads[t], Next(env, s, t, start))
  {
    hide WorldKept, WorldOk, Indexed, ListOp, Select, NextOfTwo, Write1, TwoOk;
    var pc := s.threads[t];
    if pc.List? && pc.entered {
      ListOpKept(s, pc.op);
    } else if OfTwo(pc) {
      NextOfTwoKept(env, s, pc);
    } else if Writes(pc) {
      WriteKept(env, s, t, start);
    } else {
      NothingWritten(s, pc, s.clock);
      hide PcOk;
      if pc.Dispatch? {
        DispatchKept(env, s, t, start);
      } else {
        RestKept(env, s, t, start);
      }
    }
  }

  lemma {:induction false} DispatchKept(env: Env, s: Server, t: Tid, start: Op)
    requires t < |s.threads| && WorldOk(s.d, s.logs, s.clock) && Indexed(s.d)
    requires Alive(s, s.threads[t]) && s.threads[t].Dispatch?
    ensures var a := Next(env, s, t, start); (a.Move? || a.Abandon?) && PcOk(s.d, s.logs, a.pc)
  {
    hide WorldOk, Indexed, ListOp, Select, NextOfTwo, Write1, TwoOk;
    var pc := s.threads[t];
    if !pc.e.Dropped? {
      SelectKept(env, s, pc.u, pc.e, pc.o);
    }
  }

  lemma {:induction false} RestKept(env: Env, s: Server, t: Tid, start: Op)
    requires t < |s.threads| && WorldOk(s.d, s.logs, s.clock) && Indexed(s.d)
    requires Alive(s, s.threads[t]) && Named(s.d, s.logs, s.threads[t]) && PcOk(s.d, s.logs, s.threads[t])
    requires !Inside(s.threads[t]) && !OfTwo(s.threads[t]) && !Writes(s.threads[t]) && !s.threads[t].Dispatch?
    ensures var a := Next(env, s, t, start);
            && (a.Move? || a.Acquire? || a.Release? || a.Enter?)
            && (Named(s.d, s.logs, a.pc) ==> PcOk(s.d, s.logs, a.pc))
  {
    hide WorldOk, Indexed, ListOp, Select, NextOfTwo, Write1, TwoOk;
  }

  // ----- Steps -----

  lemma {:induction false} PcsAfter(s: Server, t: Tid, a: Act, s': Server)
    requires t < |s.threads| && OwnersHold(s) && AllPcsOk(s) && AllAlive(s')
    requires s'.d == DirAfter(s, a) && s'.logs == LogsAfter(s, a) && s'.threads == s.threads[t := a.pc]
    requires Kept(s, s.threads[t], a) && forall r :: 0 <= r < |s'.threads| ==> Named(s'.d, s'.logs, s'.threads[r])
    ensures AllPcsOk(s')
  {
    hide Alive, Named, PcOk, WorldOk, KeepsUser, HoldsLock;
    forall r | 0 <= r < |s'.threads|
      ensures PcOk(s'.d, s'.logs, s'.threads[r])
    {
      assert Named(s'.d, s'.logs, s'.threads[r]);
      if r != t {
        assert Named(s.d, s.logs, s.threads[r]) && PcOk(s.d, s.logs, s.threads[r]);
        forall x: Uid | HoldsLock(s.threads[r], x)
          ensures !HoldsLock(s.threads[t], x)
        {
          assert s.owner[x] == r;
        }
        OtherStaysOk(s, s.threads[t], s'.d, s'.logs, s.threads[r]);
      }
    }
  }

  lemma {:induction false} AliveNamed(s: Server, pc: Pc)
    requires Alive(s, pc)
    ensures Named(s.d, s.logs, pc)
  {
  }

  lemma {:induction false} StepInv(env: Env, s: Server, t: Tid, start: Op)
    requires Inv(s) && t < |s.threads|
    ensures Inv(Perform(s, t, Next(env, s, t, start)))
  {
    hide Alive, Named, PcOk, RefsCount, OwnersHold, ListHeld, Indexed, Next, ServerInvariants.Fits, Balanced;
    var a := Next(env, s, t, start);
    assert Alive(s, s.threads[t]) && Named(s.d, s.logs, s.threads[t]) && PcOk(s.d, s.logs, s.threads[t]);
    NextFits(env, s, t, start);
    NextBalanced(env, s, t, start);
    NextKept(env, s, t, start);
    PerformLocks(s, t, a);
    PerformRefs(s, t, a);
    var s' := Perform(s, t, a);
    hide WorldOk;
    if s' != s {
      forall r | 0 <= r < |s'.threads|
        ensures Named(s'.d, s'.logs, s'.threads[r])
      {
        assert Alive(s', s'.threads[r]);
        AliveNamed(s', s'.threads[r]);
      }
      PcsAfter(s, t, a, s');
    }
  }

  /** Thread `t` steps, if the mutex that it takes is free. */
  ghost function Step(env: Env, s: Server, t: Tid, start: Op): (s': Server)
    requires Inv(s) && t < |s.threads|
    ensures Inv(s') && |s'.threads| == |s.threads|
  {
    StepInv(env, s, t, start);
    Perform(s, t, Next(env, s, t, start))
  }

  // ----- Runs -----

  /** Which thread steps, and with what it starts if it is idle. */
  datatype Turn = Turn(t: Tid, start: Op)

  ghost function Run(env: Env, s: Server, turns: seq<Turn>): (s': Server)
    requires Inv(s) && forall k :: 0 <= k < |turns| ==> turns[k].t < |s.threads|
    ensures Inv(s') && |s'.threads| == |s.threads|
    decreases |turns|
  {
    if turns == [] then s
    else
      assert turns[0].t < |s.threads|;
      Run(env, Step(env, s, turns[0].t, turns[0].start), turns[1..])
  }

  /** The main loop and `workers` workers, no users. */
  ghost function Initial(workers: nat): (s: Server)
    ensures Inv(s) && |s.threads| == workers + 1
  {
    var s := Server(Directory(map[], map[], map[]), map[], 0, map[], {}, None, seq(workers + 1, _ => Idle));
    InitialInv(s);
    s
  }

  lemma {:induction false} InitialInv(s: Server)
    requires s.d == Directory(map[], map[], map[]) && s.logs == map[] && s.owner == map[] && s.list == None
    requires forall t :: 0 <= t < |s.threads| ==> s.threads[t] == Idle
    ensures Inv(s)
  {
    assert Indexed(s.d);
  }
}
