// A worker that nobody disturbs does in its many steps what the handlers do in one.

module Undisturbed {
  import opened Bytes
  import opened Directory
  import opened Handlers
  import opened ServerMachine
  import opened ServerInvariants
  import opened ServerRuns
  import opened ServerTheorems

  /** All other threads are idle, and no mutex was left locked. */
  ghost predicate Quiet(s: Server, t: Tid) {
    t < |s.threads| && s.lost == {} && forall r :: 0 <= r < |s.threads| && r != t ==> s.threads[r] == Idle
  }

  /** `n` steps of thread `t` alone. */
  ghost function Alone(env: Env, s: Server, t: Tid, start: Op, n: nat): (s': Server)
    requires Inv(s) && t < |s.threads|
    ensures Inv(s') && |s'.threads| == |s.threads|
    decreases n
  {
    if n == 0 then s else Alone(env, Step(env, s, t, start), t, start, n - 1)
  }

  lemma {:induction false} AloneMore(env: Env, s: Server, t: Tid, start: Op, n: nat, m: nat)
    requires Inv(s) && t < |s.threads|
    ensures Alone(env, s, t, start, n + m) == Alone(env, Alone(env, s, t, start, n), t, start, m)
    decreases n
  {
    hide Inv, Step;
    if n > 0 {
      AloneMore(env, Step(env, s, t, start), t, start, n - 1, m);
    }
  }

  /** Steps of thread `t` alone lead from `s` to `s'`, where it stands at `pc` and the users are `d`. */
  ghost predicate Leads(env: Env, s: Server, t: Tid, start: Op, s': Server, d: Directory, pc: Pc) {
    && Inv(s) && Inv(s') && Quiet(s, t) && Quiet(s', t) && s'.d == d && s'.threads[t] == pc
    && exists n: nat :: s' == Alone(env, s, t, start, n)
  }

  lemma {:induction false} LeadsOn(env: Env, s: Server, t: Tid, start: Op, s1: Server, s2: Server,
    d1: Directory, pc1: Pc, d2: Directory, pc2: Pc)
    requires Leads(env, s, t, start, s1, d1, pc1) && Leads(env, s1, t, start, s2, d2, pc2)
    ensures Leads(env, s, t, start, s2, d2, pc2)
  {
    hide Inv;
    var n: nat :| s1 == Alone(env, s, t, start, n);
    var m: nat :| s2 == Alone(env, s1, t, start, m);
    AloneMore(env, s, t, start, n, m);
    assert s2 == Alone(env, s, t, start, n + m);
  }

  lemma {:induction false} NotOwned(s: Server, t: Tid, x: Uid)
    requires Inv(s) && Quiet(s, t) && WaitsFor(s.threads[t]) == Some(x)
    ensures x !in s.owner
  {
    if x in s.owner {
      OwnerIsThread(s, x);
      HeldBeforeAwaited(s, t, x, x);
      BeforeIrreflexive(s.d, s.logs, x);
    }
  }

  lemma {:induction false} ListFree(s: Server, t: Tid)
    requires Inv(s) && Quiet(s, t) && !Inside(s.threads[t])
    ensures s.list == None
  {
    if s.list.Some? {
      ListOwnerIsThread(s);
      assert false;
    }
  }

  lemma {:induction false} PerformFree(s: Server, t: Tid, a: Act)
    requires t < |s.threads| && Quiet(s, t) && (a.Acquire? ==> a.x !in s.owner) && (a.Enter? ==> s.list == None)
    requires !a.Abandon?
    ensures var s' := Perform(s, t, a);
            && Quiet(s', t) && s'.threads[t] == a.pc && s'.d == DirAfter(s, a) && s'.logs == LogsAfter(s, a)
            && s'.clock == ClockAfter(s, a)
  {
  }

  lemma {:induction false} AloneOnce(env: Env, s: Server, t: Tid, start: Op)
    requires Inv(s) && t < |s.threads|
    ensures exists n: nat :: Step(env, s, t, start) == Alone(env, s, t, start, n)
  {
    hide Inv, Step;
    assert Alone(env, Step(env, s, t, start), t, start, 0) == Step(env, s, t, start);
    assert Step(env, s, t, start) == Alone(env, s, t, start, 1);
  }

  /** Nothing keeps the thread from its next step. */
  lemma {:induction false} OneStep(env: Env, s: Server, t: Tid, start: Op) returns (s': Server)
    requires Inv(s) && Quiet(s, t) && !Next(env, s, t, start).Abandon?
    ensures var a := Next(env, s, t, start);
            Leads(env, s, t, start, s', DirAfter(s, a), a.pc) && s'.logs == LogsAfter(s, a) &&
                s'.clock == ClockAfter(s, a)
  {
    s' := Step(env, s, t, start);
    var a := Next(env, s, t, start);
    NextFits(env, s, t, start);
    hide Inv, Next, Perform, Alone, Quiet, SameLocks, HoldsLock;
    if a.Acquire? {
      NotOwned(s, t, a.x);
    }
    if a.Enter? {
      ListFree(s, t);
    }
    PerformFree(s, t, a);
    AloneOnce(env, s, t, start);
  }

  // ----- Calls of the list -----

  /** A method of the list, from its call to its return. */
  lemma {:induction false} CallList(env: Env, s: Server, t: Tid, start: Op, op: Op) returns (s': Server)
    requires Inv(s) && Quiet(s, t) && s.threads[t] == List(op, false)
    ensures Indexed(s.d) && Alive(s, List(op, true))
    ensures Leads(env, s, t, start, s', ListOp(s, op).d, ListOp(s, op).pc)
    ensures s'.logs == ListOp(s, op).logs
  {
    assert Indexed(s.d) && Alive(s, s.threads[t]);
    hide Select, NextOfTwo, ListOp, Quiet, Indexed, Leads;
    var s1 := OneStep(env, s, t, start);
    LeadsAt(env, s, t, start, s1, s.d, List(op, true));
    AliveHere(s1, t, s.d, List(op, true));
    SameListOp(s, s1, op);
    assert Next(env, s1, t, start) == ListOp(s1, op);
    hide Inv, Next;
    var s2 := OneStep(env, s1, t, start);
    LeadsOn(env, s, t, start, s1, s2, s.d, List(op, true), ListOp(s, op).d, ListOp(s, op).pc);
    s' := s2;
  }

  // ----- From a result to the next message -----

  /** `s` stands at `pc`, with these users, undisturbed. */
  ghost predicate At(s: Server, t: Tid, d: Directory, pc: Pc) {
    Inv(s) && Quiet(s, t) && s.d == d && s.threads[t] == pc
  }

  lemma {:induction false} AtStart(env: Env, s: Server, t: Tid, start: Op, d: Directory, pc: Pc)
    requires At(s, t, d, pc)
    ensures Leads(env, s, t, start, s, d, pc)
  {
    assert s == Alone(env, s, t, start, 0);
  }

  lemma {:induction false} LeadsAt(env: Env, s: Server, t: Tid, start: Op, s': Server, d: Directory, pc: Pc)
    requires Leads(env, s, t, start, s', d, pc)
    ensures At(s', t, d, pc)
  {
  }

  /** The next step of the thread leads to these users and this point. */
  ghost predicate Gives(env: Env, s: Server, t: Tid, start: Op, d: Directory, pc: Pc) {
    && Inv(s) && t < |s.threads| && !Next(env, s, t, start).Abandon?
    && DirAfter(s, Next(env, s, t, start)) == d && Next(env, s, t, start).pc == pc
  }

  /** One more step of the thread, after those that led from `s0` to `s`. */
  lemma {:induction false} Then(env: Env, s0: Server, s: Server, t: Tid, start: Op, d: Directory, pc: Pc,
    d': Directory, pc': Pc)
    returns (s': Server)
    requires Leads(env, s0, t, start, s, d, pc) && Gives(env, s, t, start, d', pc')
    ensures Leads(env, s0, t, start, s', d', pc') && At(s', t, d', pc')
  {
    hide Inv, Next, Quiet;
    s' := OneStep(env, s, t, start);
    LeadsOn(env, s0, t, start, s, s', d, pc, d', pc');
  }

  lemma {:induction false} ThenCall(env: Env, s0: Server, s: Server, t: Tid, start: Op, d: Directory,
    op: Op)
    returns (s': Server)
    requires Leads(env, s0, t, start, s, d, List(op, false))
    ensures Indexed(s.d) && Alive(s, List(op, true)) && s.d == d && ListOp(s, op).Exec?
    ensures Leads(env, s0, t, start, s', ListOp(s, op).d, ListOp(s, op).pc) &&
            At(s', t, ListOp(s, op).d, ListOp(s, op).pc)
  {
    hide Inv, ListOp;
    s' := CallList(env, s, t, start, op);
    ListOpFits(s, op);
    LeadsOn(env, s0, t, start, s, s', d, List(op, false), ListOp(s, op).d, ListOp(s, op).pc);
  }

  lemma {:induction false} AliveHere(s: Server, t: Tid, d: Directory, pc: Pc)
    requires At(s, t, d, pc)
    ensures Alive(s, pc) && Indexed(s.d) && s.d == d && t < |s.threads|
  {
  }

  lemma {:induction false} YieldUserCall(s: Server, u: Uid)
    requires Indexed(s.d) && Alive(s, List(YieldUser(u), true))
    ensures ListOp(s, YieldUser(u)).d == Yield(s.d, u) && ListOp(s, YieldUser(u)).pc == Idle
  {
    hide Indexed, Yield;
  }

  lemma {:induction false} FinishGives(env: Env, s: Server, t: Tid, start: Op, d: Directory, u: Uid, res: bool)
    requires At(s, t, d, Finish(u, res))
    ensures Gives(env, s, t, start, d, Finished(u, res))
  {
    AliveHere(s, t, d, Finish(u, res));
    hide ListOp, NextOfTwo, Select, Inv, Quiet, Indexed;
  }

  lemma {:induction false} FinishedGives(env: Env, s: Server, t: Tid, start: Op, d: Directory, u: Uid, res: bool)
    requires At(s, t, d, Finished(u, res)) && u in d.users
    ensures Gives(env, s, t, start, if res then d else SetState(d, u, Disconnected), List(YieldUser(u), false))
  {
    AliveHere(s, t, d, Finished(u, res));
    hide ListOp, NextOfTwo, Select, Inv, Quiet, Indexed;
  }

  /** The sender's mutex is released, the sender disconnected if the result is false, and its handle given back. */
  lemma {:induction false} Ending(env: Env, s0: Server, s: Server, t: Tid, start: Op, d: Directory, u: Uid, res: bool)
    returns (s': Server)
    requires Leads(env, s0, t, start, s, d, Finish(u, res))
    ensures u in d.users && d.users[u].refs > 0
    ensures Leads(env, s0, t, start, s', Yield(if res then d else SetState(d, u, Disconnected), u), Idle)
  {
    LeadsAt(env, s0, t, start, s, d, Finish(u, res));
    AliveHere(s, t, d, Finish(u, res));
    hide Leads, At, Gives, Yield, Indexed;
    var d1 := if res then d else SetState(d, u, Disconnected);
    FinishGives(env, s, t, start, d, u, res);
    var s1 := Then(env, s0, s, t, start, d, Finish(u, res), d, Finished(u, res));
    FinishedGives(env, s1, t, start, d, u, res);
    var s2 := Then(env, s0, s1, t, start, d, Finished(u, res), d1, List(YieldUser(u), false));
    s' := ThenCall(env, s0, s2, t, start, d1, YieldUser(u));
    YieldUserCall(s2, u);
  }

  // ----- Two users -----

  /** doubleLock and doubleUnlock let go of `u` first. */
  predicate Swaps(d: Directory, u: Uid, v: Uid)
    requires u in d.users && v in d.users
  {
    NameLess(d.users[v].name, d.users[u].name)
  }

  lemma {:induction false} TwoAlive(s: Server, t: Tid, d: Directory, pc: Pc)
    requires At(s, t, d, pc) && OfTwo(pc)
    ensures pc.u in d.users && pc.v in d.users && pc.u != pc.v && d.users[pc.v].refs > 0
  {
    AliveHere(s, t, d, pc);
  }

  /** What is to be written, once both states have been read. */
  function Decided(env: Env, d: Directory, pc: Pc): Pc
    requires pc.Seen? && pc.u in d.users && pc.v in d.users
  {
    var out := OutcomeOf(env, pc.u, pc.v, d.users[pc.u].(state := pc.state), d.users[pc.v], pc.job);
    Commit(pc.u, pc.v, PutsOf(out), out.res)
  }

  /** One step on the way to or from two locked users, when nobody disturbs it. */
  function AfterOne(env: Env, d: Directory, pc: Pc): (Directory, Pc)
    requires OfTwo(pc) && pc.u in d.users && pc.v in d.users
  {
    match pc
    case Pair(u, v, job) => (d, if Swaps(d, u, v) then WaitFirst(u, v, job) else WaitOther(u, v, job))
    case WaitOther(u, v, job) => (d, Both(u, v, job))
    case WaitFirst(u, v, job) => (d, WaitSecond(u, v, job))
    case WaitSecond(u, v, job) => (d, Both(u, v, job))
    case Both(u, v, job) => (d, Seen(u, v, job, d.users[u].state))
    case Seen(_, _, _, _) => (d, Decided(env, d, pc))
    case Commit(u, v, puts, res) =>
      if puts == [] then (d, Unpair(u, v, res)) else (PutOne(d, u, v, puts[0]), Commit(u, v, puts[1..], res))
    case Unpair(u, v, res) => (d, if Swaps(d, u, v) then Unpair2(u, v, res) else List(YieldOther(u, v, res), false))
    case Unpair2(u, v, res) => (d, Relock(u, v, res))
    case Relock(u, v, res) => (d, List(YieldOther(u, v, res), false))
  }

  lemma {:induction false} SameAfterOne(env: Env, s: Server, pc: Pc)
    requires OfTwo(pc) && Alive(s, pc)
    ensures var a := NextOfTwo(env, s, pc); (DirAfter(s, a), a.pc) == AfterOne(env, s.d, pc)
  {
    hide NameLess, OutcomeOf, PutsOf, PutOne;
  }

  lemma {:induction false} TwoNext(env: Env, s: Server, t: Tid, start: Op, d: Directory, pc: Pc)
    requires At(s, t, d, pc) && OfTwo(pc)
    ensures s.d == d && Alive(s, pc)
    ensures Gives(env, s, t, start, DirAfter(s, NextOfTwo(env, s, pc)), NextOfTwo(env, s, pc).pc)
  {
    AliveHere(s, t, d, pc);
    hide ListOp, Select, NextOfTwo, Alive, Quiet, Indexed;
  }

  lemma {:induction false} ThenOfTwo(env: Env, s0: Server, s: Server, t: Tid, start: Op,
    d: Directory, pc: Pc, d': Directory, pc': Pc) returns (s': Server)
    requires Leads(env, s0, t, start, s, d, pc) && OfTwo(pc)
    requires pc.u in d.users && pc.v in d.users ==> AfterOne(env, d, pc) == (d', pc')
    ensures Leads(env, s0, t, start, s', d', pc')
  {
    hide Leads, At, Gives, Alive, AfterOne, NextOfTwo;
    LeadsAt(env, s0, t, start, s, d, pc);
    TwoAlive(s, t, d, pc);
    TwoNext(env, s, t, start, d, pc);
    SameAfterOne(env, s, pc);
    s' := Then(env, s0, s, t, start, d, pc, d', pc');
  }

  lemma {:induction false} ToBoth(env: Env, s0: Server, s: Server, t: Tid, start: Op, d: Directory, u: Uid, v: Uid,
    job: Job)
    returns (s': Server)
    requires Leads(env, s0, t, start, s, d, Pair(u, v, job))
    ensures u in d.users && v in d.users && u != v && d.users[v].refs > 0
    ensures Leads(env, s0, t, start, s', d, Both(u, v, job))
  {
    LeadsAt(env, s0, t, start, s, d, Pair(u, v, job));
    TwoAlive(s, t, d, Pair(u, v, job));
    hide Leads, At, Swaps;
    if Swaps(d, u, v) {
      var s1 := ThenOfTwo(env, s0, s, t, start, d, Pair(u, v, job), d, WaitFirst(u, v, job));
      var s2 := ThenOfTwo(env, s0, s1, t, start, d, WaitFirst(u, v, job), d, WaitSecond(u, v, job));
      s' := ThenOfTwo(env, s0, s2, t, start, d, WaitSecond(u, v, job), d, Both(u, v, job));
    } else {
      var s1 := ThenOfTwo(env, s0, s, t, start, d, Pair(u, v, job), d, WaitOther(u, v, job));
      s' := ThenOfTwo(env, s0, s1, t, start, d, WaitOther(u, v, job), d, Both(u, v, job));
    }
  }

  lemma {:induction false} AfterUnpair(env: Env, d: Directory, u: Uid, v: Uid, res: bool)
    requires u in d.users && v in d.users
    ensures AfterOne(env, d, Unpair(u, v, res)) ==
            (d, if Swaps(d, u, v) then Unpair2(u, v, res) else List(YieldOther(u, v, res), false))
    ensures AfterOne(env, d, Unpair2(u, v, res)) == (d, Relock(u, v, res))
    ensures AfterOne(env, d, Relock(u, v, res)) == (d, List(YieldOther(u, v, res), false))
  {
  }

  lemma {:induction false} FromBoth(env: Env, s0: Server, s: Server, t: Tid, start: Op, d: Directory, u: Uid, v: Uid,
    res: bool)
    returns (s': Server)
    requires Leads(env, s0, t, start, s, d, Unpair(u, v, res))
    ensures Leads(env, s0, t, start, s', d, List(YieldOther(u, v, res), false))
  {
    LeadsAt(env, s0, t, start, s, d, Unpair(u, v, res));
    TwoAlive(s, t, d, Unpair(u, v, res));
    hide Leads, At, Swaps, AfterOne;
    AfterUnpair(env, d, u, v, res);
    if Swaps(d, u, v) {
      var s1 := ThenOfTwo(env, s0, s, t, start, d, Unpair(u, v, res), d, Unpair2(u, v, res));
      var s2 := ThenOfTwo(env, s0, s1, t, start, d, Unpair2(u, v, res), d, Relock(u, v, res));
      s' := ThenOfTwo(env, s0, s2, t, start, d, Relock(u, v, res), d, List(YieldOther(u, v, res), false));
    } else {
      s' := ThenOfTwo(env, s0, s, t, start, d, Unpair(u, v, res), d, List(YieldOther(u, v, res), false));
    }
  }

  lemma {:induction false} YieldOtherCall(s: Server, u: Uid, v: Uid, res: bool)
    requires Indexed(s.d) && Alive(s, List(YieldOther(u, v, res), true))
    ensures v in s.d.users && s.d.users[v].refs > 0
    ensures ListOp(s, YieldOther(u, v, res)).d == Yield(s.d, v) && ListOp(s, YieldOther(u, v, res)).pc == Finish(u, res)
  {
    hide Indexed, Yield;
  }

  function PutAll(d: Directory, u: Uid, v: Uid, puts: seq<Put>): (r: Directory)
    requires u in d.users && v in d.users
    ensures r.users.Keys == d.users.Keys
    decreases |puts|
  {
    if puts == [] then d else PutAll(PutOne(d, u, v, puts[0]), u, v, puts[1..])
  }

  lemma {:induction false} PutTwice(d: Directory, u: Uid, v: Uid, puts: seq<Put>, more: seq<Put>)
    requires u in d.users && v in d.users
    ensures PutAll(d, u, v, puts + more) == PutAll(PutAll(d, u, v, puts), u, v, more)
    decreases |puts|
  {
    hide PutOne;
    if puts == [] {
      assert puts + more == more;
    } else {
      assert (puts + more)[1..] == puts[1..] + more;
      PutTwice(PutOne(d, u, v, puts[0]), u, v, puts[1..], more);
    }
  }

  /** The writes to one user make the change. */
  lemma {:induction false} PutsChange(d: Directory, u: Uid, v: Uid, other: bool, c: Change)
    requires u in d.users && v in d.users
    ensures PutAll(d, u, v, Puts(other, c)) == ChangeOne(d, if other then v else u, c)
  {
    var x := if other then v else u;
    var ps := Puts(other, c);
    if c.Keep? {
      assert d.users[x := d.users[x]] == d.users;
    } else if c.To? {
      assert ps[1..] == [];
    } else {
      assert ps[1..] == [PutOpponent(other, c.opponent)] && ps[1..][1..] == [];
      var d1 := PutOne(d, u, v, ps[0]);
      var d2 := PutOne(d1, u, v, ps[1]);
      assert PutAll(d1, u, v, ps[1..]) == d2;
      assert d2.users == ChangeOne(d, x, c).users;
    }
  }

  /** All writes of a handler, one by one, make both changes. */
  lemma {:induction false} PutsChangeBoth(d: Directory, u: Uid, v: Uid, out: Outcome)
    requires u in d.users && v in d.users && u != v
    ensures PutAll(d, u, v, PutsOf(out)) == ChangeBoth(d, u, v, out)
  {
    hide PutAll, Puts, Changed;
    var us, vs := Puts(false, out.u), Puts(true, out.v);
    if out.u == To(Disconnected) && out.v == To(Disconnected) {
      PutTwice(d, u, v, vs, us);
      PutsChange(d, u, v, true, out.v);
      PutsChange(ChangeOne(d, v, out.v), u, v, false, out.u);
      assert ChangeOne(ChangeOne(d, v, out.v), u, out.u).users == ChangeBoth(d, u, v, out).users;
    } else {
      PutTwice(d, u, v, us, vs);
      PutsChange(d, u, v, false, out.u);
      PutsChange(ChangeOne(d, u, out.u), u, v, true, out.v);
      assert ChangeOne(ChangeOne(d, u, out.u), v, out.v).users == ChangeBoth(d, u, v, out).users;
    }
  }

  lemma {:induction false} Committing(env: Env, s0: Server, s: Server, t: Tid, start: Op, d: Directory, u: Uid, v: Uid,
    puts: seq<Put>, res: bool) returns (s': Server)
    requires Leads(env, s0, t, start, s, d, Commit(u, v, puts, res)) && u in d.users && v in d.users
    ensures Leads(env, s0, t, start, s', PutAll(d, u, v, puts), Unpair(u, v, res))
    decreases |puts|
  {
    hide Leads, PutOne;
    if puts == [] {
      s' := ThenOfTwo(env, s0, s, t, start, d, Commit(u, v, puts, res), d, Unpair(u, v, res));
    } else {
      var d' := PutOne(d, u, v, puts[0]);
      var s1 := ThenOfTwo(env, s0, s, t, start, d, Commit(u, v, puts, res), d', Commit(u, v, puts[1..], res));
      s' := Committing(env, s0, s1, t, start, d', u, v, puts[1..], res);
    }
  }

  /** Both users are locked, in whatever order, written to, and unlocked, and the other's handle is given back. */
  lemma {:induction false} Together(env: Env, s0: Server, s: Server, t: Tid, start: Op, d: Directory, u: Uid, v: Uid,
    job: Job)
    returns (s': Server)
    requires Leads(env, s0, t, start, s, d, Pair(u, v, job))
    ensures u in d.users && v in d.users && u != v && d.users[v].refs > 0
    ensures var out := OutcomeOf(env, u, v, d.users[u], d.users[v], job);
            Leads(env, s0, t, start, s', Yield(ChangeBoth(d, u, v, out), v), Finish(u, out.res))
  {
    hide Leads, OutcomeOf, Yield, Indexed, PutAll, PutsOf, ChangeBoth;
    var s1 := ToBoth(env, s0, s, t, start, d, u, v, job);
    var out := OutcomeOf(env, u, v, d.users[u], d.users[v], job);
    var seen := Seen(u, v, job, d.users[u].state);
    var s2 := ThenOfTwo(env, s0, s1, t, start, d, Both(u, v, job), d, seen);
    assert Decided(env, d, seen) == Commit(u, v, PutsOf(out), out.res);
    s2 := ThenOfTwo(env, s0, s2, t, start, d, seen, d, Commit(u, v, PutsOf(out), out.res));
    var d' := ChangeBoth(d, u, v, out);
    PutsChangeBoth(d, u, v, out);
    var s3 := Committing(env, s0, s2, t, start, d, u, v, PutsOf(out), out.res);
    var s4 := FromBoth(env, s0, s3, t, start, d', u, v, out.res);
    s' := ThenCall(env, s0, s4, t, start, d', YieldOther(u, v, out.res));
    YieldOtherCall(s4, u, v, out.res);
  }

  // ----- One message -----

  lemma {:induction false} DispatchGives(env: Env, s: Server, t: Tid, start: Op, d: Directory, u: Uid, e: Event,
    o: Oracle)
    requires At(s, t, d, Dispatch(u, e, o)) && !e.Dropped?
    ensures u in d.users && Gives(env, s, t, start, d, Select(env, d.users[u], u, e, o))
  {
    AliveHere(s, t, d, Dispatch(u, e, o));
    hide ListOp, Select, NextOfTwo, Inv, Quiet, Indexed;
  }

  lemma {:induction false} SoloGives(env: Env, s: Server, t: Tid, start: Op, d: Directory, pc: Pc)
    requires At(s, t, d, pc) && (pc.Lock? || pc.SetTo?)
    ensures pc.u in d.users
    ensures pc.Lock? ==> Gives(env, s, t, start, d, Dispatch(pc.u, pc.e, pc.o))
    ensures pc.SetTo? ==> Gives(env, s, t, start, SetState(d, pc.u, pc.state), Finish(pc.u, pc.res))
  {
    AliveHere(s, t, d, pc);
    hide ListOp, Select, NextOfTwo;
  }

  lemma {:induction false} RegisterGives(env: Env, s: Server, t: Tid, start: Op, d: Directory, pc: Pc)
    requires At(s, t, d, pc) && (pc.Rename? || pc.Decide?)
    ensures pc.u in d.users
    ensures pc.Rename? ==> Gives(env, s, t, start, d.(users := d.users[pc.u := d.users[pc.u].(name := pc.name)]),
              List(Exists(pc.u, pc.name), false))
    ensures pc.Decide? ==> Gives(env, s, t, start, SetState(d, pc.u, if pc.taken then Disconnected else Available),
              if pc.taken then Finish(pc.u, false) else List(Index(pc.u), false))
  {
    AliveHere(s, t, d, pc);
    hide ListOp, Select, NextOfTwo;
  }

  /** A state is written and the handler is done. */
  lemma {:induction false} ThenSet(env: Env, s0: Server, s: Server, t: Tid, start: Op, d: Directory, u: Uid,
    state: UserState, res: bool) returns (s': Server)
    requires Leads(env, s0, t, start, s, d, SetTo(u, state, res))
    ensures u in d.users && Leads(env, s0, t, start, s', SetState(d, u, state), Finish(u, res))
  {
    LeadsAt(env, s0, t, start, s, d, SetTo(u, state, res));
    hide Leads, At, Gives;
    SoloGives(env, s, t, start, d, SetTo(u, state, res));
    s' := Then(env, s0, s, t, start, d, SetTo(u, state, res), SetState(d, u, state), Finish(u, res));
  }

  lemma {:induction false} FindCall(s: Server, u: Uid, name: Name, job: Job)
    requires Indexed(s.d) && Alive(s, List(Find(u, name, job), true))
    ensures var (d', found) := GetByName(s.d, name);
            ListOp(s, Find(u, name, job)).d == d' &&
            ListOp(s, Find(u, name, job)).pc ==
              if found == None || found == Some(u) then NotFound(u, job) else Pair(u, found.value, job)
  {
    assert name in s.d.byName ==> s.d.byName[name] in s.d.users;
    hide Indexed, AddRef;
  }

  /** What handleChallengeMessage and handleChallengeResponseMessage do. */
  ghost function Found(env: Env, d: Directory, u: Uid, job: Job): (Directory, bool)
    requires Indexed(d) && u in d.users
  {
    match job
    case Challenging(n, o) =>
      var r := HandleChallenge(d, u, n, o);
      (r.d, r.res)
    case Responding(accept, port, o) =>
      var r := HandleResponse(env, d, u, accept, port, o);
      (r.d, r.res)
  }

  lemma {:induction false} FoundTwo(env: Env, d: Directory, u: Uid, name: Name, job: Job)
    requires Indexed(d) && u in d.users && name in d.byName && d.byName[name] != u
    requires if job.Challenging? then job.name == name else d.users[u].opponent == name
    ensures var d', v := GetByName(d, name).0, d.byName[name];
            && v in d'.users && u in d'.users && d'.users[v].refs > 0
            && var out := OutcomeOf(env, u, v, d'.users[u], d'.users[v], job);
               Found(env, d, u, job) == (Yield(ChangeBoth(d', u, v, out), v), out.res)
  {
    hide ChallengeBoth, RespondBoth, Yield, FdsDiffer;
  }

  lemma {:induction false} FoundNone(env: Env, d: Directory, u: Uid, name: Name, job: Job)
    requires Indexed(d) && u in d.users && (name !in d.byName || d.byName[name] == u)
    requires if job.Challenging? then job.name == name else d.users[u].opponent == name
    ensures var d' := GetByName(d, name).0;
            && u in d'.users
            && Found(env, d, u, job) ==
                 if job.Challenging? then (d', job.o.Ok(0)) else (SetState(d', u, Available), job.o.Ok(0))
  {
    hide FdsDiffer;
  }

  /** The other user is looked up by name, and if there is one, both are locked and written to. */
  lemma {:induction false} Finding(env: Env, s0: Server, s: Server, t: Tid, start: Op, d: Directory, u: Uid,
    name: Name, job: Job)
    returns (s': Server)
    requires Leads(env, s0, t, start, s, d, List(Find(u, name, job), false)) && Indexed(d) && u in d.users
    requires if job.Challenging? then job.name == name else d.users[u].opponent == name
    ensures Leads(env, s0, t, start, s', Found(env, d, u, job).0, Finish(u, Found(env, d, u, job).1))
  {
    var d' := GetByName(d, name).0;
    hide Leads, At, Indexed, Found, OutcomeOf, Yield, ChangeBoth, SetState;
    var s1 := ThenCall(env, s0, s, t, start, d, Find(u, name, job));
    FindCall(s, u, name, job);
    if name !in d.byName || d.byName[name] == u {
      FoundNone(env, d, u, name, job);
      if job.Challenging? {
        s' := s1;
      } else {
        s' := ThenSet(env, s0, s1, t, start, d', u, Available, job.o.Ok(0));
      }
    } else {
      FoundTwo(env, d, u, name, job);
      s' := Together(env, s0, s1, t, start, d', u, d.byName[name], job);
    }
  }

  lemma {:induction false} ExistsCall(s: Server, u: Uid, name: Name)
    requires Indexed(s.d) && Alive(s, List(Exists(u, name), true))
    ensures ListOp(s, Exists(u, name)).d == s.d && ListOp(s, Exists(u, name)).pc == Decide(u, name in s.d.byName)
  {
    hide Indexed;
  }

  lemma {:induction false} IndexCall(s: Server, u: Uid)
    requires Indexed(s.d) && Alive(s, List(Index(u), true))
    ensures u in s.d.users && ListOp(s, Index(u)).d == Add(s.d, u).0 && ListOp(s, Index(u)).pc == Finish(u, true)
  {
    hide Indexed, Add;
  }

  lemma {:induction false} Registering(env: Env, s0: Server, s: Server, t: Tid, start: Op, d: Directory, u: Uid,
    name: Name)
    returns (s': Server)
    requires Leads(env, s0, t, start, s, d, Rename(u, name)) && u in d.users && name != env.ownName
    ensures var r := HandleRegister(env, d, u, name); Leads(env, s0, t, start, s', r.d, Finish(u, r.res))
  {
    LeadsAt(env, s0, t, start, s, d, Rename(u, name));
    RegisterGives(env, s, t, start, d, Rename(u, name));
    hide Leads, At, Gives, Indexed, Add;
    var named := d.(users := d.users[u := d.users[u].(name := name)]);
    var s1 := Then(env, s0, s, t, start, d, Rename(u, name), named, List(Exists(u, name), false));
    var s2 := ThenCall(env, s0, s1, t, start, named, Exists(u, name));
    ExistsCall(s1, u, name);
    var taken := name in named.byName;
    RegisterGives(env, s2, t, start, named, Decide(u, taken));
    var decided := SetState(named, u, if taken then Disconnected else Available);
    var pc := if taken then Finish(u, false) else List(Index(u), false);
    var s3 := Then(env, s0, s2, t, start, named, Decide(u, taken), decided, pc);
    if taken {
      s' := s3;
    } else {
      s' := ThenCall(env, s0, s3, t, start, decided, Index(u));
      IndexCall(s3, u);
    }
  }

  lemma {:induction false} ListUsersCall(s: Server, u: Uid, ok: bool)
    requires Indexed(s.d) && Alive(s, List(ListUsers(u, ok), true))
    ensures ListOp(s, ListUsers(u, ok)).d == s.d && ListOp(s, ListUsers(u, ok)).pc == Finish(u, ok)
  {
    hide Indexed;
  }

  /** The handler that the state selects comes to the result that it comes to in one step. */
  lemma {:induction false} Handling(env: Env, s0: Server, s: Server, t: Tid, start: Op, d: Directory, u: Uid, e: Event,
    o: Oracle)
    returns (s': Server)
    requires Leads(env, s0, t, start, s, d, Dispatch(u, e, o)) && Indexed(d) && u in d.users && !e.Dropped?
    ensures var r := Handle(env, d, u, e, o); Leads(env, s0, t, start, s', r.d, Finish(u, r.res))
  {
    LeadsAt(env, s0, t, start, s, d, Dispatch(u, e, o));
    hide Leads, At, Gives, Indexed, Select, Handle;
    DispatchGives(env, s, t, start, d, u, e, o);
    var pc := Select(env, d.users[u], u, e, o);
    var s1 := Then(env, s0, s, t, start, d, Dispatch(u, e, o), d, pc);
    Selected(env, d, u, e, o);
    if pc.SetTo? {
      s' := ThenSet(env, s0, s1, t, start, d, u, pc.state, pc.res);
    } else if pc.Rename? {
      s' := Registering(env, s0, s1, t, start, d, u, pc.name);
    } else if pc.List? && pc.op.Find? {
      s' := Finding(env, s0, s1, t, start, d, u, pc.op.name, pc.op.job);
    } else if pc.List? {
      s' := ThenCall(env, s0, s1, t, start, d, pc.op);
      ListUsersCall(s1, u, o.Ok(0));
    } else {
      s' := s1;
    }
  }

  /** What the selected point leads to is what the handler does. */
  lemma {:induction false} Selected(env: Env, d: Directory, u: Uid, e: Event, o: Oracle)
    requires Indexed(d) && u in d.users && !e.Dropped?
    ensures var pc, r := Select(env, d.users[u], u, e, o), Handle(env, d, u, e, o);
            if pc.SetTo? then pc.u == u && r.d == SetState(d, u, pc.state) && r.res == pc.res
            else if pc.Rename? then pc.u == u && pc.name != env.ownName && r == HandleRegister(env, d, u, pc.name)
            else if pc.List? && pc.op.Find? then
              && pc == List(Find(u, pc.op.name, pc.op.job), false)
              && (if pc.op.job.Challenging? then pc.op.job.name == pc.op.name else d.users[u].opponent == pc.op.name)
              && (r.d, r.res) == Found(env, d, u, pc.op.job)
            else if pc.List? then pc == List(ListUsers(u, o.Ok(0)), false) && r.d == d && r.res == o.Ok(0)
            else pc == Finish(u, r.res) && r.d == d
  {
    hide Indexed, HandleChallenge, HandleResponse, Listing.Listed, Listing.Offered;
    if d.users[u].state == SecurelyConnected && e.Register? && e.name == env.ownName {
    } else {
      hide HandleRegister;
    }
  }

  lemma {:induction false} FetchCall(s: Server, fd: int, e: Event, o: Oracle)
    requires Indexed(s.d) && Alive(s, List(Fetch(fd, e, o), true))
    ensures var (d', found) := GetByFd(s.d, fd);
            && ListOp(s, Fetch(fd, e, o)).d == d'
            && ListOp(s, Fetch(fd, e, o)).pc == if found == None then Idle else Lock(found.value, e, o)
  {
    assert fd in s.d.byFd ==> s.d.byFd[fd] in s.d.users;
    hide Indexed, AddRef;
  }

  lemma {:induction false} StartGives(env: Env, s: Server, t: Tid, d: Directory, fd: int, e: Event, o: Oracle)
    requires At(s, t, d, Idle) && t > 0
    ensures Gives(env, s, t, Fetch(fd, e, o), d, List(Fetch(fd, e, o), false))
  {
    AliveHere(s, t, d, Idle);
    hide ListOp, Select, NextOfTwo;
  }

  /** A worker that nobody disturbs takes a message that is not dropped, in some number of steps of its own, to exactly
      the directory that one round of Handlers.Work leaves, and is idle again. */
  lemma {:induction false} WorkerIsAtomic(env: Env, s: Server, t: Tid, fd: int, e: Event,
    o: Oracle)
    returns (s': Server)
    requires Inv(s) && Quiet(s, t) && t > 0 && s.threads[t] == Idle && !e.Dropped?
    ensures Indexed(s.d) && Leads(env, s, t, Fetch(fd, e, o), s', Work(env, s.d, fd, e, o).0, Idle)
  {
    var start, d := Fetch(fd, e, o), s.d;
    AtStart(env, s, t, start, d, Idle);
    StartGives(env, s, t, d, fd, e, o);
    AliveHere(s, t, d, Idle);
    GetKeeps(d, [], fd);
    hide Leads, At, Gives, Indexed, Inv, Handle, Yield;
    var s1 := Then(env, s, s, t, start, d, Idle, d, List(start, false));
    var s2 := ThenCall(env, s, s1, t, start, d, start);
    FetchCall(s1, fd, e, o);
    var (d0, found) := GetByFd(d, fd);
    if found == None {
      s' := s2;
    } else {
      var u := found.value;
      SoloGives(env, s2, t, start, d0, Lock(u, e, o));
      var s3 := Then(env, s, s2, t, start, d0, Lock(u, e, o), d0, Dispatch(u, e, o));
      var s4 := Handling(env, s, s3, t, start, d0, u, e, o);
      var r := Handle(env, d0, u, e, o);
      HandleHolds(env, d0, u, e, o);
      s' := Ending(env, s, s4, t, start, r.d, u, r.res);
    }
  }
}
