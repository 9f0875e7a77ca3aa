// What every step of every thread keeps.

module ServerInvariants {
  import opened Bytes
  import opened Directory
  import opened Handlers
  import opened ServerMachine

  // ----- Mutexes -----

  predicate Inside(pc: Pc) {
    pc.List? && pc.entered
  }

  /** Mutual exclusion: owners are exactly the threads that hold. */
  ghost predicate OwnersHold(s: Server) {
    && (forall x :: x in s.owner ==> s.owner[x] < |s.threads| && HoldsLock(s.threads[s.owner[x]], x))
    && (forall t, x :: 0 <= t < |s.threads| && HoldsLock(s.threads[t], x) ==> x in s.owner && s.owner[x] == t)
  }

  ghost predicate ListHeld(s: Server) {
    && (s.list.Some? ==> s.list.value < |s.threads| && Inside(s.threads[s.list.value]))
    && (forall t :: 0 <= t < |s.threads| && Inside(s.threads[t]) ==> s.list == Some(t))
  }

  ghost predicate SameLocks(pc: Pc, pc': Pc) {
    forall x :: HoldsLock(pc', x) <==> HoldsLock(pc, x)
  }

  /** An act takes and releases what it says, and nothing else. */
  ghost predicate Fits(pc: Pc, a: Act) {
    match a
    case Move(pc') => !Inside(pc) && !Inside(pc') && SameLocks(pc, pc')
    case Write(_, _, pc') => !Inside(pc) && !Inside(pc') && SameLocks(pc, pc')
    case Acquire(x, pc') =>
      && WaitsFor(pc) == Some(x) && !Inside(pc) && !Inside(pc')
      && forall y :: HoldsLock(pc', y) <==> HoldsLock(pc, y) || y == x
    case Abandon(x, pc') =>
      HoldsLock(pc, x) && !Inside(pc) && !Inside(pc') && forall y :: HoldsLock(pc', y) <==> HoldsLock(pc, y) && y != x
    case Release(x, pc') =>
      HoldsLock(pc, x) && !Inside(pc) && !Inside(pc') && forall y :: HoldsLock(pc', y) <==> HoldsLock(pc, y) && y != x
    case Enter(pc') => pc.List? && !Inside(pc) && Inside(pc') && SameLocks(pc, pc')
    case Exec(_, _, _, pc') => Inside(pc) && !Inside(pc') && SameLocks(pc, pc')
  }

  lemma {:induction false} SelectFits(env: Env, user: User, u: Uid, e: Event, o: Oracle)
    requires !e.Dropped?
    ensures var pc := Select(env, user, u, e, o);
            !Inside(pc) && User1(pc) == Some(u) && User2(pc) == None && SameLocks(Dispatch(u, e, o), pc)
  {
  }

  lemma {:induction false} ListOpFits(s: Server, op: Op)
    requires Indexed(s.d) && Alive(s, List(op, true))
    ensures ListOp(s, op).Exec? && Fits(List(op, true), ListOp(s, op))
  {
    hide Indexed;
  }

  /** Where the other mutexes and the other threads stand makes no difference. */
  lemma {:induction false} SameListOp(s: Server, s1: Server, op: Op)
    requires Indexed(s.d) && Alive(s, List(op, true)) && s1.d == s.d && s1.logs == s.logs && s1.clock == s.clock
    ensures Alive(s1, List(op, true)) && ListOp(s1, op) == ListOp(s, op) && ListOp(s, op).Exec?
  {
    hide Indexed;
  }

  lemma {:induction false} NextOfTwoFits(env: Env, s: Server, pc: Pc)
    requires OfTwo(pc) && Alive(s, pc)
    ensures Fits(pc, NextOfTwo(env, s, pc))
  {
    hide NameLess, OutcomeOf, PutOne, PutsOf;
  }

  /** A thread that names one user only holds that user's mutex or none. */
  lemma {:induction false} SoloLocks(pc: Pc, x: Uid)
    requires !OfTwo(pc)
    ensures HoldsLock(pc, x) <==> User1(pc) == Some(x) && HoldsFirst(pc)
  {
  }

  lemma {:induction false} NextFits(env: Env, s: Server, t: Tid, start: Op)
    requires t < |s.threads| && Indexed(s.d) && Alive(s, s.threads[t])
    ensures Fits(s.threads[t], Next(env, s, t, start))
  {
    hide Indexed, ListOp, Select, NextOfTwo, HoldsLock;
    var pc, a := s.threads[t], Next(env, s, t, start);
    if pc.List? && pc.entered {
      ListOpFits(s, pc.op);
    } else if pc.Dispatch? && !pc.e.Dropped? {
      SelectFits(env, s.d.users[pc.u], pc.u, pc.e, pc.o);
    } else if OfTwo(pc) {
      NextOfTwoFits(env, s, pc);
    } else {
      forall x: Uid
        ensures HoldsLock(pc, x) <==> User1(pc) == Some(x) && HoldsFirst(pc)
        ensures HoldsLock(a.pc, x) <==> User1(a.pc) == Some(x) && HoldsFirst(a.pc)
      {
        SoloLocks(pc, x);
        SoloLocks(a.pc, x);
      }
    }
  }

  lemma {:induction false} OwnerStillHolds(s: Server, t: Tid, a: Act, x: Uid)
    requires t < |s.threads| && OwnersHold(s) && Fits(s.threads[t], a) && x in Perform(s, t, a).owner
    ensures var s' := Perform(s, t, a); s'.owner[x] < |s'.threads| && HoldsLock(s'.threads[s'.owner[x]], x)
  {
    hide HoldsLock;
    assert x in s.owner ==> s.owner[x] < |s.threads| && HoldsLock(s.threads[s.owner[x]], x);
  }

  lemma {:induction false} HolderIsOwner(s: Server, t: Tid, a: Act, r: Tid, x: Uid)
    requires t < |s.threads| && OwnersHold(s) && Fits(s.threads[t], a)
    requires r < |s.threads| && HoldsLock(Perform(s, t, a).threads[r], x)
    ensures var s' := Perform(s, t, a); x in s'.owner && s'.owner[x] == r
  {
    hide HoldsLock;
    assert HoldsLock(s.threads[r], x) ==> x in s.owner && s.owner[x] == r;
    assert HoldsLock(s.threads[t], x) ==> x in s.owner && s.owner[x] == t;
  }

  lemma {:induction false} PerformOwners(s: Server, t: Tid, a: Act)
    requires t < |s.threads| && OwnersHold(s) && Fits(s.threads[t], a)
    ensures OwnersHold(Perform(s, t, a))
  {
    hide HoldsLock, Fits;
    var s' := Perform(s, t, a);
    forall x | x in s'.owner
      ensures s'.owner[x] < |s'.threads| && HoldsLock(s'.threads[s'.owner[x]], x)
    {
      OwnerStillHolds(s, t, a, x);
    }
    forall r, x | 0 <= r < |s'.threads| && HoldsLock(s'.threads[r], x)
      ensures x in s'.owner && s'.owner[x] == r
    {
      HolderIsOwner(s, t, a, r, x);
    }
  }

  lemma {:induction false} PerformList(s: Server, t: Tid, a: Act)
    requires t < |s.threads| && ListHeld(s) && Fits(s.threads[t], a)
    ensures ListHeld(Perform(s, t, a))
  {
    hide SameLocks, HoldsLock;
  }

  lemma {:induction false} PerformLocks(s: Server, t: Tid, a: Act)
    requires t < |s.threads| && OwnersHold(s) && ListHeld(s) && Fits(s.threads[t], a)
    ensures OwnersHold(Perform(s, t, a)) && ListHeld(Perform(s, t, a))
  {
    hide Fits, OwnersHold, ListHeld, Perform;
    PerformOwners(s, t, a);
    PerformList(s, t, a);
  }

  // ----- Handles -----

  /** The reference count of a user is the number of handles that threads have, and of those never given back. */
  ghost predicate RefsCount(s: Server) {
    forall x :: x in s.d.users ==>
      x in s.logs && s.d.users[x].refs == AllHandles(s.threads, x) + s.logs[x].leaked
  }

  ghost predicate AllAlive(s: Server) {
    forall t :: 0 <= t < |s.threads| ==> Alive(s, s.threads[t])
  }

  lemma {:induction false} HandlesAfter(threads: seq<Pc>, t: Tid, pc: Pc, x: Uid)
    requires t < |threads|
    ensures AllHandles(threads[t := pc], x) + Handles(threads[t], x) == AllHandles(threads, x) + Handles(pc, x)
  {
    if t > 0 {
      assert threads[t := pc][1..] == threads[1..][t - 1 := pc];
      HandlesAfter(threads[1..], t - 1, pc, x);
    } else {
      assert threads[t := pc][1..] == threads[1..];
    }
  }

  lemma {:induction false} HandlesOf(threads: seq<Pc>, t: Tid, x: Uid)
    requires t < |threads|
    ensures AllHandles(threads, x) >= Handles(threads[t], x)
  {
    if t > 0 {
      HandlesOf(threads[1..], t - 1, x);
    }
  }

  /** The handles of two threads are different ones. */
  lemma {:induction false} HandlesOfTwo(threads: seq<Pc>, t: Tid, r: Tid, x: Uid)
    requires t < r < |threads|
    ensures AllHandles(threads, x) >= Handles(threads[t], x) + Handles(threads[r], x)
  {
    if t > 0 {
      HandlesOfTwo(threads[1..], t - 1, r - 1, x);
    } else {
      HandlesOf(threads[1..], r - 1, x);
    }
  }

  lemma {:induction false} NoHandles(threads: seq<Pc>, x: Uid)
    requires forall t :: 0 <= t < |threads| ==> Handles(threads[t], x) == 0
    ensures AllHandles(threads, x) == 0
  {
    if threads != [] {
      assert Handles(threads[0], x) == 0;
      assert forall t :: 0 <= t < |threads| - 1 ==> threads[1..][t] == threads[t + 1];
      NoHandles(threads[1..], x);
    }
  }

  function DirAfter(s: Server, a: Act): Directory {
    if a.Write? || a.Exec? then a.d else s.d
  }

  function LogsAfter(s: Server, a: Act): map<Uid, Log> {
    if a.Write? || a.Exec? then a.logs else s.logs
  }

  /** The thread's users exist. */
  ghost predicate Named(d: Directory, logs: map<Uid, Log>, pc: Pc) {
    && (User1(pc).Some? ==> User1(pc).value in d.users && User1(pc).value in logs)
    && (User2(pc).Some? ==> User2(pc).value in d.users && User2(pc).value in logs && User1(pc) != User2(pc))
  }

  /** The count of a user that stays changes by as much as the thread's handles on it, `before` and `after` the step,
      and the leaked ones; users are deleted only with their last handle, when they are disconnected. */
  ghost predicate CountsAt(s: Server, d: Directory, logs: map<Uid, Log>, x: Uid, before: nat, after: nat) {
    && (x in s.logs ==> x in logs)
    && (x in s.d.users && x in s.logs && x in d.users ==>
          x in logs && d.users[x].refs - logs[x].leaked - after == s.d.users[x].refs - s.logs[x].leaked - before)
    && (x in s.d.users && x !in d.users ==> s.d.users[x].refs == 1 && s.d.users[x].state == Disconnected && before == 1)
    && (x in d.users && x !in s.d.users ==>
          x !in s.logs && x in logs && d.users[x].refs == logs[x].leaked == after == 0)
  }

  ghost predicate BalancedAt(s: Server, pc: Pc, d: Directory, logs: map<Uid, Log>, pc': Pc, x: Uid) {
    CountsAt(s, d, logs, x, Handles(pc, x), Handles(pc', x))
  }

  ghost predicate Balanced(s: Server, pc: Pc, d: Directory, logs: map<Uid, Log>, pc': Pc) {
    Named(d, logs, pc') && forall x: Uid :: BalancedAt(s, pc, d, logs, pc', x)
  }

  lemma {:induction false} NamedRefs(s: Server, t: Tid)
    requires t < |s.threads| && RefsCount(s) && Named(s.d, s.logs, s.threads[t])
    ensures Alive(s, s.threads[t])
  {
    var pc := s.threads[t];
    if User1(pc).Some? {
      HandlesOf(s.threads, t, User1(pc).value);
    }
    if User2(pc).Some? {
      HandlesOf(s.threads, t, User2(pc).value);
    }
  }

  /** Another thread's users are not deleted. */
  lemma {:induction false} OthersNamed(s: Server, t: Tid, r: Tid, d: Directory, logs: map<Uid, Log>, pc': Pc)
    requires t < |s.threads| && r < |s.threads| && r != t && RefsCount(s) && Alive(s, s.threads[r])
    requires Balanced(s, s.threads[t], d, logs, pc')
    ensures Named(d, logs, s.threads[r])
  {
    var pc := s.threads[r];
    if User1(pc).Some? {
      KeepsHandle(s, t, r, d, logs, pc', User1(pc).value);
    }
    if User2(pc).Some? {
      KeepsHandle(s, t, r, d, logs, pc', User2(pc).value);
    }
  }

  lemma {:induction false} KeepsHandle(s: Server, t: Tid, r: Tid, d: Directory, logs: map<Uid, Log>, pc': Pc, x: Uid)
    requires t < |s.threads| && r < |s.threads| && r != t && RefsCount(s) && x in s.d.users &&
             Handles(s.threads[r], x) > 0
    requires Balanced(s, s.threads[t], d, logs, pc')
    ensures x in d.users && x in logs
  {
    hide Handles;
    assert BalancedAt(s, s.threads[t], d, logs, pc', x);
    if x !in d.users {
      if t < r {
        HandlesOfTwo(s.threads, t, r, x);
      } else {
        HandlesOfTwo(s.threads, r, t, x);
      }
    }
  }

  lemma {:induction false} CountsAfter(s: Server, t: Tid, d: Directory, logs: map<Uid, Log>, pc': Pc, x: Uid)
    requires t < |s.threads| && RefsCount(s) && AllAlive(s) && Balanced(s, s.threads[t], d, logs, pc') && x in d.users
    ensures x in logs && d.users[x].refs == AllHandles(s.threads[t := pc'], x) + logs[x].leaked
  {
    hide Alive;
    assert BalancedAt(s, s.threads[t], d, logs, pc', x);
    if x in s.d.users {
      HandlesAfter(s.threads, t, pc', x);
    } else {
      var threads := s.threads[t := pc'];
      forall r | 0 <= r < |threads|
        ensures Handles(threads[r], x) == 0
      {
        if r != t {
          Unnamed(s, r, x);
        }
      }
      NoHandles(threads, x);
    }
  }

  lemma {:induction false} Unnamed(s: Server, r: Tid, x: Uid)
    requires r < |s.threads| && AllAlive(s) && x !in s.logs
    ensures Handles(s.threads[r], x) == 0
  {
    assert Alive(s, s.threads[r]);
  }

  lemma {:induction false} PerformRefs(s: Server, t: Tid, a: Act)
    requires t < |s.threads| && RefsCount(s) && AllAlive(s)
    requires Balanced(s, s.threads[t], DirAfter(s, a), LogsAfter(s, a), a.pc)
    ensures RefsCount(Perform(s, t, a)) && AllAlive(Perform(s, t, a))
  {
    hide Balanced, Alive, Handles;
    var s' := Perform(s, t, a);
    if s' != s {
      forall x | x in s'.d.users
        ensures x in s'.logs && s'.d.users[x].refs == AllHandles(s'.threads, x) + s'.logs[x].leaked
      {
        CountsAfter(s, t, s'.d, s'.logs, a.pc, x);
      }
      forall r | 0 <= r < |s'.threads|
        ensures Alive(s', s'.threads[r])
      {
        if r == t {
          BalancedNames(s, s.threads[t], s'.d, s'.logs, a.pc);
        } else {
          OthersNamed(s, t, r, s'.d, s'.logs, a.pc);
        }
        NamedRefs(s', r);
      }
    }
  }

  lemma {:induction false} BalancedNames(s: Server, pc: Pc, d: Directory, logs: map<Uid, Log>, pc': Pc)
    requires Balanced(s, pc, d, logs, pc')
    ensures Named(d, logs, pc')
  {
  }

  // Every act is balanced.

  predicate SameUsers(pc: Pc, pc': Pc) {
    User1(pc') == User1(pc) && User2(pc') == User2(pc)
  }

  lemma {:induction false} SameHandles(pc: Pc, pc': Pc, x: Uid)
    requires SameUsers(pc, pc')
    ensures Handles(pc', x) == Handles(pc, x)
  {
  }

  lemma {:induction false} StillCount(s: Server, d: Directory, logs: map<Uid, Log>, x: Uid, n: nat)
    requires (x in d.users <==> x in s.d.users) && (x in s.d.users ==> d.users[x].refs == s.d.users[x].refs)
    requires x in s.logs ==> x in logs && logs[x].leaked == s.logs[x].leaked
    ensures CountsAt(s, d, logs, x, n, n)
  {
  }

  lemma {:induction false} CountsBalance(s: Server, pc: Pc, d: Directory, logs: map<Uid, Log>, pc': Pc, x: Uid)
    requires CountsAt(s, d, logs, x, Handles(pc, x), Handles(pc', x))
    ensures BalancedAt(s, pc, d, logs, pc', x)
  {
  }

  lemma {:induction false} AllBalance(s: Server, pc: Pc, d: Directory, logs: map<Uid, Log>, pc': Pc)
    requires Named(d, logs, pc') && forall x: Uid :: BalancedAt(s, pc, d, logs, pc', x)
    ensures Balanced(s, pc, d, logs, pc')
  {
    hide Named, BalancedAt;
  }

  lemma {:induction false} StillNamed(s: Server, pc: Pc, d: Directory, logs: map<Uid, Log>, pc': Pc)
    requires Alive(s, pc) && SameUsers(pc, pc')
    requires (forall x :: x in s.d.users ==> x in d.users) && forall x :: x in s.logs ==> x in logs
    ensures Named(d, logs, pc')
  {
    hide User1, User2;
  }

  /** Steps that leave counts alone. */
  lemma {:induction false} StillBalanced(s: Server, pc: Pc, d: Directory, logs: map<Uid, Log>, pc': Pc)
    requires Alive(s, pc) && SameUsers(pc, pc')
    requires forall x :: x in d.users <==> x in s.d.users
    requires forall x :: x in s.d.users ==> d.users[x].refs == s.d.users[x].refs
    requires forall x :: x in s.logs ==> x in logs && logs[x].leaked == s.logs[x].leaked
    ensures Balanced(s, pc, d, logs, pc')
  {
    hide Handles, Named, Alive, SameUsers, CountsAt, BalancedAt, Balanced;
    StillNamed(s, pc, d, logs, pc');
    forall x: Uid
      ensures BalancedAt(s, pc, d, logs, pc', x)
    {
      SameHandles(pc, pc', x);
      StillCount(s, d, logs, x, Handles(pc, x));
      CountsBalance(s, pc, d, logs, pc', x);
    }
    AllBalance(s, pc, d, logs, pc');
  }

  lemma {:induction false} TookCount(s: Server, w: Uid, x: Uid, before: nat, after: nat)
    requires w in s.d.users && after == before + One(Some(w), x)
    ensures CountsAt(s, AddRef(s.d, w, 1), s.logs, x, before, after)
  {
  }

  /** A lookup that finds `w`. */
  lemma {:induction false} TookHandle(s: Server, pc: Pc, w: Uid, pc': Pc)
    requires w in s.d.users && Named(AddRef(s.d, w, 1), s.logs, pc')
    requires forall x: Uid :: Handles(pc', x) == Handles(pc, x) + One(Some(w), x)
    ensures Balanced(s, pc, AddRef(s.d, w, 1), s.logs, pc')
  {
    hide Handles, Named, CountsAt, AddRef, BalancedAt, Balanced;
    var d := AddRef(s.d, w, 1);
    forall x: Uid
      ensures BalancedAt(s, pc, d, s.logs, pc', x)
    {
      assert Handles(pc', x) == Handles(pc, x) + One(Some(w), x);
      TookCount(s, w, x, Handles(pc, x), Handles(pc', x));
      CountsBalance(s, pc, d, s.logs, pc', x);
    }
    AllBalance(s, pc, d, s.logs, pc');
  }

  lemma {:induction false} LostCount(s: Server, u: Uid, x: Uid, n: nat)
    requires u in s.d.users && u in s.logs
    ensures CountsAt(s, AddRef(s.d, u, 1), s.logs[u := s.logs[u].(leaked := s.logs[u].leaked + 1)], x, n, n)
  {
  }

  /** A lookup that finds the user itself, whose new handle is dropped. */
  lemma {:induction false} LostHandle(s: Server, pc: Pc, u: Uid, pc': Pc)
    requires u in s.d.users && u in s.logs && SameUsers(pc, pc') && Alive(s, pc)
    ensures Balanced(s, pc, AddRef(s.d, u, 1), s.logs[u := s.logs[u].(leaked := s.logs[u].leaked + 1)], pc')
  {
    var d, logs := AddRef(s.d, u, 1), s.logs[u := s.logs[u].(leaked := s.logs[u].leaked + 1)];
    StillNamed(s, pc, d, logs, pc');
    hide Handles, Named, Alive, SameUsers, CountsAt, AddRef, BalancedAt, Balanced;
    forall x: Uid
      ensures BalancedAt(s, pc, d, logs, pc', x)
    {
      SameHandles(pc, pc', x);
      LostCount(s, u, x, Handles(pc, x));
      CountsBalance(s, pc, d, logs, pc', x);
    }
    AllBalance(s, pc, d, logs, pc');
  }

  lemma {:induction false} GaveCount(s: Server, w: Uid, x: Uid, before: nat, after: nat)
    requires w in s.d.users && s.d.users[w].refs > 0 && after + One(Some(w), x) == before && (x == w ==> after == 0)
    ensures CountsAt(s, Yield(s.d, w), s.logs, x, before, after)
  {
    hide Yield;
    YieldUsers(s.d, w, x);
  }

  lemma {:induction false} GaveHandle(s: Server, pc: Pc, w: Uid, pc': Pc)
    requires w in s.d.users && s.d.users[w].refs > 0 && Named(s.d, s.logs, pc')
    requires forall x: Uid :: Handles(pc', x) + One(Some(w), x) == Handles(pc, x)
    requires Handles(pc', w) == 0
    ensures Balanced(s, pc, Yield(s.d, w), s.logs, pc')
  {
    hide Handles, Named, CountsAt, Yield, BalancedAt, Balanced, User1, User2;
    var d := Yield(s.d, w);
    forall x: Uid
      ensures BalancedAt(s, pc, d, s.logs, pc', x)
    {
      assert Handles(pc', x) + One(Some(w), x) == Handles(pc, x);
      GaveCount(s, w, x, Handles(pc, x), Handles(pc', x));
      CountsBalance(s, pc, d, s.logs, pc', x);
    }
    YieldNames(s, w, pc');
    AllBalance(s, pc, d, s.logs, pc');
  }

  lemma {:induction false} YieldNames(s: Server, w: Uid, pc: Pc)
    requires w in s.d.users && s.d.users[w].refs > 0 && Named(s.d, s.logs, pc) && Handles(pc, w) == 0
    ensures Named(Yield(s.d, w), s.logs, pc)
  {
    hide User1, User2, Yield;
    if User1(pc).Some? {
      YieldUsers(s.d, w, User1(pc).value);
    }
    if User2(pc).Some? {
      YieldUsers(s.d, w, User2(pc).value);
    }
  }

  lemma {:induction false} NewUser(s: Server, pc: Pc, u: Uid, user: User, d: Directory, log: Log)
    requires (forall x :: x in s.d.users ==> x in s.logs) && u !in s.logs
    requires d.users == s.d.users[u := user] && user.refs == log.leaked == 0
    requires User1(pc) == User2(pc) == None
    ensures Balanced(s, pc, d, s.logs[u := log], Idle)
  {
    var logs := s.logs[u := log];
    forall x: Uid
      ensures BalancedAt(s, pc, d, logs, Idle, x)
    {
    }
  }

  lemma {:induction false} ListOpBalanced(s: Server, op: Op)
    requires Indexed(s.d) && Alive(s, List(op, true)) && forall x :: x in s.d.users ==> x in s.logs
    ensures ListOp(s, op).Exec?
    ensures Balanced(s, List(op, true), ListOp(s, op).d, ListOp(s, op).logs, ListOp(s, op).pc)
  {
    hide Indexed, Balanced, AddRef, Yield, Add, Handles;
    var pc, a := List(op, true), ListOp(s, op);
    match op
    case Fetch(fd, e, o) => LookupBalanced(s, op, fd);
    case Poll(fd, broken) => LookupBalanced(s, op, fd);
    case Accept(u, fd) =>
      if a.d != s.d {
        AddUsers(s.d.(users := s.d.users[u := User(fd, [], JustConnected, [], 0)]), u);
        NewUser(s, pc, u, User(fd, [], JustConnected, [], 0), a.d, Log(false, false, 0, 0));
      } else {
        StillBalanced(s, pc, a.d, a.logs, a.pc);
      }
    case Find(u, name, job) => FindBalanced(s, u, name, job);
    case YieldOther(u, v, res) => YieldBalanced(s, op, v);
    case YieldUser(u) => YieldBalanced(s, op, u);
    case Index(u) =>
      AddUsers(s.d, u);
      StillBalanced(s, pc, a.d, a.logs, a.pc);
    case _ => StillBalanced(s, pc, a.d, a.logs, a.pc);
  }

  lemma {:induction false} AddUsers(d: Directory, u: Uid)
    requires u in d.users
    ensures Add(d, u).0.users == d.users
  {
  }

  lemma {:induction false} YieldBalanced(s: Server, op: Op, w: Uid)
    requires Indexed(s.d) && Alive(s, List(op, true)) && ((op.YieldOther? && op.v == w) || (op.YieldUser? && op.u == w))
    ensures var a := ListOp(s, op); Balanced(s, List(op, true), a.d, a.logs, a.pc)
  {
    hide Indexed, Balanced, Yield;
    GaveHandle(s, List(op, true), w, ListOp(s, op).pc);
  }

  lemma {:induction false} LookupBalanced(s: Server, op: Op, fd: int)
    requires Indexed(s.d) && ((op.Fetch? && op.fd == fd) || (op.Poll? && op.fd == fd)) &&
             forall x :: x in s.d.users ==> x in s.logs
    ensures var a := ListOp(s, op); Balanced(s, List(op, true), a.d, a.logs, a.pc)
  {
    assert fd in s.d.byFd ==> s.d.byFd[fd] in s.d.users;
    hide Indexed, Balanced, AddRef;
    var pc, a := List(op, true), ListOp(s, op);
    if fd in s.d.byFd {
      AddRefNames(s.d, s.d.byFd[fd]);
      TookHandle(s, pc, s.d.byFd[fd], a.pc);
    } else {
      StillBalanced(s, pc, a.d, a.logs, a.pc);
    }
  }

  lemma {:induction false} AddRefNames(d: Directory, w: Uid)
    requires w in d.users
    ensures AddRef(d, w, 1).users.Keys == d.users.Keys
  {
  }

  lemma {:induction false} FindBalanced(s: Server, u: Uid, name: Name, job: Job)
    requires Indexed(s.d) && Alive(s, List(Find(u, name, job), true)) && forall x :: x in s.d.users ==> x in s.logs
    ensures var a := ListOp(s, Find(u, name, job)); Balanced(s, List(Find(u, name, job), true), a.d, a.logs, a.pc)
  {
    assert name in s.d.byName ==> s.d.byName[name] in s.d.users;
    hide Indexed, Balanced, AddRef;
    var pc, a := List(Find(u, name, job), true), ListOp(s, Find(u, name, job));
    if name !in s.d.byName {
      StillBalanced(s, pc, a.d, a.logs, a.pc);
    } else {
      var v := s.d.byName[name];
      AddRefNames(s.d, v);
      if v == u {
        LostHandle(s, pc, u, a.pc);
      } else {
        TookHandle(s, pc, v, a.pc);
      }
    }
  }

  lemma {:induction false} NextOfTwoBalanced(env: Env, s: Server, pc: Pc)
    requires OfTwo(pc) && Alive(s, pc)
    ensures var a := NextOfTwo(env, s, pc); Balanced(s, pc, DirAfter(s, a), LogsAfter(s, a), a.pc)
  {
    hide NameLess, OutcomeOf, Balanced, PutsOf;
    var a := NextOfTwo(env, s, pc);
    StillBalanced(s, pc, DirAfter(s, a), LogsAfter(s, a), a.pc);
  }

  lemma {:induction false} WriteBalanced(env: Env, s: Server, t: Tid, start: Op)
    requires t < |s.threads| && Indexed(s.d) && Alive(s, s.threads[t]) && Writes(s.threads[t])
    ensures var a := Next(env, s, t, start); Balanced(s, s.threads[t], DirAfter(s, a), LogsAfter(s, a), a.pc)
  {
    hide Indexed, Balanced;
    var pc, a := s.threads[t], Next(env, s, t, start);
    StillBalanced(s, pc, a.d, a.logs, a.pc);
  }

  predicate Writes(pc: Pc) {
    pc.SetTo? || pc.Rename? || pc.Decide? || (pc.Finished? && !pc.res)
  }

  lemma {:induction false} NextBalanced(env: Env, s: Server, t: Tid, start: Op)
    requires t < |s.threads| && Indexed(s.d) && Alive(s, s.threads[t]) && RefsCount(s)
    ensures var a := Next(env, s, t, start); Balanced(s, s.threads[t], DirAfter(s, a), LogsAfter(s, a), a.pc)
  {
    assert forall x :: x in s.d.users ==> x in s.logs;
    hide Indexed, ListOp, Select, NextOfTwo, Balanced, Write1, RefsCount;
    var pc, a := s.threads[t], Next(env, s, t, start);
    if pc.List? && pc.entered {
      ListOpBalanced(s, pc.op);
    } else if OfTwo(pc) {
      NextOfTwoBalanced(env, s, pc);
    } else if pc.Dispatch? && !pc.e.Dropped? {
      SelectFits(env, s.d.users[pc.u], pc.u, pc.e, pc.o);
      StillBalanced(s, pc, s.d, s.logs, a.pc);
    } else if Writes(pc) {
      WriteBalanced(env, s, t, start);
    } else {
      StillBalanced(s, pc, s.d, s.logs, a.pc);
    }
  }

  // ----- Users, names and what threads know of them -----

  /** A user's state fits its history, and a disconnected user that is still there has a handle on it. */
  ghost predicate UserOk(d: Directory, logs: map<Uid, Log>, clock: nat, x: Uid) {
    x in d.users ==>
      && x in logs
      && (logs[x].registered ==> logs[x].secured)
      && (Registered(d.users[x].state) ==> logs[x].registered)
      && (d.users[x].state == SecurelyConnected ==> logs[x].secured && !logs[x].registered)
      && (d.users[x].state == JustConnected ==> !logs[x].registered)
      && (d.users[x].state == Disconnected ==> d.users[x].refs > 0)
      && (!logs[x].registered ==> logs[x].stamp == 0)
      && logs[x].stamp <= clock
  }

  /** Of the users with one name, the one in the index is the last that was entered. */
  ghost predicate Newest(d: Directory, logs: map<Uid, Log>, n: Name, w: Uid) {
    n in d.byName && w in d.users && w in logs && w != d.byName[n] && d.users[w].name == n ==>
      d.byName[n] in logs && logs[w].stamp < logs[d.byName[n]].stamp
  }

  /** Only registered users are found by name. */
  ghost predicate NameOk(d: Directory, logs: map<Uid, Log>, n: Name) {
    && (n in d.byName ==> d.byName[n] in logs && logs[d.byName[n]].registered && logs[d.byName[n]].stamp > 0)
    && forall w :: Newest(d, logs, n, w)
  }

  /** States of registered users only. */
  predicate PutOk(p: Put) {
    p.PutState? ==> p.state != JustConnected && p.state != SecurelyConnected
  }

  predicate PutsOk(puts: seq<Put>) {
    forall k :: 0 <= k < |puts| ==> PutOk(puts[k])
  }

  ghost predicate NotYet(logs: map<Uid, Log>, u: Uid)
    requires u in logs
  {
    logs[u].secured && !logs[u].registered && logs[u].stamp == 0
  }

  /** The order in which user mutexes are taken: by name, and among users of one name by their entry into the index. */
  ghost predicate Before(d: Directory, logs: map<Uid, Log>, u: Uid, v: Uid)
    requires u in d.users && v in d.users && u in logs && v in logs
  {
    NameLess(d.users[u].name, d.users[v].name) || (d.users[u].name == d.users[v].name && logs[u].stamp < logs[v].stamp)
  }

  ghost predicate TwoOk(d: Directory, logs: map<Uid, Log>, pc: Pc)
    requires OfTwo(pc) && Named(d, logs, pc)
  {
    && logs[pc.u].registered && logs[pc.v].registered && logs[pc.v].stamp > 0
    && (pc.Pair? && d.users[pc.u].name == d.users[pc.v].name ==> logs[pc.u].stamp < logs[pc.v].stamp)
    && (pc.WaitOther? ==> Before(d, logs, pc.u, pc.v))
    && (pc.WaitSecond? ==> Before(d, logs, pc.v, pc.u))
    && (pc.WaitFirst? ==> NameLess(d.users[pc.v].name, d.users[pc.u].name))
    && (pc.Commit? ==> PutsOk(pc.puts))
  }

  /** What a thread relies on after it has read it. */
  ghost predicate PcOk(d: Directory, logs: map<Uid, Log>, pc: Pc)
    requires Named(d, logs, pc)
  {
    && (OfTwo(pc) ==> TwoOk(d, logs, pc))
    && (pc.SetTo? ==> && (pc.state == SecurelyConnected ==> !logs[pc.u].registered)
                      && (pc.state == Available ==> logs[pc.u].registered)
                      && (pc.state == SecurelyConnected || pc.state == Available || pc.state == Disconnected))
    && (pc.Rename? || pc.Decide? || (pc.List? && pc.op.Exists?) ==> NotYet(logs, User1(pc).value))
    && (pc.List? && pc.op.Index? ==> logs[pc.op.u].registered && logs[pc.op.u].stamp == 0)
    && (pc.List? && pc.op.Find? ==> logs[pc.op.u].registered)
  }

  /** What other threads rely on: registered users keep their names, entered users their place in the order,
      and nothing of this changes for a user whose mutex is held by somebody else. */
  ghost predicate KeepsUser(s: Server, pc: Pc, d: Directory, logs: map<Uid, Log>, x: Uid) {
    x in s.d.users && x in s.logs && x in d.users && x in logs ==>
      && (s.logs[x].registered ==> logs[x].registered && d.users[x].name == s.d.users[x].name)
      && (s.logs[x].stamp > 0 ==> logs[x].stamp == s.logs[x].stamp)
      && (!HoldsLock(pc, x) ==>
            logs[x].(leaked := 0) == s.logs[x].(leaked := 0) && d.users[x].name == s.d.users[x].name)
  }

  lemma {:induction false} TwoStaysOk(s: Server, pc: Pc, d: Directory, logs: map<Uid, Log>, other: Pc)
    requires OfTwo(other) && Named(s.d, s.logs, other) && Named(d, logs, other) && TwoOk(s.d, s.logs, other)
    requires KeepsUser(s, pc, d, logs, other.u) && KeepsUser(s, pc, d, logs, other.v)
    requires HoldsFirst(other) ==> !HoldsLock(pc, other.u)
    ensures TwoOk(d, logs, other)
  {
    hide NameLess, HoldsLock;
  }

  lemma {:induction false} OtherStaysOk(s: Server, pc: Pc, d: Directory, logs: map<Uid, Log>, other: Pc)
    requires Named(s.d, s.logs, other) && Named(d, logs, other) && PcOk(s.d, s.logs, other)
    requires forall x :: KeepsUser(s, pc, d, logs, x)
    requires forall x :: HoldsLock(other, x) ==> !HoldsLock(pc, x)
    ensures PcOk(d, logs, other)
  {
    if User1(other).Some? {
      var u := User1(other).value;
      assert KeepsUser(s, pc, d, logs, u);
      assert HoldsFirst(other) ==> HoldsLock(other, u);
    }
    hide HoldsLock, TwoOk;
    if OfTwo(other) {
      assert KeepsUser(s, pc, d, logs, other.v);
      TwoStaysOk(s, pc, d, logs, other);
    }
  }

  // ----- Every write keeps this -----

  ghost predicate WorldOk(d: Directory, logs: map<Uid, Log>, clock: nat) {
    Indexed(d) && (forall x :: UserOk(d, logs, clock, x)) && (forall n :: NameOk(d, logs, n))
  }

  /** The world stays in order, and so does what the other threads rely on. */
  ghost predicate WorldKept(s: Server, pc: Pc, d: Directory, logs: map<Uid, Log>, clock: nat) {
    WorldOk(d, logs, clock) && forall x :: KeepsUser(s, pc, d, logs, x)
  }

  lemma {:induction false} NothingWritten(s: Server, pc: Pc, clock: nat)
    requires WorldOk(s.d, s.logs, s.clock) && clock == s.clock
    ensures WorldKept(s, pc, s.d, s.logs, clock)
  {
    hide Indexed, UserOk, NameOk;
  }

  /** Only states, opponents and handles change. */
  ghost predicate SameNames(d: Directory, d': Directory) {
    && d'.byFd == d.byFd && d'.byName == d.byName && (forall x :: x in d'.users <==> x in d.users)
    && forall x :: x in d.users ==> d'.users[x].fd == d.users[x].fd && d'.users[x].name == d.users[x].name
  }

  ghost predicate SameHistory(logs: map<Uid, Log>, logs': map<Uid, Log>) {
    forall x :: x in logs ==> x in logs' && logs'[x].registered == logs[x].registered && logs'[x].stamp == logs[x].stamp
  }

  lemma {:induction false} NamesStayOk(d: Directory, logs: map<Uid, Log>, d': Directory, logs': map<Uid, Log>, n: Name)
    requires NameOk(d, logs, n) && SameNames(d, d') && SameHistory(logs, logs')
    requires forall x :: x in d.users ==> x in logs
    ensures NameOk(d', logs', n)
  {
    forall w: Uid
      ensures Newest(d', logs', n, w)
    {
      assert Newest(d, logs, n, w);
    }
  }

  /** A state is written that fits the history. */
  lemma {:induction false} StateWritten(s: Server, pc: Pc, u: Uid, state: UserState, log: Log)
    requires WorldOk(s.d, s.logs, s.clock) && u in s.d.users && u in s.logs && s.d.users[u].refs > 0
    requires log == s.logs[u].(secured := log.secured) && (s.logs[u].secured ==> log.secured)
    requires log.secured != s.logs[u].secured ==> HoldsLock(pc, u)
    requires state != JustConnected && (Registered(state) ==> log.registered)
    requires state == SecurelyConnected ==> log.secured && !log.registered
    ensures WorldKept(s, pc, SetState(s.d, u, state), s.logs[u := log], s.clock)
  {
    var d, logs := SetState(s.d, u, state), s.logs[u := log];
    SameIndexed(s.d, d);
    hide Indexed, NameOk, HoldsLock;
    forall x: Uid
      ensures UserOk(d, logs, s.clock, x) && (x in s.d.users ==> x in s.logs)
    {
      assert UserOk(s.d, s.logs, s.clock, x);
    }
    hide UserOk;
    forall n
      ensures NameOk(d, logs, n)
    {
      NamesStayOk(s.d, s.logs, d, logs, n);
    }
  }

  /** A name is written that nobody was found by. */
  lemma {:induction false} NameWritten(s: Server, pc: Pc, u: Uid, name: Name)
    requires WorldOk(s.d, s.logs, s.clock) && u in s.d.users && u in s.logs && NotYet(s.logs, u) && HoldsLock(pc, u)
    ensures WorldKept(s, pc, s.d.(users := s.d.users[u := s.d.users[u].(name := name)]), s.logs, s.clock)
  {
    var d := s.d.(users := s.d.users[u := s.d.users[u].(name := name)]);
    forall n | n in s.d.byName
      ensures s.d.byName[n] != u
    {
      assert NameOk(s.d, s.logs, n);
    }
    RenameKeeps(s.d, u, name);
    hide Indexed, HoldsLock;
    forall x: Uid
      ensures UserOk(d, s.logs, s.clock, x)
    {
      assert UserOk(s.d, s.logs, s.clock, x);
    }
    forall n
      ensures NameOk(d, s.logs, n)
    {
      assert NameOk(s.d, s.logs, n);
      forall w: Uid
        ensures Newest(d, s.logs, n, w)
      {
        assert Newest(s.d, s.logs, n, w);
      }
    }
  }

  /** The user is registered, with a state that fits. */
  lemma {:induction false} RegistrationWritten(s: Server, pc: Pc, u: Uid, state: UserState)
    requires WorldOk(s.d, s.logs, s.clock) && u in s.d.users && u in s.logs && s.d.users[u].refs > 0
    requires NotYet(s.logs, u) && HoldsLock(pc, u) && (state == Available || state == Disconnected)
    ensures WorldKept(s, pc, SetState(s.d, u, state), s.logs[u := s.logs[u].(registered := true)], s.clock)
  {
    var d, logs := SetState(s.d, u, state), s.logs[u := s.logs[u].(registered := true)];
    SameIndexed(s.d, d);
    hide Indexed, HoldsLock, NameOk, UserOk, KeepsUser;
    forall x: Uid
      ensures UserOk(d, logs, s.clock, x) && KeepsUser(s, pc, d, logs, x)
    {
      assert UserOk(s.d, s.logs, s.clock, x);
      RegisteredUser(s, pc, u, state, x);
    }
    forall n
      ensures NameOk(d, logs, n)
    {
      RegisteredName(s, u, d, logs, n);
    }
  }

  lemma {:induction false} RegisteredUser(s: Server, pc: Pc, u: Uid, state: UserState, x: Uid)
    requires UserOk(s.d, s.logs, s.clock, x) && u in s.d.users && u in s.logs && s.d.users[u].refs > 0
    requires NotYet(s.logs, u) && HoldsLock(pc, u) && (state == Available || state == Disconnected)
    ensures var d, logs := SetState(s.d, u, state), s.logs[u := s.logs[u].(registered := true)];
            UserOk(d, logs, s.clock, x) && KeepsUser(s, pc, d, logs, x)
  {
    hide HoldsLock;
  }

  lemma {:induction false} RegisteredName(s: Server, u: Uid, d: Directory, logs: map<Uid, Log>, n: Name)
    requires NameOk(s.d, s.logs, n) && u in s.logs && SameNames(s.d, d) &&
             logs == s.logs[u := s.logs[u].(registered := true)]
    ensures NameOk(d, logs, n)
  {
    forall w: Uid
      ensures Newest(d, logs, n, w)
    {
      assert Newest(s.d, s.logs, n, w);
    }
  }

  function WithOpponent(d: Directory, u: Uid, opponent: Name): Directory
    requires u in d.users
  {
    d.(users := d.users[u := d.users[u].(opponent := opponent)])
  }

  lemma {:induction false} OpponentWritten(s: Server, pc: Pc, u: Uid, opponent: Name)
    requires WorldOk(s.d, s.logs, s.clock) && u in s.d.users
    ensures WorldKept(s, pc, WithOpponent(s.d, u, opponent), s.logs, s.clock)
  {
    var d := WithOpponent(s.d, u, opponent);
    SameIndexed(s.d, d);
    hide Indexed, NameOk, HoldsLock;
    forall x: Uid
      ensures UserOk(d, s.logs, s.clock, x) && (x in s.d.users ==> x in s.logs)
    {
      assert UserOk(s.d, s.logs, s.clock, x);
    }
    hide UserOk;
    forall n
      ensures NameOk(d, s.logs, n)
    {
      NamesStayOk(s.d, s.logs, d, s.logs, n);
    }
  }

  /** One write to one of two locked users. */
  lemma {:induction false} PutWritten(s: Server, pc: Pc, u: Uid, v: Uid, p: Put)
    requires WorldOk(s.d, s.logs, s.clock) && u in s.d.users && u in s.logs && s.d.users[u].refs > 0
    requires v in s.d.users && v in s.logs && s.d.users[v].refs > 0
    requires s.logs[u].registered && s.logs[v].registered && PutOk(p)
    ensures WorldKept(s, pc, PutOne(s.d, u, v, p), s.logs, s.clock)
  {
    hide WorldOk, WorldKept;
    var x := if p.other then v else u;
    match p
    case PutState(_, state) =>
      StateWritten(s, pc, x, state, s.logs[x]);
      assert s.logs[x := s.logs[x]] == s.logs;
    case PutOpponent(_, opponent) => OpponentWritten(s, pc, x, opponent);
  }

  /** A handle is taken. */
  lemma {:induction false} HandleTaken(s: Server, pc: Pc, w: Uid, logs: map<Uid, Log>)
    requires WorldOk(s.d, s.logs, s.clock) && w in s.d.users && logs.Keys == s.logs.Keys
    requires forall x :: x in s.logs ==> logs[x] == s.logs[x].(leaked := logs[x].leaked)
    ensures WorldKept(s, pc, AddRef(s.d, w, 1), logs, s.clock)
  {
    var d := AddRef(s.d, w, 1);
    AddRefKeeps(s.d, w, 1);
    hide Indexed, NameOk, HoldsLock;
    forall x: Uid
      ensures UserOk(d, logs, s.clock, x) && (x in s.d.users ==> x in s.logs)
    {
      assert UserOk(s.d, s.logs, s.clock, x);
    }
    hide UserOk;
    forall n
      ensures NameOk(d, logs, n)
    {
      NamesStayOk(s.d, s.logs, d, logs, n);
    }
  }

  lemma {:induction false} GivenUser(s: Server, pc: Pc, w: Uid, x: Uid)
    requires w in s.d.users && s.d.users[w].refs > 0 && UserOk(s.d, s.logs, s.clock, x)
    ensures UserOk(Yield(s.d, w), s.logs, s.clock, x)
    ensures KeepsUser(s, pc, Yield(s.d, w), s.logs, x)
  {
    hide HoldsLock;
  }

  lemma {:induction false} GivenName(s: Server, w: Uid, n: Name, x: Uid)
    requires w in s.d.users && s.d.users[w].refs > 0 && Newest(s.d, s.logs, n, x)
    ensures Newest(Yield(s.d, w), s.logs, n, x)
    ensures var d := Yield(s.d, w); n in d.byName ==> n in s.d.byName && d.byName[n] == s.d.byName[n]
  {
  }

  /** A handle is given back, and perhaps the user is deleted. */
  lemma {:induction false} HandleGiven(s: Server, pc: Pc, w: Uid)
    requires WorldOk(s.d, s.logs, s.clock) && w in s.d.users && s.d.users[w].refs > 0
    ensures WorldKept(s, pc, Yield(s.d, w), s.logs, s.clock)
  {
    var d := Yield(s.d, w);
    YieldKeeps(s.d, w);
    hide Indexed, HoldsLock, Yield, UserOk, Newest, KeepsUser;
    forall x: Uid
      ensures UserOk(d, s.logs, s.clock, x) && KeepsUser(s, pc, d, s.logs, x)
    {
      assert UserOk(s.d, s.logs, s.clock, x);
      GivenUser(s, pc, w, x);
    }
    forall n
      ensures NameOk(d, s.logs, n)
    {
      assert NameOk(s.d, s.logs, n);
      forall x: Uid
        ensures Newest(d, s.logs, n, x) && (n in d.byName ==> n in s.d.byName && d.byName[n] == s.d.byName[n])
      {
        assert Newest(s.d, s.logs, n, x);
        GivenName(s, w, n, x);
      }
    }
  }

  lemma {:induction false} UserAdded(s: Server, pc: Pc, u: Uid, fd: int)
    requires WorldOk(s.d, s.logs, s.clock) && u !in s.logs && forall w :: w in s.d.users ==> s.d.users[w].fd != fd
    ensures var d := s.d.(users := s.d.users[u := User(fd, [], JustConnected, [], 0)]);
            WorldKept(s, pc, Add(d, u).0, s.logs[u := Log(false, false, 0, 0)], s.clock)
  {
    hide Indexed;
    assert UserOk(s.d, s.logs, s.clock, u);
    var user := User(fd, [], JustConnected, [], 0);
    var d := s.d.(users := s.d.users[u := user]);
    NewIndexed(s.d, u, user);
    AddKeeps(d, u);
    var d', logs := Add(d, u).0, s.logs[u := Log(false, false, 0, 0)];
    assert d'.users == d.users && d'.byName == s.d.byName;
    hide HoldsLock, Add, NameOk;
    forall x: Uid
      ensures UserOk(d', logs, s.clock, x) && KeepsUser(s, pc, d', logs, x)
    {
      assert UserOk(s.d, s.logs, s.clock, x);
    }
    hide UserOk, KeepsUser;
    forall n
      ensures NameOk(d', logs, n)
    {
      UserAddedName(s, u, user, d', logs, n);
    }
  }

  lemma {:induction false} UserAddedName(s: Server, u: Uid, user: User, d: Directory, logs: map<Uid, Log>, n: Name)
    requires NameOk(s.d, s.logs, n) && u !in s.logs && d.users == s.d.users[u := user] && d.byName == s.d.byName
    requires logs == s.logs[u := Log(false, false, 0, 0)]
    ensures NameOk(d, logs, n)
  {
    forall w: Uid
      ensures Newest(d, logs, n, w)
    {
      assert Newest(s.d, s.logs, n, w);
    }
  }

  /** The index has the new entry, for a name that it did not have. */
  lemma {:induction false} EntryAdded(s: Server, u: Uid, d: Directory, logs: map<Uid, Log>, n: Name)
    requires WorldOk(s.d, s.logs, s.clock) && u in s.d.users && u in s.logs && s.logs[u].registered &&
             s.logs[u].stamp == 0
    requires s.d.users[u].name !in s.d.byName && d.users == s.d.users && d.byName == s.d.byName[s.d.users[u].name := u]
    requires logs == s.logs[u := s.logs[u].(stamp := s.clock + 1)]
    ensures NameOk(d, logs, n)
  {
    hide Indexed;
    assert NameOk(s.d, s.logs, n);
    forall w: Uid
      ensures Newest(d, logs, n, w)
    {
      assert Newest(s.d, s.logs, n, w) && UserOk(s.d, s.logs, s.clock, w);
    }
  }

  lemma {:induction false} IndexResult(s: Server, u: Uid)
    requires Indexed(s.d) && Alive(s, List(Index(u), true))
    ensures ListOp(s, Index(u)).Exec?
    ensures var a, name := ListOp(s, Index(u)), s.d.users[u].name;
            && Indexed(a.d) && a.d.users == s.d.users
            && if name !in s.d.byName && a.d.byName != s.d.byName then
                 && a.d.byName == s.d.byName[name := u]
                 && a.logs == s.logs[u := s.logs[u].(stamp := s.clock + 1)] && a.clock == s.clock + 1
               else a.d.byName == s.d.byName && a.logs == s.logs && a.clock == s.clock
  {
    AddKeeps(s.d, u);
    hide Indexed;
  }

  lemma {:induction false} IndexedUser(s: Server, pc: Pc, u: Uid, a: Act, x: Uid)
    requires a.Exec? && a.d.users == s.d.users && u in s.d.users && u in s.logs && UserOk(s.d, s.logs, s.clock, x)
    requires s.logs[u].registered && s.logs[u].stamp == 0 && HoldsLock(pc, u)
    requires (a.logs == s.logs && a.clock == s.clock) ||
             (a.logs == s.logs[u := s.logs[u].(stamp := s.clock + 1)] && a.clock == s.clock + 1)
    ensures UserOk(a.d, a.logs, a.clock, x) && KeepsUser(s, pc, a.d, a.logs, x)
  {
    hide HoldsLock;
  }

  /** The user is entered into the index of names, if its name is not empty and not there, and there is room. */
  lemma {:induction false} UserIndexed(s: Server, pc: Pc, u: Uid)
    requires WorldOk(s.d, s.logs, s.clock) && Alive(s, List(Index(u), true))
    requires s.logs[u].registered && s.logs[u].stamp == 0 && HoldsLock(pc, u)
    ensures var a := ListOp(s, Index(u)); WorldKept(s, pc, a.d, a.logs, a.clock)
  {
    hide Indexed, HoldsLock, ListOp, NameOk, UserOk, KeepsUser;
    IndexResult(s, u);
    var a, name := ListOp(s, Index(u)), s.d.users[u].name;
    forall x: Uid
      ensures UserOk(a.d, a.logs, a.clock, x) && KeepsUser(s, pc, a.d, a.logs, x)
    {
      assert UserOk(s.d, s.logs, s.clock, x);
      IndexedUser(s, pc, u, a, x);
    }
    forall n
      ensures NameOk(a.d, a.logs, n)
    {
      assert NameOk(s.d, s.logs, n);
      if name !in s.d.byName && a.d.byName != s.d.byName {
        EntryAdded(s, u, a.d, a.logs, n);
      } else {
        SameEntries(s.d, s.logs, a.d, n);
      }
    }
  }

  lemma {:induction false} SameEntries(d: Directory, logs: map<Uid, Log>, d': Directory, n: Name)
    requires NameOk(d, logs, n) && d'.users == d.users && d'.byName == d.byName
    ensures NameOk(d', logs, n)
  {
    forall w: Uid
      ensures Newest(d', logs, n, w)
    {
      assert Newest(d, logs, n, w);
    }
  }
}
