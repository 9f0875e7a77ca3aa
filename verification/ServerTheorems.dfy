// What the invariant means: no deadlock, no deleted user in use, states reached in order.

module ServerTheorems {
  import opened Bytes
  import opened Directory
  import opened Handlers
  import opened ServerMachine
  import opened ServerInvariants
  import opened ServerRuns

  // ----- Waiting -----

  /** `t` cannot step before `r` has released a mutex. */
  ghost predicate WaitsOn(s: Server, t: Tid, r: Tid) {
    && t < |s.threads| && r < |s.threads|
    && var pc := s.threads[t];
       || (WaitsFor(pc).Some? && WaitsFor(pc).value in s.owner && s.owner[WaitsFor(pc).value] == r)
       || (pc.List? && !pc.entered && s.list == Some(r))
  }

  /** `t` waits for a mutex that was left locked. */
  predicate Jammed(s: Server, t: Tid) {
    t < |s.threads| && WaitsFor(s.threads[t]).Some? && WaitsFor(s.threads[t]).value in s.lost
  }

  ghost predicate Blocked(s: Server, t: Tid) {
    Jammed(s, t) || exists r :: WaitsOn(s, t, r)
  }

  /** A thread in the middle of its work that no mutex keeps from stepping. */
  ghost predicate CanStep(s: Server, t: Tid) {
    t < |s.threads| && s.threads[t] != Idle && !Blocked(s, t)
  }

  /** Such a thread does get on. */
  lemma {:induction false} CanStepSteps(env: Env, s: Server, t: Tid, start: Op)
    requires Inv(s) && CanStep(s, t)
    ensures Step(env, s, t, start).threads[t] != s.threads[t]
  {
    var a := Next(env, s, t, start);
    NextMoves(env, s, t, start);
    NextFits(env, s, t, start);
    hide Inv, Next, Blocked;
    if a.Acquire? && (a.x in s.owner || a.x in s.lost) {
      TakenBlocks(s, t, a.x);
    }
    if a.Enter? && s.list.Some? {
      ListBlocks(s, t);
    }
  }

  lemma {:induction false} TakenBlocks(s: Server, t: Tid, x: Uid)
    requires Inv(s) && t < |s.threads| && WaitsFor(s.threads[t]) == Some(x) && (x in s.owner || x in s.lost)
    ensures Blocked(s, t)
  {
    if x in s.owner {
      OwnerIsThread(s, x);
      assert WaitsOn(s, t, s.owner[x]);
    }
  }

  lemma {:induction false} ListBlocks(s: Server, t: Tid)
    requires Inv(s) && t < |s.threads| && s.threads[t].List? && !s.threads[t].entered && s.list.Some?
    ensures Blocked(s, t)
  {
    ListOwnerIsThread(s);
    assert WaitsOn(s, t, s.list.value);
  }

  lemma {:induction false} OwnerIsThread(s: Server, x: Uid)
    requires Inv(s) && x in s.owner
    ensures s.owner[x] < |s.threads| && HoldsLock(s.threads[s.owner[x]], x)
  {
  }

  lemma {:induction false} ListOwnerIsThread(s: Server)
    requires Inv(s) && s.list.Some?
    ensures s.list.value < |s.threads| && Inside(s.threads[s.list.value])
  {
  }

  lemma {:induction false} NextMoves(env: Env, s: Server, t: Tid, start: Op)
    requires Inv(s) && t < |s.threads| && s.threads[t] != Idle
    ensures Next(env, s, t, start).pc != s.threads[t]
  {
    hide Indexed, AllPcsOk, OwnersHold, ListHeld, RefsCount, WorldOk, NameLess, OutcomeOf, PutsOf, PutOne, Add, Yield,
        AddRef;
    assert Alive(s, s.threads[t]);
  }

  /** Whoever is inside the list's methods waits for nobody: that mutex is a leaf. */
  lemma {:induction false} ListIsLeaf(s: Server, t: Tid, r: Tid, q: Tid)
    requires Inv(s) && WaitsOn(s, t, r) && s.threads[t].List?
    ensures !WaitsOn(s, r, q)
  {
    ListOwnerIsThread(s);
  }

  /** A thread that holds one user's mutex waits only for users that come after it. */
  lemma {:induction false} HeldBeforeAwaited(s: Server, r: Tid, x: Uid, y: Uid)
    requires Inv(s) && r < |s.threads| && HoldsLock(s.threads[r], x) && WaitsFor(s.threads[r]) == Some(y)
    ensures x in s.d.users && x in s.logs && y in s.d.users && y in s.logs && Before(s.d, s.logs, x, y)
  {
    hide OwnersHold, ListHeld, RefsCount, WorldOk, NameLess;
    assert Named(s.d, s.logs, s.threads[r]) && PcOk(s.d, s.logs, s.threads[r]);
  }

  lemma {:induction false} AwaitedExists(s: Server, t: Tid)
    requires Inv(s) && t < |s.threads| && WaitsFor(s.threads[t]).Some?
    ensures WaitsFor(s.threads[t]).value in s.d.users && WaitsFor(s.threads[t]).value in s.logs
  {
    hide OwnersHold, ListHeld, RefsCount, WorldOk, PcOk;
    assert Named(s.d, s.logs, s.threads[t]);
  }

  /** Along a wait from one user's mutex to another's, the users ascend. */
  lemma {:induction false} WaitsAscend(s: Server, t: Tid, r: Tid)
    requires Inv(s) && WaitsOn(s, t, r) && WaitsFor(s.threads[t]).Some? && WaitsFor(s.threads[r]).Some?
    ensures var x, y := WaitsFor(s.threads[t]).value, WaitsFor(s.threads[r]).value;
            x in s.d.users && x in s.logs && y in s.d.users && y in s.logs && Before(s.d, s.logs, x, y)
  {
    var x, y := WaitsFor(s.threads[t]).value, WaitsFor(s.threads[r]).value;
    OwnerIsThread(s, x);
    HeldBeforeAwaited(s, r, x, y);
  }

  lemma {:induction false} BeforeTransitive(d: Directory, logs: map<Uid, Log>, x: Uid, y: Uid, z: Uid)
    requires x in d.users && y in d.users && z in d.users && x in logs && y in logs && z in logs
    requires Before(d, logs, x, y) && Before(d, logs, y, z)
    ensures Before(d, logs, x, z)
  {
    hide NameLess;
    if NameLess(d.users[x].name, d.users[y].name) && NameLess(d.users[y].name, d.users[z].name) {
      NameLessTransitive(d.users[x].name, d.users[y].name, d.users[z].name);
    }
  }

  lemma {:induction false} BeforeIrreflexive(d: Directory, logs: map<Uid, Log>, x: Uid)
    requires x in d.users && x in logs
    ensures !Before(d, logs, x, x)
  {
    NameLessIrreflexive(d.users[x].name);
  }

  // ----- No deadlock -----

  /** Each thread waits on the next one. */
  ghost predicate Chain(s: Server, c: seq<Tid>) {
    && c != [] && (forall k :: 0 <= k < |c| ==> c[k] < |s.threads|)
    && forall k :: 0 <= k < |c| - 1 ==> WaitsOn(s, c[k], c[k + 1])
  }

  lemma {:induction false} ChainAscends(s: Server, c: seq<Tid>)
    requires Inv(s) && Chain(s, c) && |c| >= 2 && WaitsFor(s.threads[c[|c| - 1]]).Some?
    ensures var x, y := WaitsFor(s.threads[c[0]]), WaitsFor(s.threads[c[|c| - 1]]);
            x.Some? && x.value in s.d.users && x.value in s.logs && y.value in s.d.users && y.value in s.logs
            && Before(s.d, s.logs, x.value, y.value)
  {
    hide Inv, Before;
    assert WaitsOn(s, c[0], c[1]);
    if |c| == 2 {
      FirstWaitsForUser(s, c[0], c[1]);
      WaitsAscend(s, c[0], c[1]);
    } else {
      var rest := c[1..];
      assert Chain(s, rest) by {
        assert forall k :: 0 <= k < |rest| ==> rest[k] == c[k + 1];
      }
      ChainAscends(s, rest);
      FirstWaitsForUser(s, c[0], c[1]);
      WaitsAscend(s, c[0], c[1]);
      BeforeTransitive(s.d, s.logs, WaitsFor(s.threads[c[0]]).value, WaitsFor(s.threads[c[1]]).value,
        WaitsFor(s.threads[c[|c| - 1]]).value);
    }
  }

  lemma {:induction false} FirstWaitsForUser(s: Server, t: Tid, r: Tid)
    requires Inv(s) && WaitsOn(s, t, r) && WaitsFor(s.threads[r]).Some?
    ensures WaitsFor(s.threads[t]).Some?
  {
    if s.threads[t].List? {
      ListOwnerIsThread(s);
    }
  }

  /** No threads wait on each other in a circle. */
  lemma {:induction false} NoCycle(s: Server, c: seq<Tid>)
    requires Inv(s) && Chain(s, c)
    ensures !WaitsOn(s, c[|c| - 1], c[0])
  {
    hide Inv, Before;
    if WaitsOn(s, c[|c| - 1], c[0]) {
      var d := c + [c[0]];
      forall k | 0 <= k < |d| - 1
        ensures WaitsOn(s, d[k], d[k + 1])
      {
        if k < |c| - 1 {
          assert WaitsOn(s, c[k], c[k + 1]);
        }
      }
      CycleWaitsForUser(s, d);
      ChainAscends(s, d);
      BeforeIrreflexive(s.d, s.logs, WaitsFor(s.threads[c[0]]).value);
    }
  }

  lemma {:induction false} CycleWaitsForUser(s: Server, d: seq<Tid>)
    requires Inv(s) && Chain(s, d) && |d| >= 2 && d[|d| - 1] == d[0]
    ensures WaitsFor(s.threads[d[0]]).Some?
  {
    hide Inv;
    assert WaitsOn(s, d[0], d[1]);
    if |d| > 2 {
      assert WaitsOn(s, d[1], d[2]);
      NotForList(s, d[0], d[1], d[2]);
    } else {
      NotForList(s, d[0], d[1], d[1]);
    }
  }

  lemma {:induction false} NotForList(s: Server, t: Tid, r: Tid, q: Tid)
    requires Inv(s) && WaitsOn(s, t, r) && WaitsOn(s, r, q)
    ensures WaitsFor(s.threads[t]).Some?
  {
    if s.threads[t].List? {
      ListIsLeaf(s, t, r, q);
    }
  }

  /** The users that come after `x`. */
  ghost function After(s: Server, x: Uid): set<Uid>
    requires x in s.d.users && x in s.logs && forall y :: y in s.d.users ==> y in s.logs
  {
    set y | y in s.d.users && Before(s.d, s.logs, x, y)
  }

  lemma {:induction false} SmallerSet<T>(a: set<T>, b: set<T>, e: T)
    requires a <= b && e in b && e !in a
    ensures |a| < |b|
  {
    SubsetSize(a, b - {e});
  }

  lemma {:induction false} AfterShrinks(s: Server, x: Uid, y: Uid)
    requires (forall z :: z in s.d.users ==> z in s.logs) && x in s.d.users && y in s.d.users &&
             Before(s.d, s.logs, x, y)
    ensures |After(s, y)| < |After(s, x)|
  {
    hide Before;
    forall z | z in After(s, y)
      ensures z in After(s, x)
    {
      BeforeTransitive(s.d, s.logs, x, y, z);
    }
    BeforeIrreflexive(s.d, s.logs, y);
    SmallerSet(After(s, y), After(s, x), y);
  }

  lemma {:induction false} AllLogged(s: Server)
    requires Inv(s)
    ensures forall y :: y in s.d.users ==> y in s.logs
  {
  }

  /** Here a chain of waiting threads ends: with a thread that can step, or one that waits for a lost mutex. */
  ghost predicate EndsAt(s: Server, t: Tid) {
    CanStep(s, t) || Jammed(s, t)
  }

  lemma {:induction false} BlockedOnUserEnds(s: Server, t: Tid, x: Uid) returns (c: seq<Tid>)
    requires Inv(s) && t < |s.threads| && WaitsFor(s.threads[t]) == Some(x) && x in s.owner
    requires x in s.d.users && x in s.logs && forall y :: y in s.d.users ==> y in s.logs
    ensures Chain(s, c) && c[0] == t && |c| >= 2 && EndsAt(s, c[|c| - 1])
    decreases |After(s, x)|
  {
    hide Inv, Before, After;
    OwnerIsThread(s, x);
    var r := s.owner[x];
    var pc := s.threads[r];
    assert WaitsOn(s, t, r);
    if Blocked(s, r) && !Jammed(s, r) {
      var q :| WaitsOn(s, r, q);
      if WaitsFor(pc).Some? {
        var y := WaitsFor(pc).value;
        HeldBeforeAwaited(s, r, x, y);
        AfterShrinks(s, x, y);
        var rest := BlockedOnUserEnds(s, r, y);
        c := [t] + rest;
      } else {
        ListIsLeafHere(s, r, q);
        c := [t, r, q];
      }
    } else {
      c := [t, r];
    }
  }

  lemma {:induction false} ListIsLeafHere(s: Server, r: Tid, q: Tid)
    requires Inv(s) && WaitsOn(s, r, q) && s.threads[r].List?
    ensures CanStep(s, q)
  {
    ListOwnerIsThread(s);
    hide Inv;
    forall p
      ensures !WaitsOn(s, q, p)
    {
      ListIsLeaf(s, r, q, p);
    }
  }

  /** Whoever is blocked waits, perhaps through others, on a thread that can step or for a lost mutex. */
  lemma {:induction false} EveryWaitEnds(s: Server, t: Tid) returns (c: seq<Tid>)
    requires Inv(s) && Blocked(s, t)
    ensures Chain(s, c) && c[0] == t && EndsAt(s, c[|c| - 1])
  {
    hide Inv;
    if Jammed(s, t) {
      return [t];
    }
    AllLogged(s);
    var r :| WaitsOn(s, t, r);
    if s.threads[t].List? {
      ListIsLeafHere(s, t, r);
      c := [t, r];
    } else {
      AwaitedExists(s, t);
      c := BlockedOnUserEnds(s, t, WaitsFor(s.threads[t]).value);
    }
  }

  // ----- Lifetime -----

  /** No thread has a handle on, owns, or waits for a deleted user, and every handle is counted. */
  ghost predicate NothingDangles(s: Server) {
    && (forall x :: x in s.d.users ==> x in s.logs && s.d.users[x].refs == AllHandles(s.threads, x) + s.logs[x].leaked)
    && (forall t, x: Uid :: 0 <= t < |s.threads| && x !in s.d.users ==> Handles(s.threads[t], x) == 0)
    && (forall x :: x in s.owner ==> x in s.d.users)
    && (forall t :: 0 <= t < |s.threads| && WaitsFor(s.threads[t]).Some? ==> WaitsFor(s.threads[t]).value in s.d.users)
  }

  lemma {:induction false} HeldExists(s: Server, x: Uid)
    requires Inv(s) && x in s.owner
    ensures x in s.d.users
  {
    OwnerIsThread(s, x);
    hide OwnersHold, ListHeld, RefsCount, WorldOk, PcOk;
    assert Named(s.d, s.logs, s.threads[s.owner[x]]);
  }

  lemma {:induction false} HandledExists(s: Server, t: Tid, x: Uid)
    requires Inv(s) && t < |s.threads| && Handles(s.threads[t], x) > 0
    ensures x in s.d.users
  {
    hide OwnersHold, ListHeld, RefsCount, WorldOk, PcOk;
    assert Named(s.d, s.logs, s.threads[t]);
  }

  /** In every run nothing dangles. */
  lemma {:induction false} Lifetime(env: Env, workers: nat, turns: seq<Turn>)
    requires forall k :: 0 <= k < |turns| ==> turns[k].t < workers + 1
    ensures NothingDangles(Run(env, Initial(workers), turns))
  {
    hide Run;
    var s := Run(env, Initial(workers), turns);
    assert RefsCount(s);
    hide Inv, RefsCount;
    AllLogged(s);
    forall x | x in s.owner
      ensures x in s.d.users
    {
      HeldExists(s, x);
    }
    forall t, x: Uid | 0 <= t < |s.threads| && x !in s.d.users
      ensures Handles(s.threads[t], x) == 0
    {
      if Handles(s.threads[t], x) > 0 {
        HandledExists(s, t, x);
      }
    }
    forall t | 0 <= t < |s.threads| && WaitsFor(s.threads[t]).Some?
      ensures WaitsFor(s.threads[t]).value in s.d.users
    {
      AwaitedExists(s, t);
    }
  }

  /** A step deletes a user only when the stepping thread gives back the last handle on it and it is disconnected;
      a user that was deleted never comes back. */
  lemma {:induction false} DeletedOnce(env: Env, s: Server, t: Tid, start: Op, x: Uid)
    requires Inv(s) && t < |s.threads|
    ensures var s' := Step(env, s, t, start);
            && (x in s.d.users && x !in s'.d.users ==>
                  && s.d.users[x].refs == 1 && s.d.users[x].state == Disconnected && Handles(s.threads[t], x) == 1
                  && AllHandles(s'.threads, x) == 0)
            && (x in s.logs ==> x in s'.logs && (x !in s.d.users ==> x !in s'.d.users))
  {
    AllLogged(s);
    assert RefsCount(s) && Alive(s, s.threads[t]);
    NextBalanced(env, s, t, start);
    var a := Next(env, s, t, start);
    assert BalancedAt(s, s.threads[t], DirAfter(s, a), LogsAfter(s, a), a.pc, x);
    hide Inv, Next, Alive, Balanced, RefsCount;
    var s' := Step(env, s, t, start);
    if x in s.d.users && x !in s'.d.users {
      forall r | 0 <= r < |s'.threads|
        ensures Handles(s'.threads[r], x) == 0
      {
        if Handles(s'.threads[r], x) > 0 {
          HandledExists(s', r, x);
        }
      }
      NoHandles(s'.threads, x);
    }
  }

  // ----- States -----

  /** The states after registration are those of users that registered, after their handshake; only such users are
      found by name; whoever is disconnected and still there has a handle on it; and the indexes agree. */
  lemma {:induction false} StatesInOrder(env: Env, workers: nat, turns: seq<Turn>, x: Uid, n: Name)
    requires forall k :: 0 <= k < |turns| ==> turns[k].t < workers + 1
    ensures var s := Run(env, Initial(workers), turns);
            && Indexed(s.d)
            && (x in s.d.users ==>
                  && x in s.logs
                  && (Registered(s.d.users[x].state) ==> s.logs[x].secured && s.logs[x].registered)
                  && (s.d.users[x].state == Disconnected ==> s.d.users[x].refs > 0)
                  && (s.d.users[x].state == SecurelyConnected && n in s.d.byName ==> s.d.byName[n] != x))
            && (n in s.d.byName ==>
                  s.d.byName[n] in s.logs && s.logs[s.d.byName[n]].registered && s.logs[s.d.byName[n]].secured)
  {
    hide Run;
    var s := Run(env, Initial(workers), turns);
    assert WorldOk(s.d, s.logs, s.clock);
    hide Inv;
    assert UserOk(s.d, s.logs, s.clock, x) && NameOk(s.d, s.logs, n);
    if n in s.d.byName {
      assert UserOk(s.d, s.logs, s.clock, s.d.byName[n]);
    }
  }

  /** The history is written in this order: the handshake, then a registration. */
  lemma {:induction false} HistoryInOrder(env: Env, s: Server, t: Tid, start: Op, x: Uid)
    requires Inv(s) && t < |s.threads| && x in s.logs
    ensures var s' := Step(env, s, t, start);
            && x in s'.logs
            && (s.logs[x].secured ==> s'.logs[x].secured) && (s.logs[x].registered ==> s'.logs[x].registered)
            && (!s.logs[x].secured && s'.logs[x].secured ==>
                  s.threads[t].SetTo? && s.threads[t].state == SecurelyConnected)
            && (!s.logs[x].registered && s'.logs[x].registered ==> s.threads[t].Decide? && s.logs[x].secured)
  {
    var pc := s.threads[t];
    assert Alive(s, pc) && PcOk(s.d, s.logs, pc);
    NextHistory(env, s, t, start, x);
    PerformLogs(s, t, Next(env, s, t, start));
    hide Inv, Next, Perform, PcOk, Alive, LogsAfter;
  }

  lemma {:induction false} PerformLogs(s: Server, t: Tid, a: Act)
    requires t < |s.threads|
    ensures Perform(s, t, a).logs == LogsAfter(s, a)
  {
  }

  lemma {:induction false} WriteHistory(env: Env, s: Server, t: Tid, start: Op, x: Uid)
    requires t < |s.threads| && Indexed(s.d) && Alive(s, s.threads[t]) && Writes(s.threads[t]) && x in s.logs
    requires s.threads[t].Decide? ==> s.logs[s.threads[t].u].secured
    ensures var pc, logs := s.threads[t], LogsAfter(s, Next(env, s, t, start));
            && x in logs
            && (s.logs[x].secured ==> logs[x].secured) && (s.logs[x].registered ==> logs[x].registered)
            && (!s.logs[x].secured && logs[x].secured ==> pc.SetTo? && pc.state == SecurelyConnected)
            && (!s.logs[x].registered && logs[x].registered ==> pc.Decide? && s.logs[x].secured)
  {
    hide Indexed;
  }

  ghost predicate Unwritten(s: Server, logs: map<Uid, Log>, x: Uid) {
    x in s.logs ==> x in logs && logs[x].secured == s.logs[x].secured && logs[x].registered == s.logs[x].registered
  }

  lemma {:induction false} ListOpHistory(s: Server, op: Op, x: Uid)
    requires Indexed(s.d) && Alive(s, List(op, true))
    ensures Unwritten(s, LogsAfter(s, ListOp(s, op)), x)
  {
    hide Indexed, Add, Yield, AddRef;
  }

  lemma {:induction false} NextHistory(env: Env, s: Server, t: Tid, start: Op, x: Uid)
    requires Inv(s) && t < |s.threads| && x in s.logs && Alive(s, s.threads[t]) && PcOk(s.d, s.logs, s.threads[t])
    ensures var pc, logs := s.threads[t], LogsAfter(s, Next(env, s, t, start));
            && x in logs
            && (s.logs[x].secured ==> logs[x].secured) && (s.logs[x].registered ==> logs[x].registered)
            && (!s.logs[x].secured && logs[x].secured ==> pc.SetTo? && pc.state == SecurelyConnected)
            && (!s.logs[x].registered && logs[x].registered ==> pc.Decide? && s.logs[x].secured)
  {
    var pc := s.threads[t];
    assert Indexed(s.d);
    assert pc.Decide? ==> s.logs[pc.u].secured;
    hide Inv, Indexed, ListOp, Select, NextOfTwo, PcOk, Write1;
    if Writes(pc) {
      WriteHistory(env, s, t, start, x);
    } else if pc.List? && pc.entered {
      ListOpHistory(s, pc.op, x);
    } else if OfTwo(pc) {
      OfTwoHistory(env, s, pc);
    }
  }

  lemma {:induction false} OfTwoHistory(env: Env, s: Server, pc: Pc)
    requires OfTwo(pc) && Alive(s, pc)
    ensures LogsAfter(s, NextOfTwo(env, s, pc)) == s.logs
  {
    hide NameLess, OutcomeOf, PutsOf;
  }

  // ----- When somebody who stays is no longer found -----

  /** The user whose handle a thread is giving back inside the list's mutex. */
  function GivenBack(pc: Pc): Option<Uid> {
    if !Inside(pc) then None
    else match pc.op
      case YieldOther(_, v, _) => Some(v)
      case YieldUser(u) => Some(u)
      case _ => None
  }

  /** No entry is lost or redirected, and nobody goes away. */
  ghost predicate EntriesStay(d: Directory, d': Directory) {
    && (forall n :: n in d.byName ==> n in d'.byName && d'.byName[n] == d.byName[n])
    && (forall x :: x in d.users ==> x in d'.users)
  }

  lemma {:induction false} ListOpEntries(s: Server, op: Op)
    requires Indexed(s.d) && Alive(s, List(op, true))
    ensures match GivenBack(List(op, true))
            case None => EntriesStay(s.d, DirAfter(s, ListOp(s, op)))
            case Some(x) => x in s.d.users && s.d.users[x].refs > 0 && DirAfter(s, ListOp(s, op)) == Yield(s.d, x)
  {
    assert forall n :: n in s.d.byName ==> s.d.byName[n] in s.d.users;
    assert forall k :: k in s.d.byFd ==> s.d.byFd[k] in s.d.users;
    hide Indexed, Yield;
  }

  lemma {:induction false} OfTwoEntries(env: Env, s: Server, pc: Pc)
    requires OfTwo(pc) && Alive(s, pc)
    ensures EntriesStay(s.d, DirAfter(s, NextOfTwo(env, s, pc)))
  {
    hide NameLess, OutcomeOf, PutsOf;
  }

  lemma {:induction false} WriteEntries(env: Env, s: Server, t: Tid, start: Op)
    requires t < |s.threads| && Indexed(s.d) && Alive(s, s.threads[t]) && Writes(s.threads[t])
    ensures EntriesStay(s.d, DirAfter(s, Next(env, s, t, start)))
  {
    hide Indexed;
  }

  lemma {:induction false} NextEntries(env: Env, s: Server, t: Tid, start: Op)
    requires t < |s.threads| && Indexed(s.d) && Alive(s, s.threads[t])
    ensures match GivenBack(s.threads[t])
            case None => EntriesStay(s.d, DirAfter(s, Next(env, s, t, start)))
            case Some(x) =>
              x in s.d.users && s.d.users[x].refs > 0 && DirAfter(s, Next(env, s, t, start)) == Yield(s.d, x)
  {
    hide Indexed, ListOp, Select, NextOfTwo, Write1, Yield, Alive;
    var pc := s.threads[t];
    if Inside(pc) {
      ListOpEntries(s, pc.op);
    } else if OfTwo(pc) {
      OfTwoEntries(env, s, pc);
    } else if Writes(pc) {
      WriteEntries(env, s, t, start);
    }
  }

  lemma {:induction false} PerformDir(s: Server, t: Tid, a: Act)
    requires t < |s.threads|
    ensures Perform(s, t, a).d == DirAfter(s, a)
  {
  }

  /** In every state of every run, the steps after which a user that stays is no longer found: exactly those in which
      the last handle on a disconnected user is given back that has the same name without being the one found by it.
      No step redirects an entry. */
  lemma {:induction false} EntryLostExactly(env: Env, s: Server, t: Tid, start: Op, n: Name)
    requires Inv(s) && t < |s.threads| && n in s.d.byName
    ensures var d' := Step(env, s, t, start).d;
            && (n in d'.byName ==> d'.byName[n] == s.d.byName[n])
            && (n !in d'.byName && s.d.byName[n] in d'.users <==>
                  match GivenBack(s.threads[t])
                  case None => false
                  case Some(x) =>
                    && x in s.d.users && s.d.users[x].refs == 1 && s.d.users[x].state == Disconnected
                    && s.d.users[x].name == n && s.d.byName[n] != x)
  {
    assert Indexed(s.d) && Alive(s, s.threads[t]);
    NextEntries(env, s, t, start);
    PerformDir(s, t, Next(env, s, t, start));
    EntryFound(s.d, n);
    hide Inv, Indexed, Next, Perform, Yield, Alive;
    if GivenBack(s.threads[t]).Some? {
      YieldLosesExactly(s.d, GivenBack(s.threads[t]).value, n);
    }
  }

  lemma {:induction false} EntryFound(d: Directory, n: Name)
    requires Indexed(d) && n in d.byName
    ensures d.byName[n] in d.users
  {
  }

  /** Whoever takes another's entry along has never been entered into the index, or before the other one. */
  lemma {:induction false} TakerIsEarlier(s: Server, x: Uid, n: Name)
    requires Inv(s) && n in s.d.byName && x in s.d.users && s.d.users[x].name == n && s.d.byName[n] != x
    ensures x in s.logs && s.d.byName[n] in s.logs && s.logs[x].stamp < s.logs[s.d.byName[n]].stamp
  {
    assert NameOk(s.d, s.logs, n);
    assert Newest(s.d, s.logs, n, x);
    AllLogged(s);
    hide Inv;
  }
}
