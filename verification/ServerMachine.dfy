// The main loop and the workers of the server, interleaved at every lock and every shared write.

module ServerMachine {
  import opened Bytes
  import opened Directory
  import opened Handlers

  type Tid = nat

  // ----- Threads -----

  /** What a worker will do once it has locked two users. */
  datatype Job = Challenging(name: Name, o: Oracle) | Responding(accept: bool, port: uint16, o: Oracle)

  /** One write to a locked user: `other` for the one that was looked up. */
  datatype Put = PutState(other: bool, state: UserState) | PutOpponent(other: bool, opponent: Name)

  function Puts(other: bool, c: Change): seq<Put> {
    match c
    case Keep => []
    case To(state) => [PutState(other, state)]
    case Duel(opponent) => [PutState(other, Challenged), PutOpponent(other, opponent)]
  }

  /** The writes of a handler in their order: the sender first, unless both are gone. */
  function PutsOf(out: Outcome): seq<Put> {
    if out.u == To(Disconnected) && out.v == To(Disconnected) then Puts(true, out.v) + Puts(false, out.u)
    else Puts(false, out.u) + Puts(true, out.v)
  }

  function PutOne(d: Directory, u: Uid, v: Uid, p: Put): (r: Directory)
    requires u in d.users && v in d.users
    ensures r.users.Keys == d.users.Keys
  {
    var x := if p.other then v else u;
    match p
    case PutState(_, state) => SetState(d, x, state)
    case PutOpponent(_, opponent) => d.(users := d.users[x := d.users[x].(opponent := opponent)])
  }

  /** A call of a UserList method, with what its caller needs afterwards. */
  datatype Op =
    | Fetch(fd: int, e: Event, o: Oracle)     // a worker looks up the sender of its message
    | Poll(fd: int, broken: bool)             // the main loop looks up the user whose socket is ready
    | Accept(u: Uid, fd: int)                 // the main loop adds a new user
    | Exists(u: Uid, name: Name)
    | Index(u: Uid)                           // the user is added again, with its name
    | Find(u: Uid, name: Name, job: Job)
    | ListUsers(u: Uid, ok: bool)
    | YieldOther(u: Uid, v: Uid, res: bool)
    | YieldUser(u: Uid)

  datatype Pc =
    | Idle
    | List(op: Op, entered: bool)             // waits for the list's mutex, or holds it
    | Lock(u: Uid, e: Event, o: Oracle)       // waits for u
    | Dispatch(u: Uid, e: Event, o: Oracle)   // holds u, about to read its state
    | SetTo(u: Uid, state: UserState, res: bool)
    | Rename(u: Uid, name: Name)
    | Decide(u: Uid, taken: bool)             // holds u, knows whether its new name is taken
    | Pair(u: Uid, v: Uid, job: Job)          // holds u, about to take v
    | WaitOther(u: Uid, v: Uid, job: Job)     // holds u, waits for v
    | WaitFirst(u: Uid, v: Uid, job: Job)     // holds none, waits for v
    | WaitSecond(u: Uid, v: Uid, job: Job)    // holds v, waits for u
    | Both(u: Uid, v: Uid, job: Job)          // holds both, about to read u's state
    | Seen(u: Uid, v: Uid, job: Job, state: UserState) // holds both, has read u's state, about to read v's
    | Commit(u: Uid, v: Uid, puts: seq<Put>, res: bool) // holds both, about to write the first of these
    | Unpair(u: Uid, v: Uid, res: bool)       // holds both, about to release v
    | Unpair2(u: Uid, v: Uid, res: bool)      // holds v, has released u
    | Relock(u: Uid, v: Uid, res: bool)       // holds none, waits for u
    | Finish(u: Uid, res: bool)               // holds u, about to release it
    | Finished(u: Uid, res: bool)             // holds none, about to disconnect u if the result is false
    | Polled(u: Uid, broken: bool)            // the main loop, about to read u's state

  /** The user whose handle a thread got first. */
  function User1(pc: Pc): Option<Uid> {
    match pc
    case Idle => None
    case List(op, _) => (match op
      case Fetch(_, _, _) => None
      case Poll(_, _) => None
      case Accept(_, _) => None
      case Exists(u, _) => Some(u)
      case Index(u) => Some(u)
      case Find(u, _, _) => Some(u)
      case ListUsers(u, _) => Some(u)
      case YieldOther(u, _, _) => Some(u)
      case YieldUser(u) => Some(u))
    case _ => Some(pc.u)
  }

  function User2(pc: Pc): Option<Uid> {
    if pc.List? && pc.op.YieldOther? then Some(pc.op.v)
    else if OfTwo(pc) then Some(pc.v)
    else None
  }

  /** On the way to or from two locked users. */
  predicate OfTwo(pc: Pc) {
    || pc.Pair? || pc.WaitOther? || pc.WaitFirst? || pc.WaitSecond? || pc.Both? || pc.Seen? || pc.Commit?
    || pc.Unpair? || pc.Unpair2? || pc.Relock?
  }

  /** The user mutexes that a thread holds at this point. */
  predicate HoldsLock(pc: Pc, x: Uid) {
    || (User1(pc) == Some(x) && HoldsFirst(pc))
    || (User2(pc) == Some(x) && (pc.WaitSecond? || pc.Both? || pc.Seen? || pc.Commit? || pc.Unpair? || pc.Unpair2?))
  }

  predicate HoldsFirst(pc: Pc) {
    || pc.Dispatch? || pc.SetTo? || pc.Rename? || pc.Decide? || pc.Pair? || pc.WaitOther? || pc.Both? || pc.Seen?
    || pc.Commit? || pc.Unpair? || pc.Finish?
    || (pc.List? && (pc.op.Exists? || pc.op.Index? || pc.op.Find? || pc.op.ListUsers? || pc.op.YieldOther?))
  }

  /** The user mutex that a thread is about to take. */
  function WaitsFor(pc: Pc): Option<Uid> {
    match pc
    case Lock(u, _, _) => Some(u)
    case WaitOther(_, v, _) => Some(v)
    case WaitFirst(_, v, _) => Some(v)
    case WaitSecond(u, _, _) => Some(u)
    case Relock(u, _, _) => Some(u)
    case _ => None
  }

  function One(a: Option<Uid>, x: Uid): nat {
    if a == Some(x) then 1 else 0
  }

  /** How many handles on `x` a thread has. */
  function Handles(pc: Pc, x: Uid): nat {
    One(User1(pc), x) + One(User2(pc), x)
  }

  function AllHandles(threads: seq<Pc>, x: Uid): nat {
    if threads == [] then 0 else Handles(threads[0], x) + AllHandles(threads[1..], x)
  }

  // ----- The server -----

  /** What happened to a user so far; kept after its deletion. `stamp` orders the entries into the index of names,
      0 for none; `leaked` counts handles that were never given back. */
  datatype Log = Log(secured: bool, registered: bool, stamp: nat, leaked: nat)

  /** `owner` tells who holds a user's mutex and will release it; `lost` are the users whose mutex was left locked. */
  datatype Server = Server(
    d: Directory, logs: map<Uid, Log>, clock: nat, owner: map<Uid, Tid>, lost: set<Uid>, list: Option<Tid>,
    threads: seq<Pc>)

  /** What a thread does next: a step of its own, taking, releasing or forgetting a mutex, a write to shared data,
      or what a UserList method does inside its mutex, which is then released. */
  datatype Act =
    | Move(pc: Pc)
    | Acquire(x: Uid, pc: Pc)
    | Release(x: Uid, pc: Pc)
    | Abandon(x: Uid, pc: Pc)
    | Enter(pc: Pc)
    | Write(d: Directory, logs: map<Uid, Log>, pc: Pc)
    | Exec(d: Directory, logs: map<Uid, Log>, clock: nat, pc: Pc)

  function Write1(s: Server, u: Uid, user: User, log: Log, pc: Pc): Act {
    Write(s.d.(users := s.d.users[u := user]), s.logs[u := log], pc)
  }

  /** The handler that the state of the sender selects. */
  function Select(env: Env, user: User, u: Uid, e: Event, o: Oracle): Pc
    requires !e.Dropped?
  {
    if e.Raised? then Finish(u, false)
    else match user.state
      case JustConnected => (match e
        case Hello(ok) => Finish(u, ok)
        case Verify(ok) => SetTo(u, if ok then SecurelyConnected else Disconnected, ok)
        case CertificateRequest => if o.Ok(0) then Finish(u, true) else SetTo(u, Disconnected, false)
        case _ => Finish(u, true))
      case SecurelyConnected =>
        if !e.Register? then Finish(u, true) else if e.name == env.ownName then Finish(u, false) else Rename(u, e.name)
      case Available =>
        if e.Challenge? then List(Find(u, e.name, Challenging(e.name, o)), false)
        else if e.ListRequest? then List(ListUsers(u, o.Ok(0)), false)
        else Finish(u, true)
      case Challenged =>
        if e.Response? then List(Find(u, user.opponent, Responding(e.accept, e.port, o)), false) else Finish(u, true)
      case Playing => if e.EndOfGame? then SetTo(u, Available, true) else Finish(u, true)
      case Disconnected => Finish(u, true)
  }

  function OutcomeOf(env: Env, i: Uid, j: Uid, u: User, v: User, job: Job): Outcome {
    match job
    case Challenging(name, o) => ChallengeBoth(i, j, u, v, name, o)
    case Responding(accept, port, o) => RespondBoth(env, i, j, u, v, accept, port, o)
  }

  /** Where a handler goes on when there is no other user to lock. */
  function NotFound(u: Uid, job: Job): Pc {
    match job
    case Challenging(_, o) => Finish(u, o.Ok(0))
    case Responding(_, _, o) => SetTo(u, Available, o.Ok(0))
  }

  /** Inside the list's mutex. */
  function ListOp(s: Server, op: Op): Act
    requires Indexed(s.d)
    requires User1(List(op, true)).Some? ==>
               User1(List(op, true)).value in s.d.users && User1(List(op, true)).value in s.logs
    requires User2(List(op, true)).Some? ==> User2(List(op, true)).value in s.d.users
    requires op.YieldOther? ==> s.d.users[op.v].refs > 0
    requires op.YieldUser? ==> s.d.users[op.u].refs > 0
  {
    match op
    case Fetch(fd, e, o) =>
      var (d, found) := GetByFd(s.d, fd);
      Exec(d, s.logs, s.clock, if found == None then Idle else Lock(found.value, e, o))
    case Poll(fd, broken) =>
      var (d, found) := GetByFd(s.d, fd);
      Exec(d, s.logs, s.clock, if found == None then Idle else Polled(found.value, broken))
    case Accept(u, fd) =>
      if u in s.logs || exists w :: w in s.d.users && s.d.users[w].fd == fd then Exec(s.d, s.logs, s.clock, Idle)
      else
        var d := s.d.(users := s.d.users[u := User(fd, [], JustConnected, [], 0)]);
        Exec(Add(d, u).0, s.logs[u := Log(false, false, 0, 0)], s.clock, Idle)
    case Exists(u, name) =>
      Exec(s.d, s.logs, s.clock, Decide(u, name in s.d.byName))
    case Index(u) =>
      var (d, ok) := Add(s.d, u);
      var name := s.d.users[u].name;
      if ok && name != [] && name !in s.d.byName then
        Exec(d, s.logs[u := s.logs[u].(stamp := s.clock + 1)], s.clock + 1, Finish(u, true))
      else Exec(d, s.logs, s.clock, Finish(u, true))
    case Find(u, name, job) =>
      var (d, found) := GetByName(s.d, name);
      if found == None then Exec(d, s.logs, s.clock, NotFound(u, job))
      else if found == Some(u) then
        Exec(d, s.logs[u := s.logs[u].(leaked := s.logs[u].leaked + 1)], s.clock, NotFound(u, job))
      else Exec(d, s.logs, s.clock, Pair(u, found.value, job))
    case ListUsers(u, ok) => Exec(s.d, s.logs, s.clock, Finish(u, ok))
    case YieldOther(u, v, res) => Exec(Yield(s.d, v), s.logs, s.clock, Finish(u, res))
    case YieldUser(u) => Exec(Yield(s.d, u), s.logs, s.clock, Idle)
  }

  /** The users that a thread names exist, and it has handles on them. */
  ghost predicate Alive(s: Server, pc: Pc) {
    && (User1(pc).Some? ==>
          User1(pc).value in s.d.users && User1(pc).value in s.logs && s.d.users[User1(pc).value].refs > 0)
    && (User2(pc).Some? ==>
          User2(pc).value in s.d.users && User2(pc).value in s.logs && s.d.users[User2(pc).value].refs > 0)
    && (User2(pc).Some? ==> User1(pc) != User2(pc))
  }

  /** doubleLock, what is done with both users locked, and doubleUnlock. */
  ghost function NextOfTwo(env: Env, s: Server, pc: Pc): (a: Act)
    requires OfTwo(pc) && Alive(s, pc)
    ensures !a.Abandon? && !a.Enter? && !a.Exec?
  {
    match pc
    case Pair(u, v, job) =>
      if NameLess(s.d.users[v].name, s.d.users[u].name) then Release(u, WaitFirst(u, v, job))
      else Move(WaitOther(u, v, job))
    case WaitOther(u, v, job) => Acquire(v, Both(u, v, job))
    case WaitFirst(u, v, job) => Acquire(v, WaitSecond(u, v, job))
    case WaitSecond(u, v, job) => Acquire(u, Both(u, v, job))
    case Both(u, v, job) => Move(Seen(u, v, job, s.d.users[u].state))
    case Seen(u, v, job, state) =>
      var out := OutcomeOf(env, u, v, s.d.users[u].(state := state), s.d.users[v], job);
      Move(Commit(u, v, PutsOf(out), out.res))
    case Commit(u, v, puts, res) =>
      if puts == [] then Move(Unpair(u, v, res))
      else Write(PutOne(s.d, u, v, puts[0]), s.logs, Commit(u, v, puts[1..], res))
    case Unpair(u, v, res) =>
      if NameLess(s.d.users[v].name, s.d.users[u].name) then Release(u, Unpair2(u, v, res))
      else Release(v, List(YieldOther(u, v, res), false))
    case Unpair2(u, v, res) => Release(v, Relock(u, v, res))
    case Relock(u, v, res) => Acquire(u, List(YieldOther(u, v, res), false))
  }

  /** What thread `t` does next; an idle thread starts with `start`: the main loop, thread 0, with a socket,
      a worker with a message. */
  ghost function Next(env: Env, s: Server, t: Tid, start: Op): Act
    requires t < |s.threads| && Indexed(s.d) && Alive(s, s.threads[t])
  {
    var pc := s.threads[t];
    match pc
    case Idle =>
      Move(if (if t == 0 then start.Poll? || start.Accept? else start.Fetch?) then List(start, false) else Idle)
    case List(op, entered) => if entered then ListOp(s, op) else Enter(List(op, true))
    case Lock(u, e, o) => Acquire(u, Dispatch(u, e, o))
    case Dispatch(u, e, o) =>
      if e.Dropped? then Abandon(u, Finished(u, false)) else Move(Select(env, s.d.users[u], u, e, o))
    case SetTo(u, state, res) =>
      Write1(s, u, s.d.users[u].(state := state),
             if state == SecurelyConnected then s.logs[u].(secured := true) else s.logs[u], Finish(u, res))
    case Rename(u, name) => Write1(s, u, s.d.users[u].(name := name), s.logs[u], List(Exists(u, name), false))
    case Decide(u, taken) =>
      Write1(s, u, s.d.users[u].(state := if taken then Disconnected else Available), s.logs[u].(registered := true),
             if taken then Finish(u, false) else List(Index(u), false))
    case Finish(u, res) => Release(u, Finished(u, res))
    case Finished(u, res) =>
      if res then Move(List(YieldUser(u), false))
      else Write1(s, u, s.d.users[u].(state := Disconnected), s.logs[u], List(YieldUser(u), false))
    case Polled(u, broken) =>
      Move(if s.d.users[u].state == Disconnected then List(YieldUser(u), false) else Finished(u, !broken))
    case _ => NextOfTwo(env, s, pc)
  }

  /** A thread that would take a mutex that is not free stays where it is. */
  function Perform(s: Server, t: Tid, a: Act): (s': Server)
    requires t < |s.threads|
    ensures |s'.threads| == |s.threads|
  {
    match a
    case Move(pc) => s.(threads := s.threads[t := pc])
    case Acquire(x, pc) =>
      if x in s.owner || x in s.lost then s else s.(threads := s.threads[t := pc], owner := s.owner[x := t])
    case Release(x, pc) => s.(threads := s.threads[t := pc], owner := Remove(s.owner, x))
    case Abandon(x, pc) => s.(threads := s.threads[t := pc], owner := Remove(s.owner, x), lost := s.lost + {x})
    case Enter(pc) => if s.list.Some? then s else s.(threads := s.threads[t := pc], list := Some(t))
    case Write(d, logs, pc) => s.(threads := s.threads[t := pc], d := d, logs := logs)
    case Exec(d, logs, clock, pc) =>
      s.(threads := s.threads[t := pc], d := d, logs := logs, clock := clock, list := None)
  }
}
