// What the server does with one message of one user, as functions of the directory.

module Handlers {
  import opened Bytes
  import opened Messages
  import opened Directory
  import opened Listing

  /** What does not change while the server runs: the clients' certificates, the address at each descriptor,
      and the server's own certificate with the name in it. */
  datatype Env = Env(certs: map<Name, Cert>, address: int -> uint32, ownName: Name, ownCert: Cert)

  /** A message that the server tried to send, and whether the socket took it. */
  datatype Sent = Sent(to: Uid, m: Message, ok: bool)

  /** How the environment answers: the outcome of each send in order, and what the uninitialised result holds. */
  datatype Oracle = Oracle(sends: seq<bool>, junk: bool)
  {
    predicate Ok(k: nat) {
      k < |sends| ==> sends[k]
    }
  }

  /** What handleMsg ends with: a message, for the handshake also how its handler ends; no message; or an exception. */
  datatype Event =
    | Hello(ok: bool)
    | Verify(ok: bool)
    | CertificateRequest
    | Register(name: Name)
    | Challenge(name: Name)
    | ListRequest(offset: uint32)
    | Response(accept: bool, port: uint16)
    | EndOfGame
    | Unexpected
    | Dropped
    | Raised

  // ----- Two users, both locked -----

  /** What a handler writes to a locked user: nothing, a state, or a challenge with an opponent. */
  datatype Change = Keep | To(state: UserState) | Duel(opponent: Name)

  function Changed(user: User, c: Change): (r: User)
    ensures r.fd == user.fd && r.name == user.name && r.refs == user.refs
  {
    match c
    case Keep => user
    case To(state) => user.(state := state)
    case Duel(opponent) => user.(state := Challenged, opponent := opponent)
  }

  /** What is written to the two users, what was sent, and the handler's result. */
  datatype Outcome = Outcome(u: Change, v: Change, sent: seq<Sent>, res: bool)

  function GameStartFor(env: Env, other: User, port: uint16): Message
    requires other.name in env.certs
  {
    GameStart(other.name, SockAddr(env.address(other.fd), port), env.certs[other.name])
  }

  function Gone(ok: bool): Change {
    To(if ok then Available else Disconnected)
  }

  /** handleChallengeMessage, once `u` and the challenged `v` are locked. */
  function ChallengeBoth(i: Uid, j: Uid, u: User, v: User, name: Name, o: Oracle): Outcome {
    var cancel := Sent(i, GameCancel(name), o.Ok(0));
    if u.state != Available then Outcome(Keep, Keep, [], true)
    else if v.state != Available then Outcome(Keep, Keep, [cancel], o.Ok(0))
    else
      var forward := Sent(j, ChallengeForward(u.name), o.Ok(0));
      if o.Ok(0) then Outcome(Duel(v.name), Duel(u.name), [forward], true)
      else Outcome(Keep, To(Disconnected), [forward, cancel.(ok := o.Ok(1))], o.Ok(1))
  }

  /** handleChallengeResponseMessage, once `u` and its opponent `v` are locked. */
  function RespondBoth(env: Env, i: Uid, j: Uid, u: User, v: User, accept: bool, port: uint16, o: Oracle): Outcome {
    if !accept then Outcome(To(Available), Gone(o.Ok(0)), [Sent(j, GameCancel(u.name), o.Ok(0))], o.junk)
    else if u.state != Challenged then Outcome(Keep, Keep, [], true)
    else if v.state != Challenged then Outcome(Keep, Keep, [Sent(i, GameCancel(v.name), o.Ok(0))], o.Ok(0))
    else if v.name !in env.certs || u.name !in env.certs then Outcome(Keep, Keep, [], false)
    else
      var starts := [Sent(i, GameStartFor(env, v, 0), o.Ok(0)), Sent(j, GameStartFor(env, u, port), o.Ok(1))];
      if o.Ok(0) && o.Ok(1) then Outcome(To(Playing), To(Playing), starts, true)
      else if !o.Ok(0) && !o.Ok(1) then Outcome(To(Disconnected), To(Disconnected), starts, false)
      else if !o.Ok(0) then Outcome(Keep, Gone(o.Ok(2)), starts + [Sent(j, GameCancel(u.name), o.Ok(2))], o.junk)
      else Outcome(Gone(o.Ok(2)), Keep, starts + [Sent(i, GameCancel(v.name), o.Ok(2))], o.Ok(2))
  }

  // ----- One message -----

  /** The directory afterwards, what was sent, and the handler's result. */
  datatype Reply = Reply(d: Directory, sent: seq<Sent>, res: bool)

  function SetState(d: Directory, u: Uid, state: UserState): (r: Directory)
    requires u in d.users
    ensures r.users.Keys == d.users.Keys
  {
    d.(users := d.users[u := d.users[u].(state := state)])
  }

  function HandleRegister(env: Env, d: Directory, u: Uid, name: Name): Reply
    requires u in d.users
  {
    if name == env.ownName then Reply(d, [], false)
    else
      var named := d.(users := d.users[u := d.users[u].(name := name)]);
      if name in named.byName then Reply(SetState(named, u, Disconnected), [], false)
      else Reply(Add(SetState(named, u, Available), u).0, [], true)
  }

  function Both(d: Directory, u: Uid, v: Uid, out: Outcome): Reply
    requires u in d.users && v in d.users && d.users[v].refs > 0 && u != v
  {
    Reply(Yield(ChangeBoth(d, u, v, out), v), out.sent, out.res)
  }

  function ChangeOne(d: Directory, u: Uid, c: Change): (r: Directory)
    requires u in d.users
    ensures r.users.Keys == d.users.Keys
  {
    d.(users := d.users[u := Changed(d.users[u], c)])
  }

  function ChangeBoth(d: Directory, u: Uid, v: Uid, out: Outcome): Directory
    requires u in d.users && v in d.users && u != v
  {
    d.(users := d.users[u := Changed(d.users[u], out.u)][v := Changed(d.users[v], out.v)])
  }

  function HandleChallenge(d: Directory, u: Uid, name: Name, o: Oracle): Reply
    requires u in d.users && Indexed(d)
  {
    var (d', found) := GetByName(d, name);
    if found == None || found == Some(u) then Reply(d', [Sent(u, GameCancel(name), o.Ok(0))], o.Ok(0))
    else
      var v := found.value;
      Both(d', u, v, ChallengeBoth(u, v, d'.users[u], d'.users[v], name, o))
  }

  function HandleResponse(env: Env, d: Directory, u: Uid, accept: bool, port: uint16, o: Oracle): Reply
    requires u in d.users && Indexed(d)
  {
    var name := d.users[u].opponent;
    var (d', found) := GetByName(d, name);
    if found == None || found == Some(u) then
      Reply(SetState(d', u, Available), [Sent(u, GameCancel(name), o.Ok(0))], o.Ok(0))
    else
      var v := found.value;
      Both(d', u, v, RespondBoth(env, u, v, d'.users[u], d'.users[v], accept, port, o))
  }

  /** The offset is received unsigned and used as a signed integer. */
  function Signed(n: uint32): int {
    if n < 0x8000_0000 then n else n - 0x1_0000_0000
  }

  ghost function HandleListRequest(d: Directory, u: Uid, offset: uint32, o: Oracle): Reply
    requires Indexed(d)
  {
    Reply(d, [Sent(u, UsersList(Listed(Offered(d), Signed(offset))), o.Ok(0))], o.Ok(0))
  }

  /** The messages of a user that has just connected. */
  function Welcome(env: Env, d: Directory, u: Uid, e: Event, o: Oracle): Reply
    requires u in d.users
  {
    match e
    case Hello(ok) => Reply(d, [], ok)
    case Verify(ok) => Reply(SetState(d, u, if ok then SecurelyConnected else Disconnected), [], ok)
    case CertificateRequest =>
      Reply(if o.Ok(0) then d else SetState(d, u, Disconnected), [Sent(u, Certificate(env.ownCert), o.Ok(0))], o.Ok(0))
    case _ => Reply(d, [], true)
  }

  /** handleMessage: which messages are handled depends on the state of their sender. */
  ghost function Handle(env: Env, d: Directory, u: Uid, e: Event, o: Oracle): Reply
    requires u in d.users && Indexed(d)
  {
    var quiet := Reply(d, [], true);
    if e.Raised? || e.Dropped? then quiet.(res := false)
    else match d.users[u].state
      case JustConnected => Welcome(env, d, u, e, o)
      case SecurelyConnected => if e.Register? then HandleRegister(env, d, u, e.name) else quiet
      case Available =>
        if e.Challenge? then HandleChallenge(d, u, e.name, o)
        else if e.ListRequest? then HandleListRequest(d, u, e.offset, o)
        else quiet
      case Challenged => if e.Response? then HandleResponse(env, d, u, e.accept, e.port, o) else quiet
      case Playing => if e.EndOfGame? then Reply(SetState(d, u, Available), [], true) else quiet
      case Disconnected => quiet
  }

  /** One round of a worker, alone: finds the user, handles the message, and gives the user back. */
  ghost function Work(env: Env, d: Directory, fd: int, e: Event, o: Oracle): (Directory, seq<Sent>)
    requires Indexed(d)
  {
    var (d0, found) := GetByFd(d, fd);
    if found == None then (d0, [])
    else
      var u := found.value;
      GetKeeps(d, [], fd);
      var r := Handle(env, d0, u, e, o);
      HandleHolds(env, d0, u, e, o);
      (Yield(if r.res then r.d else SetState(r.d, u, Disconnected), u), r.sent)
  }

  // ----- What handling keeps -----

  lemma {:induction false} SetStateKeeps(d: Directory, u: Uid, state: UserState)
    requires Indexed(d) && u in d.users
    ensures Indexed(SetState(d, u, state))
  {
    hide FdsDiffer;
    FewerUsers(d, SetState(d, u, state));
  }

  /** A user whose name no index entry uses yet may be renamed. */
  lemma {:induction false} RenameKeeps(d: Directory, u: Uid, name: Name)
    requires Indexed(d) && u in d.users && forall n :: n in d.byName ==> d.byName[n] != u
    ensures Indexed(d.(users := d.users[u := d.users[u].(name := name)]))
  {
    hide FdsDiffer;
    FewerUsers(d, d.(users := d.users[u := d.users[u].(name := name)]));
  }

  /** The user whose message is handled keeps its handle and stays. */
  ghost predicate Stays(d: Directory, u: Uid, r: Directory)
    requires u in d.users
  {
    u in r.users && r.users[u].refs >= d.users[u].refs
  }

  lemma {:induction false} BothStays(d: Directory, u: Uid, v: Uid, out: Outcome)
    requires u in d.users && v in d.users && d.users[v].refs > 0 && u != v
    ensures Stays(d, u, Both(d, u, v, out).d)
  {
  }

  lemma {:induction false} ChallengeStays(d: Directory, u: Uid, name: Name, o: Oracle)
    requires u in d.users && Indexed(d)
    ensures Stays(d, u, HandleChallenge(d, u, name, o).d)
  {
    hide Both;
    var (d', found) := GetByName(d, name);
    if found.Some? && found.value != u {
      BothStays(d', u, found.value, ChallengeBoth(u, found.value, d'.users[u], d'.users[found.value], name, o));
    }
  }

  lemma {:induction false} ResponseStays(env: Env, d: Directory, u: Uid, accept: bool, port: uint16, o: Oracle)
    requires u in d.users && Indexed(d)
    ensures Stays(d, u, HandleResponse(env, d, u, accept, port, o).d)
  {
    hide Both;
    var (d', found) := GetByName(d, d.users[u].opponent);
    if found.Some? && found.value != u {
      BothStays(d', u, found.value,
        RespondBoth(env, u, found.value, d'.users[u], d'.users[found.value], accept, port, o));
    }
  }

  lemma {:induction false} HandleHolds(env: Env, d: Directory, u: Uid, e: Event, o: Oracle)
    requires u in d.users && Indexed(d)
    ensures Stays(d, u, Handle(env, d, u, e, o).d)
  {
    hide Indexed, HandleChallenge, HandleResponse, Listed, Offered;
    if d.users[u].state == Available && e.Challenge? {
      ChallengeStays(d, u, e.name, o);
    } else if d.users[u].state == Challenged && e.Response? {
      ResponseStays(env, d, u, e.accept, e.port, o);
    }
  }
}
