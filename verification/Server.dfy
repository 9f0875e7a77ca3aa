// The handlers of the server as they run: on the shared list of users, on user objects, and on their sockets.

module Server {
  import opened Bytes
  import opened Messages
  import D = Directory
  import L = UserList
  import H = Handlers

  /** The sockets during one message: answers sends as the oracle says, and records them. */
  class Wire {
    const o: H.Oracle
    var log: seq<H.Sent>

    constructor (o: H.Oracle)
      ensures this.o == o && log == []
    {
      this.o := o;
      log := [];
    }

    method Send(to: D.Uid, m: Message) returns (ok: bool)
      modifies this
      ensures ok == o.Ok(|old(log)|) && log == old(log) + [H.Sent(to, m, ok)]
    {
      ok := o.Ok(|log|);
      log := log + [H.Sent(to, m, ok)];
    }
  }

  class Server {
    const list: L.UserList
    const env: H.Env

    constructor (list: L.UserList, env: H.Env)
      ensures this.list == list && this.env == env
    {
      this.list, this.env := list, env;
    }

    ghost predicate Valid()
      reads list, list.live.Values
    {
      list.Valid() && D.Indexed(list.View())
    }

    /** The list as it is. */
    ghost function Users(): D.Directory
      reads list, list.live.Values
    {
      list.View()
    }

    /** A user that the list has is in the directory as it is. */
    lemma {:induction false} Here(u: L.User)
      requires Valid() && list.Has(u)
      ensures u.id in Users().users && Users().users[u.id] == u.View()
    {
    }

    /** The list's mutexes do not matter here: what is written to a user is written to the directory. */
    method SetState(u: L.User, state: D.UserState)
      requires Valid() && list.Has(u)
      modifies u`state
      ensures Valid() && list.Has(u) && u.id in old(Users()).users
      ensures Users() == H.SetState(old(Users()), u.id, state)
      ensures Users() == H.ChangeOne(old(Users()), u.id, H.To(state))
    {
      ghost var d := Users();
      u.state := state;
      assert list.Users() == H.SetState(d, u.id, state).users;
      H.SetStateKeeps(d, u.id, state);
    }

    /** setState(CHALLENGED) and setOpponent */
    method SetChallenged(u: L.User, opponent: D.Name)
      requires Valid() && list.Has(u)
      modifies u`state, u`opponent
      ensures Valid() && list.Has(u) && u.id in old(Users()).users
      ensures Users() == H.ChangeOne(old(Users()), u.id, H.Duel(opponent))
    {
      ghost var d := Users();
      u.state := D.Challenged;
      u.opponent := opponent;
      ghost var d' := H.ChangeOne(d, u.id, H.Duel(opponent));
      assert list.Users() == d'.users;
      D.SameIndexed(d, d');
    }

    method HandleGameEnd(u: L.User) returns (res: bool)
      requires Valid() && list.Has(u)
      modifies u`state
      ensures Valid() && u.id in old(Users()).users && res && Users() == H.SetState(old(Users()), u.id, D.Available)
    {
      SetState(u, D.Available);
      return true;
    }

    method HandleUsersListRequest(u: L.User, offset: uint32, wire: Wire) returns (res: bool)
      requires Valid() && list.Has(u) && wire.log == []
      modifies wire
      ensures Valid() && H.Reply(Users(), wire.log, res) == H.HandleListRequest(old(Users()), u.id, offset, wire.o)
    {
      var text := list.ListAvailableFromTo(H.Signed(offset));
      res := wire.Send(u.id, UsersList(text));
    }

    lemma {:induction false} OneThenOther(d: D.Directory, u: D.Uid, v: D.Uid, out: H.Outcome)
      requires u in d.users && v in d.users && u != v
      ensures H.ChangeOne(H.ChangeOne(d, u, out.u), v, out.v) == H.ChangeBoth(d, u, v, out)
      ensures H.ChangeOne(d, u, H.Keep) == d
    {
    }

    method Get(name: D.Name) returns (u: L.User?)
      requires Valid()
      modifies list.live.Values
      ensures Valid() && list.live == old(list.live) && (u != null ==> list.Has(u)) && D.Indexed(old(Users()))
      ensures (Users(), if u == null then None else Some(u.id)) == D.GetByName(old(Users()), name)
      ensures u != null ==> u.id in Users().users && Users().users[u.id].refs > 0
    {
      D.GetKeeps(Users(), name, 0);
      GetHolds(Users(), name);
      hide D.Indexed, D.GetByName;
      u := list.GetByName(name);
    }

    lemma {:induction false} GetHolds(d: D.Directory, name: D.Name)
      requires D.Indexed(d)
      ensures var (d', u) := D.GetByName(d, name); u.Some? ==> u.value in d'.users && d'.users[u.value].refs > 0
    {
    }

    method GiveBack(u: L.User)
      requires Valid() && list.Has(u) && u.id in Users().users && Users().users[u.id].refs > 0
      modifies list, list.live.Values
      ensures Valid() && L.Within(list.live, old(list.live)) && Users() == D.Yield(old(Users()), u.id)
    {
      hide D.Indexed;
      list.Yield(u);
    }

    lemma {:induction false} SameUser(u: L.User, v: L.User)
      requires list.Has(u) && list.Has(v) && u.id == v.id
      ensures u == v
    {
    }

    /** What handleChallengeMessage does while it has both users locked. */
    method ChallengeLocked(u: L.User, challenged: L.User, name: D.Name, wire: Wire)
      returns (res: bool, ghost out: H.Outcome)
      requires Valid() && list.Has(u) && list.Has(challenged) && u.id != challenged.id && wire.log == []
      modifies u`state, u`opponent, challenged`state, challenged`opponent, wire
      ensures Valid() && list.Has(u) && list.Has(challenged)
      ensures u.id in old(Users()).users && challenged.id in old(Users()).users
      ensures var d := old(Users());
              out == H.ChallengeBoth(u.id, challenged.id, d.users[u.id], d.users[challenged.id], name, wire.o)
              && Users() == H.ChangeBoth(d, u.id, challenged.id, out) && wire.log == out.sent && res == out.res
    {
      hide Valid, Users;
      ghost var d := Users();
      Here(u);
      Here(challenged);
      out := H.ChallengeBoth(u.id, challenged.id, d.users[u.id], d.users[challenged.id], name, wire.o);
      OneThenOther(d, u.id, challenged.id, out);
      OneThenOther(d, challenged.id, u.id, out);
      if u.state != D.Available {
        return true, out;
      }
      if challenged.state != D.Available {
        res := wire.Send(u.id, GameCancel(name));
        return;
      }
      var sent := wire.Send(challenged.id, ChallengeForward(u.username));
      if sent {
        SetChallenged(u, challenged.username);
        SetChallenged(challenged, u.username);
        res := true;
      } else {
        SetState(challenged, D.Disconnected);
        res := wire.Send(u.id, GameCancel(name));
      }
    }

    method HandleChallenge(u: L.User, name: D.Name, wire: Wire) returns (res: bool)
      requires Valid() && list.Has(u) && wire.log == []
      modifies list, list.live.Values, wire
      ensures Valid() && u.id in old(Users()).users && D.Indexed(old(Users()))
      ensures L.Within(list.live, old(list.live))
      ensures H.Reply(Users(), wire.log, res) == H.HandleChallenge(old(Users()), u.id, name, wire.o)
    {
      hide D.Indexed, H.ChallengeBoth, D.Yield, Users, Valid;
      Here(u);
      var challenged := Get(name);
      if challenged == null || challenged == u {
        res := wire.Send(u.id, GameCancel(name));
        return;
      }
      if challenged.id == u.id {
        SameUser(challenged, u);
      }
      ghost var out;
      Here(challenged);
      ghost var d := Users();
      assert d.users[challenged.id].refs > 0;
      res, out := ChallengeLocked(u, challenged, name, wire);
      assert Users().users[challenged.id].refs == d.users[challenged.id].refs;
      GiveBack(challenged);
    }

    /** Tells a user that its game is off; it is available again, if it is still there. */
    method CancelFor(u: L.User, name: D.Name, wire: Wire) returns (ok: bool)
      requires Valid() && list.Has(u)
      modifies u`state, wire
      ensures Valid() && list.Has(u) && u.id in old(Users()).users
      ensures ok == wire.o.Ok(|old(wire.log)|) && wire.log == old(wire.log) + [H.Sent(u.id, GameCancel(name), ok)]
      ensures Users() == H.ChangeOne(old(Users()), u.id, H.Gone(ok))
    {
      hide Valid, Users;
      ok := wire.Send(u.id, GameCancel(name));
      SetState(u, if ok then D.Available else D.Disconnected);
    }

    method SendStarts(u: L.User, opponent: L.User, port: uint16, wire: Wire) returns (okU: bool, okOpponent: bool)
      requires opponent.username in env.certs && u.username in env.certs && wire.log == []
      modifies wire
      ensures okU == wire.o.Ok(0) && okOpponent == wire.o.Ok(1)
      ensures wire.log == [H.Sent(u.id, H.GameStartFor(env, opponent.View(), 0), okU),
                           H.Sent(opponent.id, H.GameStartFor(env, u.View(), port), okOpponent)]
    {
      var toU := GameStart(opponent.username, SockAddr(env.address(opponent.fd), 0), env.certs[opponent.username]);
      var toOpponent := GameStart(u.username, SockAddr(env.address(u.fd), port), env.certs[u.username]);
      okU := wire.Send(u.id, toU);
      okOpponent := wire.Send(opponent.id, toOpponent);
    }

    /** Sends both game starts, and cleans up where one fails. */
    method StartGame(u: L.User, opponent: L.User, port: uint16, wire: Wire, junk: bool)
      returns (res: bool, ghost out: H.Outcome)
      requires Valid() && list.Has(u) && list.Has(opponent) && u.id != opponent.id && wire.log == [] &&
               junk == wire.o.junk
      requires u.state == opponent.state == D.Challenged && opponent.username in env.certs && u.username in env.certs
      modifies u`state, opponent`state, wire
      ensures Valid() && list.Has(u) && list.Has(opponent)
      ensures u.id in old(Users()).users && opponent.id in old(Users()).users
      ensures var d := old(Users());
              out == H.RespondBoth(env, u.id, opponent.id, d.users[u.id], d.users[opponent.id], true, port, wire.o)
              && Users() == H.ChangeBoth(d, u.id, opponent.id, out) && wire.log == out.sent && res == out.res
    {
      hide Valid, Users, H.ChangeBoth, H.SetState, D.Indexed, H.GameStartFor;
      ghost var d := Users();
      Here(u);
      Here(opponent);
      out := H.RespondBoth(env, u.id, opponent.id, d.users[u.id], d.users[opponent.id], true, port, wire.o);
      OneThenOther(d, u.id, opponent.id, out);
      OneThenOther(d, opponent.id, u.id, out);
      var okU, okOpponent := SendStarts(u, opponent, port, wire);
      if okU && okOpponent {
        SetState(u, D.Playing);
        SetState(opponent, D.Playing);
        res := true;
      } else if !okU && !okOpponent {
        SetState(u, D.Disconnected);
        SetState(opponent, D.Disconnected);
        res := false;
      } else if !okU {
        res := junk;
        var ok := CancelFor(opponent, u.username, wire);
      } else {
        res := CancelFor(u, opponent.username, wire);
      }
    }

    /** What handleChallengeResponseMessage does while it has both users locked; `junk` is what its result holds
        where it assigns none. */
    method RespondLocked(u: L.User, opponent: L.User, accept: bool, port: uint16, wire: Wire, junk: bool)
      returns (res: bool, ghost out: H.Outcome)
      requires Valid() && list.Has(u) && list.Has(opponent) && u.id != opponent.id && wire.log == [] &&
               junk == wire.o.junk
      modifies u`state, opponent`state, wire
      ensures Valid() && list.Has(u) && list.Has(opponent)
      ensures u.id in old(Users()).users && opponent.id in old(Users()).users
      ensures var d := old(Users());
              out == H.RespondBoth(env, u.id, opponent.id, d.users[u.id], d.users[opponent.id], accept, port, wire.o)
              && Users() == H.ChangeBoth(d, u.id, opponent.id, out) && wire.log == out.sent && res == out.res
    {
      hide Valid, Users;
      ghost var d := Users();
      Here(u);
      Here(opponent);
      out := H.RespondBoth(env, u.id, opponent.id, d.users[u.id], d.users[opponent.id], accept, port, wire.o);
      OneThenOther(d, u.id, opponent.id, out);
      OneThenOther(d, opponent.id, u.id, out);
      if !accept {
        res := junk;
        SetState(u, D.Available);
        var ok := CancelFor(opponent, u.username, wire);
        return;
      }
      if u.state != D.Challenged {
        return true, out;
      }
      if opponent.state != D.Challenged {
        res := wire.Send(u.id, GameCancel(opponent.username));
        return;
      }
      if opponent.username !in env.certs || u.username !in env.certs {
        return false, out;
      }
      res, out := StartGame(u, opponent, port, wire, junk);
    }

    method HandleChallengeResponse(u: L.User, accept: bool, port: uint16, wire: Wire, junk: bool) returns (res: bool)
      requires Valid() && list.Has(u) && wire.log == [] && junk == wire.o.junk
      modifies list, list.live.Values, wire
      ensures Valid() && u.id in old(Users()).users && D.Indexed(old(Users()))
      ensures L.Within(list.live, old(list.live))
      ensures H.Reply(Users(), wire.log, res) == H.HandleResponse(env, old(Users()), u.id, accept, port, wire.o)
    {
      hide D.Indexed, H.RespondBoth, D.Yield, Users, Valid;
      Here(u);
      var name := u.opponent;
      var opponent := Get(name);
      if opponent == null || opponent == u {
        SetState(u, D.Available);
        res := wire.Send(u.id, GameCancel(name));
        return;
      }
      if opponent.id == u.id {
        SameUser(opponent, u);
      }
      ghost var out;
      Here(opponent);
      ghost var d := Users();
      assert d.users[opponent.id].refs > 0;
      res, out := RespondLocked(u, opponent, accept, port, wire, junk);
      assert Users().users[opponent.id].refs == d.users[opponent.id].refs;
      GiveBack(opponent);
    }

    /** A user that no index entry points to takes a name. */
    method SetUsername(u: L.User, name: D.Name)
      requires Valid() && list.Has(u) && forall n :: n in list.byName ==> list.byName[n] != u
      modifies u`username
      ensures Valid() && list.Has(u) && u.id in old(Users()).users && u.username == name
      ensures Users() == old(Users()).(users := old(Users()).users[u.id := old(Users()).users[u.id].(name := name)])
    {
      ghost var d := Users();
      u.username := name;
      ghost var d' := d.(users := d.users[u.id := d.users[u.id].(name := name)]);
      assert list.Users() == d'.users;
      forall n | n in d.byName
        ensures d.byName[n] != u.id
      {
        assert list.Has(list.byName[n]);
      }
      H.RenameKeeps(d, u.id, name);
    }

    method AddAgain(u: L.User)
      requires Valid() && list.Has(u)
      modifies list`byName, list`byFd
      ensures Valid() && u.id in old(Users()).users && Users() == D.Add(old(Users()), u.id).0
    {
      D.AddKeeps(Users(), u.id);
      hide D.Indexed;
      var added := list.Add(u);
    }

    method Exists(name: D.Name) returns (res: bool)
      requires Valid()
      ensures res <==> name in Users().byName
    {
      res := list.ExistsName(name);
    }

    method HandleRegister(u: L.User, name: D.Name) returns (res: bool)
      requires Valid() && list.Has(u) && forall n :: n in list.byName ==> list.byName[n] != u
      modifies list, u`username, u`state
      ensures Valid() && u.id in old(Users()).users
      ensures list.live == old(list.live)
      ensures H.Reply(Users(), [], res) == H.HandleRegister(env, old(Users()), u.id, name)
    {
      hide D.Indexed, D.Add, Valid, Users;
      Here(u);
      if name == env.ownName {
        return false;
      }
      SetUsername(u, name);
      var taken := Exists(name);
      if !taken {
        SetState(u, D.Available);
        AddAgain(u);
        return true;
      } else {
        SetState(u, D.Disconnected);
        return false;
      }
    }

    /** The messages of a user that has just connected. */
    method Welcome(u: L.User, e: H.Event, wire: Wire) returns (res: bool)
      requires Valid() && list.Has(u) && wire.log == []
      modifies u`state, wire
      ensures Valid() && list.Has(u) && u.id in old(Users()).users
      ensures H.Reply(Users(), wire.log, res) == H.Welcome(env, old(Users()), u.id, e, wire.o)
    {
      hide Valid, Users;
      Here(u);
      match e {
        case Hello(ok) =>
          res := ok;
        case Verify(ok) =>
          SetState(u, if ok then D.SecurelyConnected else D.Disconnected);
          res := ok;
        case CertificateRequest =>
          res := wire.Send(u.id, Certificate(env.ownCert));
          if !res {
            SetState(u, D.Disconnected);
          }
        case _ =>
          res := true;
      }
    }

    /** No index entry points to a user whose registration is still to come. */
    ghost predicate Unnamed(u: L.User)
      reads list, u
    {
      u.state == D.SecurelyConnected ==> forall n :: n in list.byName ==> list.byName[n] != u
    }

    method HandleMessage(u: L.User, e: H.Event, wire: Wire, junk: bool) returns (res: bool)
      requires Valid() && list.Has(u) && Unnamed(u) && wire.log == [] && junk == wire.o.junk
      modifies list, list.live.Values, wire
      ensures Valid() && u.id in old(Users()).users && D.Indexed(old(Users()))
      ensures L.Within(list.live, old(list.live))
      ensures H.Reply(Users(), wire.log, res) == H.Handle(env, old(Users()), u.id, e, wire.o)
    {
      assert D.Indexed(Users());
      hide Valid, Users, D.Indexed, H.Welcome, H.HandleRegister, H.HandleChallenge, H.HandleListRequest,
          H.HandleResponse;
      Here(u);
      if e.Raised? || e.Dropped? {
        return false;
      }
      match u.state {
        case JustConnected =>
          res := Welcome(u, e, wire);
        case SecurelyConnected =>
          if e.Register? {
            res := HandleRegister(u, e.name);
          } else {
            res := true;
          }
        case Available =>
          if e.Challenge? {
            res := HandleChallenge(u, e.name, wire);
          } else if e.ListRequest? {
            res := HandleUsersListRequest(u, e.offset, wire);
          } else {
            res := true;
          }
        case Challenged =>
          if e.Response? {
            res := HandleChallengeResponse(u, e.accept, e.port, wire, junk);
          } else {
            res := true;
          }
        case Playing =>
          if e.EndOfGame? {
            res := HandleGameEnd(u);
          } else {
            res := true;
          }
        case Disconnected =>
          res := true;
      }
    }

    method Lookup(fd: int) returns (u: L.User?)
      requires Valid()
      modifies list.live.Values
      ensures Valid() && list.live == old(list.live) && (u != null ==> list.Has(u)) && D.Indexed(old(Users()))
      ensures (Users(), if u == null then None else Some(u.id)) == D.GetByFd(old(Users()), fd)
      ensures u != null ==> fd in list.byFd && u == list.byFd[fd] && (old(Unnamed(list.byFd[fd])) ==> Unnamed(u))
      ensures u != null ==> u.id in Users().users && Users().users[u.id].refs > 0 && D.Indexed(Users())
    {
      D.GetKeeps(Users(), [], fd);
      LookupHolds(Users(), fd);
      hide D.Indexed, D.GetByFd;
      u := list.GetByFd(fd);
    }

    lemma {:induction false} LookupHolds(d: D.Directory, fd: int)
      requires D.Indexed(d)
      ensures var (d', u) := D.GetByFd(d, fd); u.Some? ==> u.value in d'.users && d'.users[u.value].refs > 0
    {
    }

    lemma {:induction false} StillHere(u: L.User, before: map<D.Uid, L.User>)
      requires Valid() && L.Within(list.live, before) && u.id in before && before[u.id] == u && u.id in Users().users
      ensures list.Has(u)
    {
    }

    /** The body of a worker's loop. */
    method Work(fd: int, e: H.Event, wire: Wire, junk: bool)
      requires Valid() && wire.log == [] && junk == wire.o.junk
      requires fd in list.byFd ==> Unnamed(list.byFd[fd])
      modifies list, list.live.Values, wire
      ensures Valid() && D.Indexed(old(Users())) && (Users(), wire.log) == H.Work(env, old(Users()), fd, e, wire.o)
    {
      hide D.Indexed, H.Handle, D.Yield, Valid, Users;
      var u := Lookup(fd);
      if u != null {
        Here(u);
        H.HandleHolds(env, Users(), u.id, e, wire.o);
        ghost var before := list.live;
        var res := HandleMessage(u, e, wire, junk);
        StillHere(u, before);
        if !res {
          SetState(u, D.Disconnected);
        }
        GiveBack(u);
      }
    }
  }
}
