// The list of users that the threads of the server share, with its two indexes and its reference counts.

module UserList {
  import opened Bytes
  import opened Messages
  import D = Directory
  import opened Listing

  type Name = D.Name

  class User {
    const id: D.Uid
    const fd: int
    var state: D.UserState
    var username: Name
    var opponent: Name
    var references: nat

    constructor (id: D.Uid, fd: int)
      ensures this.id == id && View() == D.User(fd, [], D.JustConnected, [], 0)
    {
      this.id, this.fd := id, fd;
      state, username, opponent, references := D.JustConnected, [], [], 0;
    }

    function View(): D.User
      reads this
    {
      D.User(fd, username, state, opponent, references)
    }
  }

  /** An index as a map to addresses. */
  function Ids<K>(m: map<K, User>): map<K, D.Uid> {
    map k | k in m :: m[k].id
  }

  lemma {:induction false} IdsSize<K>(m: map<K, User>)
    ensures |Ids(m)| == |m|
  {
    assert Ids(m).Keys == m.Keys;
  }

  lemma {:induction false} IdsInsert<K>(m: map<K, User>, k: K, u: User)
    ensures Ids(D.Insert(m, k, u)) == D.Insert(Ids(m), k, u.id)
  {
  }

  lemma {:induction false} IdsRemove<K>(m: map<K, User>, k: K)
    ensures Ids(D.Remove(m, k)) == D.Remove(Ids(m), k)
    ensures k !in m ==> D.Remove(m, k) == m
  {
  }

  /** Users were perhaps deleted, none added. */
  ghost predicate Within(now: map<D.Uid, User>, before: map<D.Uid, User>) {
    forall i :: i in now ==> i in before && now[i] == before[i]
  }

  class UserList {
    var byName: map<Name, User>
    var byFd: map<int, User>
    /** The users that were allocated and not yet deleted. */
    ghost var live: map<D.Uid, User>

    ghost predicate Valid()
      reads this
    {
      && (forall i :: i in live ==> live[i].id == i)
      && (forall k :: k in byFd ==> byFd[k].id in live && live[byFd[k].id] == byFd[k])
      && (forall n :: n in byName ==> byName[n].id in live && live[byName[n].id] == byName[n])
    }

    /** `u` is allocated and not deleted. */
    ghost predicate Has(u: User)
      reads this
    {
      u.id in live && live[u.id] == u
    }

    ghost function Users(): map<D.Uid, D.User>
      reads this`live, live.Values
    {
      map i | i in live :: live[i].View()
    }

    ghost function View(): D.Directory
      reads this, live.Values
    {
      D.Directory(Users(), Ids(byFd), Ids(byName))
    }

    constructor ()
      ensures Valid() && View() == D.Directory(map[], map[], map[]) && live == map[]
    {
      byName, byFd, live := map[], map[], map[];
    }

    method Add(u: User) returns (success: bool)
      requires Valid() && Has(u)
      modifies this`byName, this`byFd
      ensures Valid() && live == old(live)
      ensures u.id in old(View()).users && (View(), success) == D.Add(old(View()), u.id)
    {
      hide Ids;
      ghost var d := View();
      assert u.id in d.users && d.users[u.id] == u.View();
      hide Users;
      IdsSize(byFd);
      IdsInsert(byFd, u.fd, u);
      IdsInsert(byName, u.username, u);
      success := |byFd| < MAX_USERS;
      if success {
        if u.fd !in byFd {
          byFd := byFd[u.fd := u];
        }
        if u.username != [] {
          if u.username !in byName {
            byName := byName[u.username := u];
          }
        }
      }
    }

    method IncreaseRefs(u: User)
      requires Valid() && Has(u)
      modifies u`references
      ensures Valid() && u.id in old(View()).users && View() == D.AddRef(old(View()), u.id, 1)
      ensures u.references == old(u.references) + 1
    {
      u.references := u.references + 1;
      assert Users() == D.AddRef(old(View()), u.id, 1).users;
    }

    method DecreaseRefs(u: User)
      requires Valid() && Has(u) && u.references > 0
      modifies u`references
      ensures Valid() && u.id in old(View()).users && View() == D.AddRef(old(View()), u.id, -1)
      ensures u.references == old(u.references) - 1
    {
      u.references := u.references - 1;
      assert Users() == D.AddRef(old(View()), u.id, -1).users;
    }

    method GetByName(username: Name) returns (u: User?)
      requires Valid()
      modifies if username in byName then {byName[username]} else {}
      ensures Valid() && (u != null ==> Has(u))
      ensures username in old(View()).byName ==> old(View()).byName[username] in old(View()).users
      ensures (View(), if u == null then None else Some(u.id)) == D.GetByName(old(View()), username)
    {
      u := null;
      if username in byName {
        u := byName[username];
        IncreaseRefs(u);
      }
    }

    method GetByFd(fd: int) returns (u: User?)
      requires Valid()
      modifies if fd in byFd then {byFd[fd]} else {}
      ensures Valid() && (u != null ==> Has(u) && fd in byFd && u == byFd[fd])
      ensures fd in old(View()).byFd ==> old(View()).byFd[fd] in old(View()).users
      ensures (View(), if u == null then None else Some(u.id)) == D.GetByFd(old(View()), fd)
    {
      u := null;
      if fd in byFd {
        u := byFd[fd];
        IncreaseRefs(u);
      }
    }

    method ExistsName(username: Name) returns (res: bool)
      requires Valid()
      ensures res <==> username in View().byName
    {
      res := username in byName;
    }

    method ExistsFd(fd: int) returns (res: bool)
      requires Valid()
      ensures res <==> fd in View().byFd
    {
      res := fd in byFd;
    }

    method Unindex(u: User)
      requires Valid()
      modifies this`byName, this`byFd
      ensures Valid() && live == old(live)
      ensures byName == D.Remove(old(byName), u.username) && byFd == D.Remove(old(byFd), u.fd)
    {
      if u.username in byName {
        byName := D.Remove(byName, u.username);
      }
      if u.fd in byFd {
        byFd := D.Remove(byFd, u.fd);
      }
    }

    /** Takes the user out of both indexes and deletes it. */
    method Erase(u: User)
      requires Valid() && Has(u) && D.Indexed(View()) && u.id in View().users && D.Indexed(D.Delete(View(), u.id))
      modifies this
      ensures Valid() && Within(live, old(live)) && View() == D.Delete(old(View()), u.id)
    {
      hide D.Indexed, Ids, D.Remove;
      ghost var d, l := View(), live;
      assert d.users[u.id] == u.View();
      IdsRemove(byFd, u.fd);
      IdsRemove(byName, u.username);
      Unindex(u);
      live := D.Remove(live, u.id);
      OneLess(l, u.id, d.users);
      Gone(View());
    }

    lemma {:induction false} OneLess(l: map<D.Uid, User>, i: D.Uid, users: map<D.Uid, D.User>)
      requires live == D.Remove(l, i) && users.Keys == l.Keys && forall j :: j in l ==> users[j] == l[j].View()
      ensures Users() == D.Remove(users, i)
      ensures forall j :: j in live <==> j in l && j != i
      ensures forall j :: j in live ==> live[j] == l[j]
    {
    }

    lemma {:induction false} Gone(v: D.Directory)
      requires v == View() && D.Indexed(v)
      ensures forall k :: k in byFd ==> byFd[k].id in live
      ensures forall n :: n in byName ==> byName[n].id in live
    {
      assert forall k :: k in byFd ==> v.byFd[k] in v.users;
      assert forall n :: n in byName ==> v.byName[n] in v.users;
    }

    method Yield(u: User)
      requires Valid() && Has(u) && u.references > 0 && D.Indexed(View())
      modifies this, u`references
      ensures Valid() && Within(live, old(live))
      ensures u.id in old(View()).users && View() == D.Yield(old(View()), u.id) && D.Indexed(View())
    {
      hide D.Indexed, D.Delete, D.AddRef, View;
      ghost var d := View();
      ViewOf(u);
      D.YieldKeeps(d, u.id);
      D.AddRefKeeps(d, u.id, -1);
      DecreaseRefs(u);
      ViewOf(u);
      if u.references == 0 && u.state == D.Disconnected {
        Erase(u);
      }
    }

    lemma {:induction false} ViewOf(u: User)
      requires Valid() && Has(u)
      ensures u.id in View().users && View().users[u.id] == D.User(u.fd, u.username, u.state, u.opponent, u.references)
    {
    }

    lemma {:induction false} Seen()
      requires Valid() && D.Indexed(View())
      ensures View().byName.Keys == byName.Keys
      ensures forall n :: n in byName ==> (n in AvailableNames(View()) <==> byName[n].state == D.Available)
    {
      assert forall n :: n in byName ==> n in View().byName && View().byName[n] == byName[n].id;
    }

    /** Goes through the index in the order of the names. */
    method ListAvailableFromTo(from: int) returns (os: seq<byte>)
      requires Valid() && D.Indexed(View())
      ensures os == Listed(Offered(View()), from)
    {
      hide D.Indexed, Least, Increasing, Sorted, Rest, Listed, View, Valid, AvailableNames;
      Seen();
      ghost var sorted, available := Sorted(byName.Keys), AvailableNames(View());
      LoopLists(sorted, available, from);
      var rest, n := byName.Keys, 0;
      os := [];
      while n < from + MAX_USERS_IN_MESSAGE && rest != {}
        invariant rest <= byName.Keys
        invariant os + Rest(Sorted(rest), available, from, n) == Rest(sorted, available, from, 0)
        decreases |rest|
      {
        LeastSome(rest);
        var k :| Least(k, rest);
        SortedHead(rest, k);
        RestStep(k, Sorted(rest - {k}), available, from, n);
        rest := rest - {k};
        if byName[k].state == D.Available {
          if n >= from {
            os := os + k;
            if n < from + MAX_USERS_IN_MESSAGE - 1 {
              os := os + [COMMA];
            }
            n := n + 1;
          }
        }
      }
      RestDone(Sorted(rest), available, from, n);
      return os + [0];
    }
  }

  lemma {:induction false} RestDone(names: seq<Name>, available: set<Name>, from: int, n: int)
    requires n >= from + MAX_USERS_IN_MESSAGE || forall k :: k !in names
    ensures Rest(names, available, from, n) == []
  {
    assert names != [] ==> names[0] in names;
  }

  lemma {:induction false} RestStep(k: Name, names: seq<Name>, available: set<Name>, from: int, n: int)
    requires n < from + MAX_USERS_IN_MESSAGE
    ensures Rest([k] + names, available, from, n) ==
            if k !in available || n < from then Rest(names, available, from, n)
            else k + (if n < from + MAX_USERS_IN_MESSAGE - 1 then [COMMA] else []) + Rest(names, available, from, n + 1)
  {
    assert ([k] + names)[1..] == names;
  }

  lemma {:induction false} SortedHead(keys: set<Name>, k: Name)
    requires Least(k, keys)
    ensures Sorted(keys) == [k] + Sorted(keys - {k})
  {
    var s := Sorted(keys);
    var k' :| Least(k', keys) && s == [k'] + Sorted(keys - {k'});
    LeastUnique(k, k', keys);
  }
}
