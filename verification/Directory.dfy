// The server's users and the two indexes over them, as values.

module Directory {
  import opened Bytes
  import opened Messages

  type Name = seq<byte>

  /** A user is known by its address; addresses are never used again. */
  type Uid = nat

  datatype UserState = JustConnected | SecurelyConnected | Available | Challenged | Playing | Disconnected

  /** The states that a user reaches by registering. */
  predicate Registered(s: UserState) {
    s == Available || s == Challenged || s == Playing
  }

  datatype User = User(fd: int, name: Name, state: UserState, opponent: Name, refs: nat)

  datatype Directory = Directory(users: map<Uid, User>, byFd: map<int, Uid>, byName: map<Name, Uid>)

  ghost predicate FdsAgree(d: Directory) {
    forall k :: k in d.byFd ==> d.byFd[k] in d.users && d.users[d.byFd[k]].fd == k
  }

  ghost predicate NamesAgree(d: Directory) {
    forall n :: n in d.byName ==>
      d.byName[n] in d.users && d.users[d.byName[n]].name == n && n != [] && d.users[d.byName[n]].fd in d.byFd
  }

  ghost predicate FdsDiffer(d: Directory) {
    forall u, w :: u in d.users && w in d.users && d.users[u].fd == d.users[w].fd ==> u == w
  }

  /** Both indexes agree with the users, no index has an entry for a user that was deleted,
      and a user that is found by name is found by descriptor too. */
  ghost predicate Indexed(d: Directory) {
    FdsAgree(d) && NamesAgree(d) && FdsDiffer(d) && |d.byFd| <= MAX_USERS
  }

  /** std::map::insert leaves an entry that is there. */
  function Insert<K, V>(m: map<K, V>, k: K, v: V): map<K, V> {
    if k in m then m else m[k := v]
  }

  function Remove<K, V>(m: map<K, V>, k: K): map<K, V> {
    map j | j in m && j != k :: m[j]
  }

  function Add(d: Directory, u: Uid): (r: (Directory, bool))
    requires u in d.users
  {
    var user := d.users[u];
    if |d.byFd| >= MAX_USERS then (d, false)
    else
      var byName := if user.name == [] then d.byName else Insert(d.byName, user.name, u);
      (Directory(d.users, Insert(d.byFd, user.fd, u), byName), true)
  }

  function AddRef(d: Directory, u: Uid, delta: int): Directory
    requires u in d.users && d.users[u].refs + delta >= 0
  {
    d.(users := d.users[u := d.users[u].(refs := d.users[u].refs + delta)])
  }

  function GetByName(d: Directory, name: Name): (Directory, Option<Uid>)
    requires name in d.byName ==> d.byName[name] in d.users
  {
    if name in d.byName then (AddRef(d, d.byName[name], 1), Some(d.byName[name])) else (d, None)
  }

  function GetByFd(d: Directory, fd: int): (Directory, Option<Uid>)
    requires fd in d.byFd ==> d.byFd[fd] in d.users
  {
    if fd in d.byFd then (AddRef(d, d.byFd[fd], 1), Some(d.byFd[fd])) else (d, None)
  }

  function Delete(d: Directory, u: Uid): Directory
    requires u in d.users
  {
    Directory(Remove(d.users, u), Remove(d.byFd, d.users[u].fd), Remove(d.byName, d.users[u].name))
  }

  /** The last handle on a disconnected user takes the user with it, and the entries under its name and descriptor. */
  function Yield(d: Directory, u: Uid): Directory
    requires u in d.users && d.users[u].refs > 0
  {
    var d' := AddRef(d, u, -1);
    if d'.users[u].refs == 0 && d'.users[u].state == Disconnected then Delete(d', u) else d'
  }

  // ----- What every operation keeps -----

  lemma {:induction false} InsertSize<K, V>(m: map<K, V>, k: K, v: V)
    ensures |Insert(m, k, v)| <= |m| + 1
  {
    assert Insert(m, k, v).Keys == m.Keys + {k};
  }

  lemma {:induction false} SameFd(d: Directory, u: Uid, w: Uid)
    requires FdsDiffer(d) && u in d.users && w in d.users && d.users[u].fd == d.users[w].fd
    ensures u == w
  {
  }

  lemma {:induction false} FewerUsers(d: Directory, r: Directory)
    requires FdsDiffer(d) && forall u :: u in r.users ==> u in d.users && r.users[u].fd == d.users[u].fd
    ensures FdsDiffer(r)
  {
  }

  /** A new user under a descriptor that no other user has. */
  lemma {:induction false} OneMoreUser(d: Directory, r: Directory, u: Uid)
    requires FdsDiffer(d) && u !in d.users && u in r.users && r.users == d.users[u := r.users[u]]
    requires forall w :: w in d.users ==> d.users[w].fd != r.users[u].fd
    ensures FdsDiffer(r)
  {
  }

  /** Nothing that the indexes look at changes. */
  lemma {:induction false} SameIndexed(d: Directory, r: Directory)
    requires Indexed(d) && r.byFd == d.byFd && r.byName == d.byName
    requires forall w :: w in r.users <==> w in d.users
    requires forall w :: w in d.users ==> r.users[w].fd == d.users[w].fd && r.users[w].name == d.users[w].name
    ensures Indexed(r)
  {
    hide FdsDiffer;
    FewerUsers(d, r);
  }

  /** A new user whose descriptor no other user has. */
  lemma {:induction false} NewIndexed(d: Directory, u: Uid, user: User)
    requires Indexed(d) && u !in d.users && forall w :: w in d.users ==> d.users[w].fd != user.fd
    ensures Indexed(d.(users := d.users[u := user]))
  {
    hide FdsDiffer;
    OneMoreUser(d, d.(users := d.users[u := user]), u);
  }

  lemma {:induction false} AddKeepsFds(d: Directory, u: Uid)
    requires FdsAgree(d) && FdsDiffer(d) && u in d.users
    ensures FdsAgree(Add(d, u).0)
    ensures Add(d, u).1 ==> var r := Add(d, u).0; d.users[u].fd in r.byFd && r.byFd[d.users[u].fd] == u
  {
    hide FdsDiffer;
    if d.users[u].fd in d.byFd {
      SameFd(d, u, d.byFd[d.users[u].fd]);
    }
  }

  lemma {:induction false} AddKeepsNames(d: Directory, u: Uid)
    requires NamesAgree(d) && u in d.users
    ensures NamesAgree(Add(d, u).0)
  {
  }

  lemma {:induction false} AddKeeps(d: Directory, u: Uid)
    requires Indexed(d) && u in d.users
    ensures Indexed(Add(d, u).0)
    ensures Add(d, u).1 ==> var r := Add(d, u).0; d.users[u].fd in r.byFd && r.byFd[d.users[u].fd] == u
  {
    hide FdsDiffer, FdsAgree, NamesAgree;
    AddKeepsFds(d, u);
    AddKeepsNames(d, u);
    InsertSize(d.byFd, d.users[u].fd, u);
    FewerUsers(d, Add(d, u).0);
  }

  lemma {:induction false} AddRefKeeps(d: Directory, u: Uid, delta: int)
    requires Indexed(d) && u in d.users && d.users[u].refs + delta >= 0
    ensures Indexed(AddRef(d, u, delta))
  {
    hide FdsDiffer;
    FewerUsers(d, AddRef(d, u, delta));
  }

  lemma {:induction false} GetKeeps(d: Directory, name: Name, fd: int)
    requires Indexed(d)
    ensures Indexed(GetByName(d, name).0) && Indexed(GetByFd(d, fd).0)
  {
    if name in d.byName {
      AddRefKeeps(d, d.byName[name], 1);
    }
    if fd in d.byFd {
      AddRefKeeps(d, d.byFd[fd], 1);
    }
  }

  lemma {:induction false} RemoveSize<K, V>(m: map<K, V>, k: K)
    ensures |Remove(m, k)| <= |m|
  {
    SubsetSize(Remove(m, k).Keys, m.Keys);
  }

  lemma {:induction false} SubsetSize<T>(a: set<T>, b: set<T>)
    requires a <= b
    ensures |a| <= |b|
  {
    assert b == a + (b - a);
  }

  lemma {:induction false} YieldKeeps(d: Directory, u: Uid)
    requires Indexed(d) && u in d.users && d.users[u].refs > 0
    ensures Indexed(Yield(d, u))
    ensures u !in Yield(d, u).users <==> d.users[u].refs == 1 && d.users[u].state == Disconnected
  {
    hide FdsDiffer;
    var r := Yield(d, u);
    FewerUsers(d, r);
    RemoveSize(d.byFd, d.users[u].fd);
    forall n | n in r.byName
      ensures r.byName[n] in r.users && r.users[r.byName[n]].name == n && r.users[r.byName[n]].fd in r.byFd
    {
      assert n in d.byName;
      if u !in r.users && d.users[d.byName[n]].fd == d.users[u].fd {
        SameFd(d, u, d.byName[n]);
      }
    }
  }

  /** What giving back does to each user. */
  lemma {:induction false} YieldUsers(d: Directory, u: Uid, x: Uid)
    requires u in d.users && d.users[u].refs > 0
    ensures x in Yield(d, u).users <==>
              x in d.users && (x == u ==> d.users[u].refs > 1 || d.users[u].state != Disconnected)
    ensures x in Yield(d, u).users ==> Yield(d, u).users[x].refs == d.users[x].refs - if x == u then 1 else 0
  {
  }

  /** Giving back a handle makes the entry of a user that stays disappear exactly when the user given back is
      deleted under the same name without being the one that the entry leads to. Entries are never redirected. */
  lemma {:induction false} YieldLosesExactly(d: Directory, u: Uid, n: Name)
    requires Indexed(d) && u in d.users && d.users[u].refs > 0 && n in d.byName
    ensures n !in Yield(d, u).byName && d.byName[n] in Yield(d, u).users <==>
            && d.users[u].refs == 1 && d.users[u].state == Disconnected
            && d.users[u].name == n && d.byName[n] != u
    ensures n in Yield(d, u).byName ==> Yield(d, u).byName[n] == d.byName[n]
  {
    hide FdsDiffer, FdsAgree;
  }

  /** A handle that is taken and given back leaves everything as it was, unless the user has been disconnected. */
  lemma {:induction false} GetThenYield(d: Directory, name: Name)
    requires Indexed(d) && name in d.byName
    ensures var (d', u) := GetByName(d, name);
            u == Some(d.byName[name]) &&
            (d.users[u.value].refs > 0 || d.users[u.value].state != Disconnected ==> Yield(d', u.value) == d)
  {
    var (d', u) := GetByName(d, name);
    if d.users[u.value].refs > 0 || d.users[u.value].state != Disconnected {
      assert Yield(d', u.value).users == d.users;
    }
  }

  // ----- The order of names -----

  /** std::string's order. */
  predicate NameLess(a: Name, b: Name) {
    b != [] && (a == [] || a[0] < b[0] || (a[0] == b[0] && NameLess(a[1..], b[1..])))
  }

  /** At the first place where they differ. */
  ghost predicate DifferAt(a: Name, b: Name, k: nat) {
    k < |a| && k < |b| && a[..k] == b[..k] && a[k] < b[k]
  }

  /** The order is that of the first byte that differs, and a proper prefix comes first. */
  lemma {:induction false} NameLessExactly(a: Name, b: Name)
    ensures NameLess(a, b) <==> a < b || exists k: nat :: DifferAt(a, b, k)
  {
    if a != [] && b != [] && a[0] == b[0] {
      var s, t := a[1..], b[1..];
      NameLessExactly(s, t);
      assert a == [a[0]] + s && b == [a[0]] + t;
      if k: nat :| DifferAt(s, t, k) {
        assert a[..k + 1] == [a[0]] + s[..k] && b[..k + 1] == [a[0]] + t[..k];
        assert DifferAt(a, b, k + 1);
      }
      if k: nat :| DifferAt(a, b, k) {
        assert s[..k - 1] == a[..k][1..] && t[..k - 1] == b[..k][1..];
        assert DifferAt(s, t, k - 1);
      }
    } else if a != [] && b != [] {
      if a[0] < b[0] {
        assert DifferAt(a, b, 0);
      }
      if k: nat :| DifferAt(a, b, k) {
        assert k > 0 ==> a[..k][0] == b[..k][0];
      }
    }
  }

  lemma {:induction false} NameLessIrreflexive(a: Name)
    ensures !NameLess(a, a)
  {
    if a != [] {
      NameLessIrreflexive(a[1..]);
    }
  }

  lemma {:induction false} NameLessTransitive(a: Name, b: Name, c: Name)
    requires NameLess(a, b) && NameLess(b, c)
    ensures NameLess(a, c)
  {
    if a != [] && a[0] == b[0] == c[0] {
      NameLessTransitive(a[1..], b[1..], c[1..]);
    }
  }

  lemma {:induction false} NameLessTotal(a: Name, b: Name)
    ensures a == b || NameLess(a, b) || NameLess(b, a)
  {
    if a != [] && b != [] && a[0] == b[0] {
      NameLessTotal(a[1..], b[1..]);
      if a[1..] == b[1..] {
        assert a == [a[0]] + a[1..] == b;
      }
    }
  }
}
