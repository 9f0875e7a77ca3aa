// The list of available users: names in order, ten to a message.

module Listing {
  import opened Bytes
  import opened BufferIO
  import opened Messages
  import opened MessageTheorems
  import opened Directory

  const MAX_USERS_IN_MESSAGE := 10
  const COMMA: byte := 44

  // ----- Iteration in the order of the keys -----

  predicate Least(k: Name, keys: set<Name>) {
    k in keys && forall j :: j in keys && j != k ==> NameLess(k, j)
  }

  lemma {:induction false} LeastExists(keys: set<Name>) returns (k: Name)
    requires keys != {}
    ensures Least(k, keys)
    decreases |keys|
  {
    k :| k in keys;
    var rest := keys - {k};
    if rest != {} {
      var m := LeastExists(rest);
      NameLessTotal(m, k);
      if NameLess(m, k) {
        k := m;
      } else {
        forall j | j in rest && j != m
          ensures NameLess(k, j)
        {
          NameLessTransitive(k, m, j);
        }
      }
    }
  }

  lemma {:induction false} LeastUnique(j: Name, k: Name, keys: set<Name>)
    requires Least(j, keys) && Least(k, keys)
    ensures j == k
  {
    if j != k {
      NameLessTransitive(j, k, j);
      NameLessIrreflexive(j);
    }
  }

  ghost predicate Increasing(s: seq<Name>) {
    forall i, j :: 0 <= i < j < |s| ==> NameLess(s[i], s[j])
  }

  /** The keys as a std::map enumerates them. */
  ghost function Sorted(keys: set<Name>): (s: seq<Name>)
    ensures forall k :: k in s <==> k in keys
    ensures Increasing(s)
    decreases |keys|
  {
    if keys == {} then []
    else
      LeastSome(keys);
      var k :| Least(k, keys);
      [k] + Sorted(keys - {k})
  }

  lemma {:induction false} LeastSome(keys: set<Name>)
    requires keys != {}
    ensures exists k :: Least(k, keys)
  {
    var k := LeastExists(keys);
  }

  /** There is only one such enumeration. */
  lemma {:induction false} SortedUnique(s: seq<Name>, t: seq<Name>)
    requires Increasing(s) && Increasing(t) && forall k :: k in s <==> k in t
    ensures s == t
  {
    if s == [] {
      HeadIn(t, s);
    } else {
      assert s[0] in t && (t != [] ==> t[0] in s);
      var i :| 0 <= i < |t| && t[i] == s[0];
      var j :| 0 <= j < |s| && s[j] == t[0];
      if i > 0 && j > 0 {
        NameLessTransitive(s[0], s[j], s[0]);
      }
      NameLessIrreflexive(s[0]);
      assert s[0] == t[0];
      forall k
        ensures k in s[1..] <==> k in t[1..]
      {
        HeadOnce(s, k);
        HeadOnce(t, k);
      }
      SortedUnique(s[1..], t[1..]);
    }
  }

  lemma {:induction false} HeadIn(t: seq<Name>, s: seq<Name>)
    requires forall k :: k in t ==> k in s
    ensures t != [] ==> t[0] in s
  {
  }

  lemma {:induction false} HeadOnce(s: seq<Name>, k: Name)
    requires s != [] && Increasing(s)
    ensures k in s[1..] <==> k in s && k != s[0]
  {
    if k in s[1..] {
      var i :| 0 <= i < |s| - 1 && s[1..][i] == k;
      assert NameLess(s[0], s[i + 1]);
      NameLessIrreflexive(k);
    }
  }

  // ----- What is listed -----

  function Filter(names: seq<Name>, available: set<Name>): (r: seq<Name>)
    ensures forall k :: k in r <==> k in names && k in available
  {
    if names == [] then []
    else (if names[0] in available then [names[0]] else []) + Filter(names[1..], available)
  }

  ghost function AvailableNames(d: Directory): set<Name>
    requires Indexed(d)
  {
    set n | n in d.byName && d.users[d.byName[n]].state == Available
  }

  /** The names under which an available user is found, in order. */
  ghost function Offered(d: Directory): seq<Name>
    requires Indexed(d)
  {
    Filter(Sorted(d.byName.Keys), AvailableNames(d))
  }

  /** The names, each with a comma behind it but the one at position `last`. */
  function Joined(names: seq<Name>, last: int): seq<byte> {
    if names == [] then [] else names[0] + (if last != 0 then [COMMA] else []) + Joined(names[1..], last - 1)
  }

  /** What the loop writes for any offset: from 1 on it skips every user, below 0 it stops early. */
  function Listed(names: seq<Name>, from: int): seq<byte> {
    var limit := from + MAX_USERS_IN_MESSAGE;
    (if from > 0 || limit <= 0 then [] else Joined(names[..Min(limit, |names|)], limit - 1)) + [0]
  }

  /** The loop over the remaining names, with `n` users listed before. */
  function Rest(names: seq<Name>, available: set<Name>, from: int, n: int): seq<byte> {
    if names == [] || n >= from + MAX_USERS_IN_MESSAGE then []
    else if names[0] !in available || n < from then Rest(names[1..], available, from, n)
    else
      var comma := if n < from + MAX_USERS_IN_MESSAGE - 1 then [COMMA] else [];
      names[0] + comma + Rest(names[1..], available, from, n + 1)
  }

  lemma {:induction false} RestIsEmpty(names: seq<Name>, available: set<Name>, from: int)
    requires from > 0
    ensures Rest(names, available, from, 0) == []
  {
    if names != [] {
      RestIsEmpty(names[1..], available, from);
    }
  }

  lemma {:induction false} RestIsJoined(names: seq<Name>, available: set<Name>, from: int, n: nat)
    requires from <= 0 && n <= from + MAX_USERS_IN_MESSAGE
    ensures var f, limit := Filter(names, available), from + MAX_USERS_IN_MESSAGE;
            Rest(names, available, from, n) == Joined(f[..Min(limit - n, |f|)], limit - 1 - n)
  {
    var limit := from + MAX_USERS_IN_MESSAGE;
    if names != [] && n < limit {
      var f, g := Filter(names, available), Filter(names[1..], available);
      if names[0] in available {
        RestIsJoined(names[1..], available, from, n + 1);
        assert f == [names[0]] + g;
        assert f[..Min(limit - n, |f|)][1..] == g[..Min(limit - n - 1, |g|)];
      } else {
        RestIsJoined(names[1..], available, from, n);
        assert f == g;
      }
    }
  }

  lemma {:induction false} LoopLists(names: seq<Name>, available: set<Name>, from: int)
    ensures Rest(names, available, from, 0) + [0] == Listed(Filter(names, available), from)
  {
    if from > 0 {
      RestIsEmpty(names, available, from);
    } else if from + MAX_USERS_IN_MESSAGE >= 0 {
      RestIsJoined(names, available, from, 0);
      assert Joined([], from + MAX_USERS_IN_MESSAGE - 1) == [];
    }
  }

  /** A page: the ten names from the offset on, the tenth without a comma. */
  function Page(names: seq<Name>, from: nat): seq<byte> {
    var rest := if from <= |names| then names[from..] else [];
    Joined(rest[..Min(MAX_USERS_IN_MESSAGE, |rest|)], MAX_USERS_IN_MESSAGE - 1) + [0]
  }

  lemma {:induction false} JoinedNotEmpty(names: seq<Name>, last: int)
    requires names != [] && names[0] != []
    ensures |Joined(names, last)| > 0
  {
  }

  /** The list is the page that was asked for exactly at offset 0 and past the end. */
  lemma {:induction false} PagingExactly(names: seq<Name>, from: nat)
    requires forall k :: 0 <= k < |names| ==> names[k] != []
    ensures Listed(names, from) == Page(names, from) <==> from == 0 || from >= |names|
  {
    if from == 0 {
      assert names[0..] == names;
    } else if from < |names| {
      var rest := names[from..];
      var page := rest[..Min(MAX_USERS_IN_MESSAGE, |rest|)];
      assert page[0] == names[from];
      JoinedNotEmpty(page, MAX_USERS_IN_MESSAGE - 1);
    } else {
      assert Joined([], MAX_USERS_IN_MESSAGE - 1) == [];
    }
  }

  /** Two users and offset 1: the second name was asked for, and the list is empty. */
  lemma {:induction false} SecondPageIsEmpty()
    ensures Listed([[97], [98]], 1) == [0] && Page([[97], [98]], 1) == [98, COMMA, 0]
  {
    var names: seq<Name> := [[97], [98]];
    assert names[1..][..1] == [[98]];
    assert Joined([[98]], MAX_USERS_IN_MESSAGE - 1) == [98, COMMA] by {
      assert Joined([], MAX_USERS_IN_MESSAGE - 2) == [];
    }
  }

  // ----- Who is listed, and where the commas stand -----

  lemma {:induction false} FilterKeepsOrder(names: seq<Name>, available: set<Name>)
    requires Increasing(names)
    ensures Increasing(Filter(names, available))
  {
    if names != [] {
      var rest := Filter(names[1..], available);
      FilterKeepsOrder(names[1..], available);
      forall k | k in rest
        ensures NameLess(names[0], k)
      {
        var i :| 0 <= i < |names| - 1 && names[1..][i] == k;
        assert names[i + 1] == k;
      }
    }
  }

  /** Offered are exactly the names of available users, each once, and smaller names come first. */
  lemma {:induction false} OfferedExactly(d: Directory)
    requires Indexed(d)
    ensures forall n :: n in Offered(d) <==> n in d.byName && d.users[d.byName[n]].state == Available
    ensures forall i, j :: 0 <= i < j < |Offered(d)| ==> NameLess(Offered(d)[i], Offered(d)[j])
  {
    hide Indexed, Sorted, Filter, NameLess;
    FilterKeepsOrder(Sorted(d.byName.Keys), AvailableNames(d));
  }

  /** The text cut at its commas. */
  function Pieces(s: seq<byte>): (r: seq<Name>)
    ensures |r| > 0
  {
    if s == [] then [[]]
    else
      var rest := Pieces(s[1..]);
      if s[0] == COMMA then [[]] + rest else [[s[0]] + rest[0]] + rest[1..]
  }

  lemma {:induction false} NoComma(n: Name)
    requires COMMA !in n
    ensures Pieces(n) == [n]
  {
    if n != [] {
      NoComma(n[1..]);
      assert n == [n[0]] + n[1..];
    }
  }

  lemma {:induction false} FirstComma(n: Name, s: seq<byte>)
    requires COMMA !in n
    ensures Pieces(n + [COMMA] + s) == [n] + Pieces(s)
  {
    var t := n + [COMMA] + s;
    if n == [] {
      assert t[1..] == s;
    } else {
      assert t[0] == n[0] && t[1..] == n[1..] + [COMMA] + s;
      FirstComma(n[1..], s);
      assert n == [n[0]] + n[1..];
    }
  }

  lemma {:induction false} JoinedPieces(names: seq<Name>, last: nat)
    requires |names| <= last + 1 && forall k :: 0 <= k < |names| ==> COMMA !in names[k]
    ensures Pieces(Joined(names, last)) == if |names| == last + 1 then names else names + [[]]
  {
    if names != [] && last > 0 {
      JoinedPieces(names[1..], last - 1);
      FirstComma(names[0], Joined(names[1..], last - 1));
    } else if names != [] {
      assert names[1..] == [] && Joined([], -1) == [];
      assert Joined(names, 0) == names[0] && names == [names[0]];
      NoComma(names[0]);
    }
  }

  /** What a reader sees that cuts the list at its commas. At an offset from -9 to 0 these are the first names, as many
      as `from + 10`, and an empty piece behind them if there are fewer; at any other offset the text is empty. */
  lemma {:induction false} ListedPieces(names: seq<Name>, from: int)
    requires forall k :: 0 <= k < |names| ==> COMMA !in names[k]
    ensures |Listed(names, from)| > 0 && Listed(names, from)[|Listed(names, from)| - 1] == 0
    ensures var text := Listed(names, from)[..|Listed(names, from)| - 1];
            if from > 0 || from < -9 then text == []
            else Pieces(text) == if |names| >= from + 10 then names[..from + 10] else names + [[]]
  {
    hide Pieces, Joined;
    if -10 < from <= 0 {
      var shown := names[..Min(from + 10, |names|)];
      assert Listed(names, from)[..|Listed(names, from)| - 1] == Joined(shown, from + 9);
      JoinedPieces(shown, from + 9);
    }
  }

  // ----- The message fits, and its receiver sees the names -----

  lemma {:induction false} JoinedSize(names: seq<Name>, last: int)
    requires forall k :: 0 <= k < |names| ==> |names[k]| <= MAX_USERNAME_LENGTH && 0 !in names[k]
    ensures |Joined(names, last)| <= (MAX_USERNAME_LENGTH + 1) * |names| && 0 !in Joined(names, last)
  {
    if names != [] {
      JoinedSize(names[1..], last - 1);
    }
  }

  lemma {:induction false} ListedShape(names: seq<Name>, from: int) returns (text: seq<byte>)
    requires forall k :: 0 <= k < |names| ==> |names[k]| <= MAX_USERNAME_LENGTH && 0 !in names[k]
    ensures Listed(names, from) == text + [0] && |text| <= 170 && 0 !in text
  {
    var limit := from + MAX_USERS_IN_MESSAGE;
    var shown := if from > 0 || limit <= 0 then [] else names[..Min(limit, |names|)];
    text := Joined(shown, limit - 1);
    JoinedSize(shown, limit - 1);
    assert |shown| <= MAX_USERS_IN_MESSAGE;
  }

  lemma {:induction false} FieldSize(s: seq<byte>)
    requires |s| <= 171
    ensures |ListField(s)| <= 188
  {
  }

  /** Whatever the offset, the list fits in its message, and what the receiver reads up to the first NUL is the list. */
  lemma {:induction false} ListArrives(d: Der, names: seq<Name>, from: int)
    requires forall k :: 0 <= k < |names| ==> |names[k]| <= MAX_USERNAME_LENGTH && 0 !in names[k]
    ensures var m := UsersList(Listed(names, from));
            && Fits(d, m) && |Encode(d, m)| <= 200
            && Normal(m).UsersList? && CPrefix(Normal(m).usernames) + [0] == Listed(names, from)
  {
    hide Listed, CPrefix, ListField;
    var text := ListedShape(names, from);
    var s := Listed(names, from);
    CPrefixUnique(s, text);
    ListKept(s);
    FieldSize(s);
    assert Body(d, UsersList(s)) == ListField(s);
  }
}
