// Every message by its positions: which byte means what, on the way out and on the way in.

module Layout {
  import opened Bytes
  import opened BufferIO
  import opened Messages

  // ----- Numbers and names -----

  function At16(s: seq<byte>, i: nat): uint16
    requires i + 2 <= |s|
  {
    256 * s[i] as int + s[i + 1] as int
  }

  function At32(s: seq<byte>, i: nat): uint32
    requires i + 4 <= |s|
  {
    16777216 * s[i] as int + 65536 * s[i + 1] as int + 256 * s[i + 2] as int + s[i + 3] as int
  }

  /** The high byte first: this says which bytes they are, since each is below 256. */
  lemma {:induction false} NumberBytes(n: uint16, k: uint32)
    ensures |Be16(n)| == 2 && At16(Be16(n), 0) == n
    ensures |Be32(k)| == 4 && At32(Be32(k), 0) == k
  {
    var hi, lo := k / 0x1_0000, k % 0x1_0000;
    assert Be32(k) == [hi / 0x100, hi % 0x100, lo / 0x100, lo % 0x100];
  }

  /** What is kept of a name: the bytes before its first NUL, 16 at most. */
  lemma {:induction false} NameIsFront(s: seq<byte>)
    ensures Name(s) <= s && |Name(s)| <= 16 && (forall k :: 0 <= k < |Name(s)| ==> s[k] != 0)
    ensures |Name(s)| == 16 || |Name(s)| == |s| || s[|Name(s)|] == 0
  {
    assert forall k :: 0 <= k < |Name(s)| ==> s[k] == Name(s)[k];
  }

  /** A name on the wire is 17 bytes: what is kept of it, and NULs. */
  lemma {:induction false} NameByte(s: seq<byte>, k: nat)
    requires k < 17
    ensures |NameField(s)| == 17
    ensures NameField(s)[k] == if k < |Name(s)| then s[k] else 0
  {
    NameIsFront(s);
  }

  lemma {:induction false} ListSize(s: seq<byte>)
    ensures var n, f := Min(|s|, 17408), ListField(s); (|f| - 1) % 17 == 0 && n <= |f| - 1 < n + 17
  {
    hide CPrefix;
  }

  /** A list on the wire: its text before the first NUL, NULs up to a whole number of slots of 17 bytes that has room
      for the list with its terminators, but no more than 1024 slots, and one NUL more. */
  lemma {:induction false} ListBytes(s: seq<byte>, k: nat)
    requires k < |ListField(s)|
    ensures var n := Min(|s|, 17408);
            && (|ListField(s)| - 1) % 17 == 0 && n <= |ListField(s)| - 1 < n + 17
            && ListField(s)[k] == if k < n && k < |CPrefix(s)| then s[k] else 0
  {
    ListSize(s);
    hide PaddedSize, CPrefix;
    var n := Min(|s|, 17408);
    var p := CPrefix(s)[..Min(|CPrefix(s)|, n)];
    assert k < |p| ==> p[k] == CPrefix(s)[k] == s[k];
  }

  // ----- Out -----

  /** `e` has `s` at position `i`. */
  predicate Stands(e: seq<byte>, i: nat, s: seq<byte>) {
    i + |s| <= |e| && e[i..i + |s|] == s
  }

  /** The type byte and the fields at their positions, and nothing behind them. */
  predicate WrittenAt(d: Der, m: Message, e: seq<byte>) {
    |e| > 0 &&
    match m
    case SecureMessage(ct, tag) =>
      e[0] == 0 && Stands(e, 1, ct) && Stands(e, 1 + |ct|, tag) && |e| == 1 + |ct| + |tag|
    case ClientHello(nonce, myId, otherId, key) =>
      e[0] == 1 && Stands(e, 1, Be32(nonce)) && Stands(e, 5, NameField(myId)) && Stands(e, 22, NameField(otherId)) &&
      Stands(e, 39, d.keyBytes(key)) && |e| == 39 + |d.keyBytes(key)|
    case ServerHello(nonce, myId, otherId, ds, key) =>
      e[0] == 2 && Stands(e, 1, Be32(nonce)) && Stands(e, 5, NameField(myId)) && Stands(e, 22, NameField(otherId)) &&
      |ds| < 0x1_0000_0000 && Stands(e, 39, Be32(|ds|)) && Stands(e, 43, ds) &&
      Stands(e, 43 + |ds|, d.keyBytes(key)) && |e| == 43 + |ds| + |d.keyBytes(key)|
    case ClientVerify(ds) =>
      e[0] == 3 && |ds| < 0x1_0000_0000 && Stands(e, 1, Be32(|ds|)) && Stands(e, 5, ds) && |e| == 5 + |ds|
    case StartGame => e == [4]
    case MoveMessage(col) => e == [5, col]
    case Register(username) => e[0] == 6 && Stands(e, 1, NameField(username)) && |e| == 18
    case Challenge(username) => e[0] == 7 && Stands(e, 1, NameField(username)) && |e| == 18
    case GameEnd => e == [8]
    case UsersList(usernames) => e[0] == 9 && e[1..] == ListField(usernames)
    case UsersListRequest(offset) => e[0] == 10 && Stands(e, 1, Be32(offset)) && |e| == 5
    case ChallengeForward(username) => e[0] == 11 && Stands(e, 1, NameField(username)) && |e| == 18
    case ChallengeResponse(username, response, port) =>
      e[0] == 12 && |e| == 21 && e[1] == (if response then 1 else 0) && Stands(e, 2, Be16(port)) &&
      Stands(e, 4, NameField(username))
    case GameStart(username, addr, cert) =>
      e[0] == 13 && Stands(e, 1, Be32(addr.addr)) && Stands(e, 5, Be16(addr.port)) &&
      Stands(e, 7, NameField(username)) && Stands(e, 24, d.certBytes(cert)) && |e| == 24 + |d.certBytes(cert)|
    case GameCancel(username) => e[0] == 14 && Stands(e, 1, NameField(username)) && |e| == 18
    case CertRequest => e == [15]
    case Certificate(cert) => e[0] == 16 && e[1..] == d.certBytes(cert)
  }

  /** The next field stands here, and the others behind it. */
  lemma {:induction false} Peel(e: seq<byte>, i: nat, s: seq<byte>, rest: seq<byte>)
    requires i <= |e| && e[i..] == s + rest
    ensures Stands(e, i, s) && |e| == i + |s| + |rest| && e[i + |s|..] == rest
  {
    assert e[i..i + |s|] == e[i..][..|s|];
    assert e[i + |s|..] == e[i..][|s|..];
  }

  lemma {:induction false} Assoc(a: seq<byte>, b: seq<byte>, c: seq<byte>, rest: seq<byte>)
    ensures a + b + c + rest == a + (b + (c + rest))
  {
  }

  lemma {:induction false} HelloWritten(d: Der, m: Message)
    requires m.Valid() && m.ClientHello?
    ensures WrittenAt(d, m, Encode(d, m))
  {
    hide NameField, Be32, Stands;
    var e, n, a, b, key := Encode(d, m), Be32(m.nonce), NameField(m.myId), NameField(m.otherId), d.keyBytes(m.ephKey);
    Assoc(n, a, b, key);
    assert e[1..] == n + (a + (b + key));
    Peel(e, 1, n, a + (b + key));
    Peel(e, 5, a, b + key);
    Peel(e, 22, b, key);
    assert key + [] == key;
    Peel(e, 39, key, []);
  }

  lemma {:induction false} ServerHelloWritten(d: Der, m: Message)
    requires m.Valid() && m.ServerHello?
    ensures WrittenAt(d, m, Encode(d, m))
  {
    hide NameField, Be32, Stands;
    var e, n, a, b, key := Encode(d, m), Be32(m.nonce), NameField(m.myId), NameField(m.otherId), d.keyBytes(m.ephKey);
    var l, ds := Be32(|m.ds|), m.ds;
    Assoc(n, a, b, l + ds + key);
    Assoc(l, ds, key, []);
    assert l + ds + key + [] == l + ds + key && key + [] == key;
    assert e[1..] == n + a + b + l + ds + key;
    assert n + a + b + l + ds + key == n + a + b + (l + ds + key);
    Peel(e, 1, n, a + (b + (l + ds + key)));
    Peel(e, 5, a, b + (l + ds + key));
    Peel(e, 22, b, l + ds + key);
    Peel(e, 39, l, ds + key);
    Peel(e, 43, ds, key);
    Peel(e, 43 + |ds|, key, []);
  }

  lemma {:induction false} AddressWritten(d: Der, m: Message)
    requires m.Valid() && (m.GameStart? || m.ChallengeResponse?)
    ensures WrittenAt(d, m, Encode(d, m))
  {
    hide NameField, Be32, Be16, Stands;
    var e, s := Encode(d, m), NameField(m.username);
    if m.GameStart? {
      var a, p, cert := Be32(m.addr.addr), Be16(m.addr.port), d.certBytes(m.cert);
      Assoc(a, p, s, cert);
      assert e[1..] == a + (p + (s + cert)) && cert + [] == cert;
      Peel(e, 1, a, p + (s + cert));
      Peel(e, 5, p, s + cert);
      Peel(e, 7, s, cert);
      Peel(e, 24, cert, []);
    } else {
      var r, p := [if m.response then 1 else 0], Be16(m.port);
      Assoc(r, p, s, []);
      assert e[1..] == r + (p + (s + [])) by {
        assert r + p + s + [] == r + p + s;
      }
      Peel(e, 1, r, p + (s + []));
      Peel(e, 2, p, s + []);
      Peel(e, 4, s, []);
      assert e[1] == r[0] by {
        assert e[1..][0] == r[0];
      }
    }
  }

  lemma {:induction false} RestWritten(d: Der, m: Message)
    requires m.Valid() && !m.ClientHello? && !m.ServerHello? && !m.GameStart? && !m.ChallengeResponse?
    ensures WrittenAt(d, m, Encode(d, m))
  {
    hide NameField, ListField, Be32, Be16;
    var e := Encode(d, m);
    if m.SecureMessage? {
      assert m.tag + [] == m.tag;
      Peel(e, 1, m.ct, m.tag);
      Peel(e, 1 + |m.ct|, m.tag, []);
    }
  }

  /** Each of the seventeen types is written like this. */
  lemma {:induction false} WrittenByPosition(d: Der, m: Message)
    requires m.Valid()
    ensures WrittenAt(d, m, Encode(d, m))
  {
    hide Encode, WrittenAt;
    if m.ClientHello? {
      HelloWritten(d, m);
    } else if m.ServerHello? {
      ServerHelloWritten(d, m);
    } else if m.GameStart? || m.ChallengeResponse? {
      AddressWritten(d, m);
    } else {
      RestWritten(d, m);
    }
  }

  // ----- In -----

  /** What a reader ends with: this message, none, or an exception. */
  datatype Reading = Is(m: Message) | NoMessage | Exception

  function AsReading(r: Read<Message>): Reading
    requires !r.Overrun?
  {
    match r
    case Got(m, _) => Is(m)
    case Malformed => NoMessage
    case Thrown => Exception
  }

  /** The name at a position: the last byte of the message is not looked at, and at its end memory decides. */
  function NameAt(msg: seq<byte>, i: nat, past: seq<byte>): seq<byte> {
    if i < |msg| then Name(msg[i..|msg| - 1]) else Name(past)
  }

  function ReadingOf(d: Der, w: Beyond, msg: seq<byte>): Reading
    requires msg != []
  {
    var n := |msg|;
    match msg[0]
    case 0 => if n < 17 then NoMessage else Is(SecureMessage(msg[1..n - 16], msg[n - 16..]))
    case 1 =>
      if n < 5 then NoMessage
      else if n < 39 then Exception
      else (match d.keyOf(msg[39..])
        case None => Exception
        case Some(key) => Is(ClientHello(At32(msg, 1), NameAt(msg, 5, w.name), NameAt(msg, 22, w.name), key)))
    case 2 =>
      if n < 5 then NoMessage
      else if n < 39 then (match w.wild
        case Returns(m) => Is(m)
        case ReturnsNull => NoMessage
        case Throws => Exception)
      else if n < 43 || n < 43 + At32(msg, 39) then NoMessage
      else
        var end := 43 + At32(msg, 39);
        (match d.keyOf(msg[end..])
         case None => Exception
         case Some(key) =>
           Is(ServerHello(At32(msg, 1), NameAt(msg, 5, w.name), NameAt(msg, 22, w.name), msg[43..end], key)))
    case 3 =>
      if n < 5 || n < 5 + At32(msg, 1) then NoMessage else Is(ClientVerify(msg[5..5 + At32(msg, 1)]))
    case 4 => Is(StartGame)
    case 5 => if n < 2 then NoMessage else Is(MoveMessage(msg[1]))
    case 6 => Is(Register(NameAt(msg, 1, w.name)))
    case 7 => Is(Challenge(NameAt(msg, 1, w.name)))
    case 8 => Is(GameEnd)
    case 9 => if n < 2 then NoMessage else Is(UsersList(if n <= 17409 then msg[1..] else msg[1..17409]))
    case 10 => if n < 5 then NoMessage else Is(UsersListRequest(At32(msg, 1)))
    case 11 => Is(ChallengeForward(NameAt(msg, 1, w.name)))
    case 12 =>
      if n < 4 then NoMessage else Is(ChallengeResponse(NameAt(msg, 4, w.name), msg[1] != 0, At16(msg, 2)))
    case 13 =>
      if n < 7 then NoMessage
      else if n < 24 then Exception
      else (match d.certOf(msg[24..])
        case None => Exception
        case Some(cert) => Is(GameStart(NameAt(msg, 7, w.name), SockAddr(At32(msg, 1), At16(msg, 5)), cert)))
    case 14 => Is(GameCancel(NameAt(msg, 1, w.name)))
    case 15 => Is(CertRequest)
    case 16 => (match d.certOf(msg[1..])
      case None => Exception
      case Some(cert) => Is(Certificate(cert)))
    case _ => NoMessage
  }

  lemma {:induction false} ReadAt(msg: seq<byte>, i: nat)
    requires i <= |msg|
    ensures i + 4 <= |msg| ==> ReadUInt32(msg, i) == Got(At32(msg, i), i + 4)
    ensures i + 4 > |msg| ==> ReadUInt32(msg, i) == Malformed
    ensures i + 2 <= |msg| ==> ReadUInt16(msg, i) == Got(At16(msg, i), i + 2)
    ensures i + 2 > |msg| ==> ReadUInt16(msg, i) == Malformed
  {
    if i + 4 <= |msg| {
      var s := msg[i..i + 4];
      assert s[..2] == [msg[i], msg[i + 1]] && s[2..] == [msg[i + 2], msg[i + 3]];
    }
  }

  lemma {:induction false} HellosRead(d: Der, w: Beyond, msg: seq<byte>)
    requires 0 < |msg| < 0x1_0000 && msg[0] in {1, 2, 13}
    ensures AsReading(Decode(d, w, msg)) == ReadingOf(d, w, msg)
  {
    hide Name;
    ReadAt(msg, 1);
    if |msg| >= 39 {
      ReadAt(msg, 39);
    }
    if |msg| >= 7 {
      var s := msg[1..7];
      assert s[..4] == msg[1..5] && s[4..] == msg[5..7];
      ReadAt(msg, 5);
    }
    hide At32, At16, OfBe32, OfBe16;
    if msg[0] == 13 && |msg| >= 7 {
      AddressRead(msg);
    }
  }

  lemma {:induction false} AddressRead(msg: seq<byte>)
    requires |msg| >= 7
    ensures ReadSockAddr(msg, 1) == Got(SockAddr(At32(msg, 1), At16(msg, 5)), 7)
  {
    var s := msg[1..7];
    assert s[..4] == msg[1..5] && s[4..] == msg[5..7];
    ReadAt(msg, 1);
    ReadAt(msg, 5);
    hide OfBe32, OfBe16, At32, At16;
    assert ReadUInt32(msg, 1) == Got(OfBe32(msg[1..5]), 5);
    assert ReadUInt16(msg, 5) == Got(OfBe16(msg[5..7]), 7);
  }

  lemma {:induction false} NumbersRead(d: Der, w: Beyond, msg: seq<byte>)
    requires 0 < |msg| < 0x1_0000 && msg[0] in {3, 10, 12}
    ensures AsReading(Decode(d, w, msg)) == ReadingOf(d, w, msg)
  {
    hide Name;
    ReadAt(msg, 1);
    if |msg| >= 2 {
      ReadAt(msg, 2);
    }
    hide At32, At16, OfBe32, OfBe16, ReadUInt32, ReadUInt16;
  }

  lemma {:induction false} RestRead(d: Der, w: Beyond, msg: seq<byte>)
    requires 0 < |msg| < 0x1_0000 && msg[0] !in {1, 2, 3, 10, 12, 13}
    ensures AsReading(Decode(d, w, msg)) == ReadingOf(d, w, msg)
  {
    hide Name;
    if msg[0] == 0 && |msg| >= 17 {
      assert msg[1..1 + (|msg| - 17)] == msg[1..|msg| - 16];
      assert msg[|msg| - 16..|msg| - 16 + 16] == msg[|msg| - 16..];
    }
    if msg[0] == 9 && |msg| <= 17409 {
      assert msg[1..|msg|] == msg[1..];
    }
  }

  /** Every byte string is read like this. */
  lemma {:induction false} ReadByPosition(d: Der, w: Beyond, msg: seq<byte>)
    requires 0 < |msg| < 0x1_0000
    ensures AsReading(Decode(d, w, msg)) == ReadingOf(d, w, msg)
  {
    hide Decode, ReadingOf, AsReading;
    if msg[0] in {1, 2, 13} {
      HellosRead(d, w, msg);
    } else if msg[0] in {3, 10, 12} {
      NumbersRead(d, w, msg);
    } else {
      RestRead(d, w, msg);
    }
  }
}
