// The writers and readers of the messages, on byte buffers with a running index.

module MessageIO {
  import opened Bytes
  import opened BufferIO
  import opened Messages

  /** The buffer from `base` on has the maximum size, or at least room for this message. */
  ghost predicate RoomFor(d: Der, m: Message, room: int)
    requires m.Valid()
  {
    room >= MAX_MSG_SIZE || (Fits(d, m) && |Encode(d, m)| <= room)
  }

  /** A writer puts exactly the encoding at `base` and returns its length, or returns 0. */
  twostate predicate WroteMessage(d: Der, m: Message, buf: array<byte>, base: nat, n: nat)
    requires m.Valid()
    reads buf
  {
    && n == (if Fits(d, m) then |Encode(d, m)| else 0)
    && (n > 0 ==> Wrote(old(buf[..]), buf[..], base, Encode(d, m)))
  }

  // One field after the bytes `done` that stand at `base` already. Fixed-size fields come first
  // and always fit; only a field of free size can run out of room.

  method Put8(buf: array<byte>, base: nat, i: nat, val: byte, ghost was: seq<byte>,
    ghost done: seq<byte>)
    returns (j: nat)
    requires Wrote(was, buf[..], base, done) && i == |done| < MAX_MSG_SIZE && base + i + 1 <= buf.Length
    modifies buf
    ensures Wrote(was, buf[..], base, done + [val]) && j == i + 1
  {
    ghost var b := buf[..];
    var ret := WriteUInt8(buf, base + i, MAX_MSG_SIZE - i, val);
    WroteBoth(was, b, buf[..], base, done, [val]);
    return i + ret;
  }

  method Put16(buf: array<byte>, base: nat, i: nat, val: uint16, ghost was: seq<byte>,
    ghost done: seq<byte>)
    returns (j: nat)
    requires Wrote(was, buf[..], base, done) && i == |done| && i + 2 <= MAX_MSG_SIZE && base + i + 2 <= buf.Length
    modifies buf
    ensures Wrote(was, buf[..], base, done + Be16(val)) && j == i + 2
  {
    ghost var b := buf[..];
    var ret := WriteUInt16(buf, base + i, MAX_MSG_SIZE - i, val);
    WroteBoth(was, b, buf[..], base, done, Be16(val));
    return i + ret;
  }

  method Put32(buf: array<byte>, base: nat, i: nat, val: uint32, ghost was: seq<byte>,
    ghost done: seq<byte>)
    returns (j: nat)
    requires Wrote(was, buf[..], base, done) && i == |done| && i + 4 <= MAX_MSG_SIZE && base + i + 4 <= buf.Length
    modifies buf
    ensures Wrote(was, buf[..], base, done + Be32(val)) && j == i + 4
  {
    ghost var b := buf[..];
    var ret := WriteUInt32(buf, base + i, MAX_MSG_SIZE - i, val);
    WroteBoth(was, b, buf[..], base, done, Be32(val));
    return i + ret;
  }

  method PutName(buf: array<byte>, base: nat, i: nat, val: seq<byte>, ghost was: seq<byte>,
    ghost done: seq<byte>)
    returns (j: nat)
    requires Wrote(was, buf[..], base, done) && i == |done| && i + 17 <= MAX_MSG_SIZE && base + i + 17 <= buf.Length
    modifies buf
    ensures Wrote(was, buf[..], base, done + NameField(val)) && j == i + 17
  {
    ghost var b := buf[..];
    var ret := WriteUsername(buf, base + i, MAX_MSG_SIZE - i, val);
    WroteBoth(was, b, buf[..], base, done, NameField(val));
    return i + ret;
  }

  method PutBytes(buf: array<byte>, base: nat, i: nat, val: seq<byte>, ghost was: seq<byte>, ghost done: seq<byte>)
    returns (j: nat)
    requires Wrote(was, buf[..], base, done) && i == |done| && 0 < i <= MAX_MSG_SIZE
    requires i + |val| <= MAX_MSG_SIZE ==> base + i + |val| <= buf.Length
    modifies buf
    ensures j == if i + |val| <= MAX_MSG_SIZE then i + |val| else 0
    ensures j > 0 ==> Wrote(was, buf[..], base, done + val)
  {
    ghost var b := buf[..];
    var ret := WriteBuf(buf, base + i, MAX_MSG_SIZE - i, val);
    if ret < 0 {
      return 0;
    }
    WroteBoth(was, b, buf[..], base, done, val);
    return i + ret;
  }

  /** The type byte that starts every message. */
  method PutType(d: Der, m: Message, buf: array<byte>, base: nat) returns (i: nat)
    requires m.Valid() && RoomFor(d, m, buf.Length - base)
    modifies buf
    ensures i == 1 && Wrote(old(buf[..]), buf[..], base, [m.Type()])
  {
    ghost var was := buf[..];
    assert Wrote(was, buf[..], base, []);
    i := Put8(buf, base, 0, m.Type(), was, []);
    assert [] + [m.Type()] == [m.Type()];
  }

  method WriteClientHello(d: Der, m: Message, buf: array<byte>, base: nat) returns (n: nat)
    requires m.ClientHello? && m.Valid() && RoomFor(d, m, buf.Length - base)
    modifies buf
    ensures WroteMessage(d, m, buf, base, n)
  {
    hide Wrote, NameField, Be32;
    ghost var was := buf[..];
    ghost var p1 := [m.Type()] + Be32(m.nonce);
    ghost var p2 := p1 + NameField(m.myId);
    ghost var p3 := p2 + NameField(m.otherId);
    assert Encode(d, m) == p3 + d.keyBytes(m.ephKey);
    var i := PutType(d, m, buf, base);
    i := Put32(buf, base, i, m.nonce, was, [m.Type()]);
    i := PutName(buf, base, i, m.myId, was, p1);
    i := PutName(buf, base, i, m.otherId, was, p2);
    n := PutBytes(buf, base, i, d.keyBytes(m.ephKey), was, p3);
  }

  method WriteServerHello(d: Der, m: Message, buf: array<byte>, base: nat) returns (n: nat)
    requires m.ServerHello? && m.Valid() && RoomFor(d, m, buf.Length - base)
    modifies buf
    ensures WroteMessage(d, m, buf, base, n)
  {
    hide Wrote, NameField, Be32;
    ghost var was := buf[..];
    ghost var p1 := [m.Type()] + Be32(m.nonce);
    ghost var p2 := p1 + NameField(m.myId);
    ghost var p3 := p2 + NameField(m.otherId);
    ghost var p4 := p3 + Be32(|m.ds|);
    assert Encode(d, m) == p4 + m.ds + d.keyBytes(m.ephKey);
    var i := PutType(d, m, buf, base);
    i := Put32(buf, base, i, m.nonce, was, [m.Type()]);
    i := PutName(buf, base, i, m.myId, was, p1);
    i := PutName(buf, base, i, m.otherId, was, p2);
    i := Put32(buf, base, i, |m.ds|, was, p3);
    i := PutBytes(buf, base, i, m.ds, was, p4);
    if i == 0 {
      return 0;
    }
    n := PutBytes(buf, base, i, d.keyBytes(m.ephKey), was, p4 + m.ds);
  }

  method WriteClientVerify(d: Der, m: Message, buf: array<byte>, base: nat) returns (n: nat)
    requires m.ClientVerify? && m.Valid() && RoomFor(d, m, buf.Length - base)
    modifies buf
    ensures WroteMessage(d, m, buf, base, n)
  {
    hide Wrote, Be32;
    ghost var was := buf[..];
    assert Encode(d, m) == [m.Type()] + Be32(|m.ds|) + m.ds;
    var i := PutType(d, m, buf, base);
    i := Put32(buf, base, i, |m.ds|, was, [m.Type()]);
    n := PutBytes(buf, base, i, m.ds, was, [m.Type()] + Be32(|m.ds|));
  }

  method WriteSecure(d: Der, m: Message, buf: array<byte>, base: nat) returns (n: nat)
    requires m.SecureMessage? && m.Valid() && RoomFor(d, m, buf.Length - base)
    modifies buf
    ensures WroteMessage(d, m, buf, base, n)
  {
    hide Wrote;
    ghost var was := buf[..];
    assert Encode(d, m) == [m.Type()] + m.ct + m.tag;
    var i := PutType(d, m, buf, base);
    i := PutBytes(buf, base, i, m.ct, was, [m.Type()]);
    if i == 0 {
      return 0;
    }
    n := PutBytes(buf, base, i, m.tag, was, [m.Type()] + m.ct);
  }

  method WriteChallengeResponse(d: Der, m: Message, buf: array<byte>, base: nat) returns (n: nat)
    requires m.ChallengeResponse? && m.Valid() && RoomFor(d, m, buf.Length - base)
    modifies buf
    ensures WroteMessage(d, m, buf, base, n)
  {
    hide Wrote, NameField, Be16;
    ghost var was := buf[..];
    ghost var b: seq<byte> := [if m.response then 1 else 0];
    assert Encode(d, m) == [m.Type()] + b + Be16(m.port) + NameField(m.username);
    var i := PutType(d, m, buf, base);
    i := Put8(buf, base, i, if m.response then 1 else 0, was, [m.Type()]);
    i := Put16(buf, base, i, m.port, was, [m.Type()] + b);
    n := PutName(buf, base, i, m.username, was, [m.Type()] + b + Be16(m.port));
  }

  method WriteGameStart(d: Der, m: Message, buf: array<byte>, base: nat) returns (n: nat)
    requires m.GameStart? && m.Valid() && RoomFor(d, m, buf.Length - base)
    modifies buf
    ensures WroteMessage(d, m, buf, base, n)
  {
    hide Wrote, NameField, Be32, Be16;
    ghost var was := buf[..];
    ghost var p1 := [m.Type()] + Be32(m.addr.addr);
    ghost var p2 := p1 + Be16(m.addr.port);
    ghost var p3 := p2 + NameField(m.username);
    assert Encode(d, m) == p3 + d.certBytes(m.cert);
    var i := PutType(d, m, buf, base);
    i := Put32(buf, base, i, m.addr.addr, was, [m.Type()]);
    i := Put16(buf, base, i, m.addr.port, was, p1);
    i := PutName(buf, base, i, m.username, was, p2);
    n := PutBytes(buf, base, i, d.certBytes(m.cert), was, p3);
  }

  /** A padded list that passes the size check leaves room for one more byte. */
  lemma {:induction false} PaddedLeavesRoom(n: nat)
    requires PaddedSize(n) <= MAX_MSG_SIZE - 1
    ensures n <= PaddedSize(n) <= MAX_MSG_SIZE - 2
  {
  }

  method WriteUsersList(d: Der, m: Message, buf: array<byte>, base: nat) returns (n: nat)
    requires m.UsersList? && m.Valid() && RoomFor(d, m, buf.Length - base)
    modifies buf
    ensures WroteMessage(d, m, buf, base, n)
  {
    hide Wrote;
    ghost var was := buf[..];
    var size := Min(|m.usernames|, MAX_LIST);
    var padded := PaddedSize(size);
    var i := PutType(d, m, buf, base);
    if padded > MAX_MSG_SIZE - i {
      return 0;
    }
    PaddedLeavesRoom(size);
    var p := CPrefix(m.usernames);
    p := p[..Min(|p|, size)];
    assert Encode(d, m) == [m.Type()] + p + Zeros(padded + 1 - |p|);
    i := PutBytes(buf, base, i, p, was, [m.Type()]);
    n := PutBytes(buf, base, i, Zeros(padded + 1 - |p|), was, [m.Type()] + p);
  }

  /** The messages without fields, with one name, or with one short field. */
  method WriteShort(d: Der, m: Message, buf: array<byte>, base: nat) returns (n: nat)
    requires m.StartGame? || m.GameEnd? || m.CertRequest? || m.MoveMessage? || m.UsersListRequest?
          || m.Register? || m.Challenge? || m.ChallengeForward? || m.GameCancel?
    requires m.Valid() && RoomFor(d, m, buf.Length - base)
    modifies buf
    ensures WroteMessage(d, m, buf, base, n)
  {
    hide Wrote, NameField, Be32;
    ghost var was := buf[..];
    assert |Body(d, m)| <= 17;
    n := PutType(d, m, buf, base);
    match m {
      case MoveMessage(col) =>
        n := Put8(buf, base, n, col, was, [m.Type()]);
      case UsersListRequest(offset) =>
        n := Put32(buf, base, n, offset, was, [m.Type()]);
      case Register(username) =>
        n := PutName(buf, base, n, username, was, [m.Type()]);
      case Challenge(username) =>
        n := PutName(buf, base, n, username, was, [m.Type()]);
      case ChallengeForward(username) =>
        n := PutName(buf, base, n, username, was, [m.Type()]);
      case GameCancel(username) =>
        n := PutName(buf, base, n, username, was, [m.Type()]);
      case StartGame =>
        assert Encode(d, m) == [m.Type()];
      case GameEnd =>
        assert Encode(d, m) == [m.Type()];
      case CertRequest =>
        assert Encode(d, m) == [m.Type()];
    }
  }

  method WriteCertificate(d: Der, m: Message, buf: array<byte>, base: nat) returns (n: nat)
    requires m.Certificate? && m.Valid() && RoomFor(d, m, buf.Length - base)
    modifies buf
    ensures WroteMessage(d, m, buf, base, n)
  {
    hide Wrote;
    ghost var was := buf[..];
    n := PutType(d, m, buf, base);
    n := PutBytes(buf, base, n, d.certBytes(m.cert), was, [m.Type()]);
  }

  /** The writer of the message's own class. */
  method Write(d: Der, m: Message, buf: array<byte>, base: nat) returns (n: nat)
    requires m.Valid() && RoomFor(d, m, buf.Length - base)
    modifies buf
    ensures WroteMessage(d, m, buf, base, n)
  {
    hide Wrote, Fits, RoomFor, Encode;
    match m {
      case SecureMessage(_, _) => n := WriteSecure(d, m, buf, base);
      case ClientHello(_, _, _, _) => n := WriteClientHello(d, m, buf, base);
      case ServerHello(_, _, _, _, _) => n := WriteServerHello(d, m, buf, base);
      case ClientVerify(_) => n := WriteClientVerify(d, m, buf, base);
      case UsersList(_) => n := WriteUsersList(d, m, buf, base);
      case ChallengeResponse(_, _, _) => n := WriteChallengeResponse(d, m, buf, base);
      case GameStart(_, _, _) => n := WriteGameStart(d, m, buf, base);
      case Certificate(_) => n := WriteCertificate(d, m, buf, base);
      case _ => n := WriteShort(d, m, buf, base);
    }
  }

  // ----- Readers: the message is buf[base..base + len] -----

  lemma {:induction false} SliceOfMessage(buf: array<byte>, base: nat, len: nat, i: nat, n: nat)
    requires base + len <= buf.Length && i + n <= len
    ensures buf[base + i..base + i + n] == buf[base..base + len][i..i + n]
  {
    var a, b := buf[base + i..base + i + n], buf[base..base + len][i..i + n];
    forall k | 0 <= k < n
      ensures a[k] == b[k]
    {
      assert b[k] == buf[base..base + len][i + k] == buf[base + i + k];
    }
  }

  method GetBytes(buf: array<byte>, base: nat, len: nat, i: nat, n: nat) returns (r: Read<seq<byte>>)
    requires base + len <= buf.Length
    ensures r == ReadBytes(buf[base..base + len], i, n)
  {
    if i <= len {
      if len - i < n {
        return Malformed;
      }
      SliceOfMessage(buf, base, len, i, n);
      return Got(buf[base + i..base + i + n], i + n);
    }
    return if n == 0 then Got([], i) else Overrun;
  }

  method GetUInt16(buf: array<byte>, base: nat, len: nat, i: nat) returns (r: Read<uint16>)
    requires base + len <= buf.Length
    ensures r == ReadUInt16(buf[base..base + len], i)
  {
    var s :- GetBytes(buf, base, len, i, 2);
    return Got(OfBe16(s.0), s.1);
  }

  method GetUInt32(buf: array<byte>, base: nat, len: nat, i: nat) returns (r: Read<uint32>)
    requires base + len <= buf.Length
    ensures r == ReadUInt32(buf[base..base + len], i)
  {
    var s :- GetBytes(buf, base, len, i, 4);
    return Got(OfBe32(s.0), s.1);
  }

  lemma {:induction false} NameUpTo(field: seq<byte>, size: nat)
    requires size <= |field| && 0 !in field[..size] && (size == |field| || field[size] == 0)
    ensures Name(field) == field[..Min(size, MAX_USERNAME_LENGTH)]
  {
    CPrefixUnique(field, field[..size]);
  }

  /** strnlen: how many bytes there are before the first NUL, at most `max`. */
  method Strnlen(buf: array<byte>, at: nat, max: nat) returns (size: nat)
    requires at + max <= buf.Length
    ensures size <= max && 0 !in buf[at..at + size] && (size == max || buf[at + size] == 0)
  {
    size := 0;
    while size < max && buf[at + size] != 0
      invariant size <= max && forall k :: at <= k < at + size ==> buf[k] != 0
    {
      size := size + 1;
    }
  }

  method GetName(past: seq<byte>, buf: array<byte>, base: nat, len: nat, i: nat) returns (r: (seq<byte>, nat))
    requires base + len <= buf.Length
    ensures r == ReadName(past, buf[base..base + len], i)
  {
    hide Name;
    if i >= len {
      return (Name(past), i + MAX_USERNAME_LENGTH + 1);
    }
    var size := Strnlen(buf, base + i, len - i - 1);
    ghost var room := len - i - 1;
    ghost var field := buf[base..base + len][i..i + room];
    SliceOfMessage(buf, base, len, i, room);
    FrontOfSlice(buf, base + i, room, size);
    NameUpTo(field, size);
    var kept := Min(size, MAX_USERNAME_LENGTH);
    FrontOfSlice(buf, base + i, room, kept);
    return (buf[base + i..base + i + kept], i + MAX_USERNAME_LENGTH + 1);
  }

  lemma {:induction false} FrontOfSlice(buf: array<byte>, at: nat, n: nat, k: nat)
    requires at + n <= buf.Length && k <= n
    ensures buf[at..at + n][..k] == buf[at..at + k]
  {
  }

  method GetKey(d: Der, buf: array<byte>, base: nat, len: nat, i: nat) returns (r: Read<PublicKey>)
    requires base + len <= buf.Length
    ensures r == ReadKey(d, buf[base..base + len], i)
  {
    if i > len {
      return Thrown;
    }
    assert buf[base + i..base + len] == buf[base..base + len][i..];
    var k := d.keyOf(buf[base + i..base + len]);
    return if k.Some? then Got(k.value, i + 1) else Thrown;
  }

  method GetCert(d: Der, buf: array<byte>, base: nat, len: nat, i: nat) returns (r: Read<Cert>)
    requires base + len <= buf.Length
    ensures r == ReadCert(d, buf[base..base + len], i)
  {
    if i > len {
      return Thrown;
    }
    assert buf[base + i..base + len] == buf[base..base + len][i..];
    var c := d.certOf(buf[base + i..base + len]);
    return if c.Some? then Got(c.value, i + 1) else Thrown;
  }

  method GetSecure(buf: array<byte>, base: nat, len: nat) returns (r: Read<Message>)
    requires base + len <= buf.Length && 0 < len < 0x1_0000
    ensures r == ReadSecure(buf[base..base + len])
  {
    hide ReadBytes;
    var size := (len - 1 - TAG_SIZE + 0x1_0000) % 0x1_0000;
    var ct :- GetBytes(buf, base, len, 1, size);
    var tag :- GetBytes(buf, base, len, ct.1, TAG_SIZE);
    return Got(SecureMessage(ct.0, tag.0), tag.1);
  }

  method GetClientHello(d: Der, w: Beyond, buf: array<byte>, base: nat, len: nat) returns (r: Read<Message>)
    requires base + len <= buf.Length
    ensures r == ReadClientHello(d, w, buf[base..base + len])
  {
    hide ReadUInt32, ReadName, ReadKey;
    var nonce :- GetUInt32(buf, base, len, 1);
    var myId := GetName(w.name, buf, base, len, nonce.1);
    var otherId := GetName(w.name, buf, base, len, myId.1);
    var key :- GetKey(d, buf, base, len, otherId.1);
    return Got(ClientHello(nonce.0, myId.0, otherId.0, key.0), key.1);
  }

  method GetServerHello(d: Der, w: Beyond, buf: array<byte>, base: nat, len: nat) returns (r: Read<Message>)
    requires base + len <= buf.Length
    ensures r == ReadServerHello(d, w, buf[base..base + len])
  {
    hide ReadUInt32, ReadName, ReadKey, ReadBytes;
    var nonce :- GetUInt32(buf, base, len, 1);
    var myId := GetName(w.name, buf, base, len, nonce.1);
    var otherId := GetName(w.name, buf, base, len, myId.1);
    var size :- GetUInt32(buf, base, len, otherId.1);
    var ds :- GetBytes(buf, base, len, size.1, size.0);
    var key :- GetKey(d, buf, base, len, ds.1);
    return Got(ServerHello(nonce.0, myId.0, otherId.0, ds.0, key.0), key.1);
  }

  method GetClientVerify(buf: array<byte>, base: nat, len: nat) returns (r: Read<Message>)
    requires base + len <= buf.Length
    ensures r == ReadClientVerify(buf[base..base + len])
  {
    hide ReadUInt32, ReadBytes;
    var size :- GetUInt32(buf, base, len, 1);
    var ds :- GetBytes(buf, base, len, size.1, size.0);
    return Got(ClientVerify(ds.0), ds.1);
  }

  method GetChallengeResponse(w: Beyond, buf: array<byte>, base: nat, len: nat) returns (r: Read<Message>)
    requires base + len <= buf.Length
    ensures r == ReadChallengeResponse(w, buf[base..base + len])
  {
    hide ReadUInt16, ReadName, ReadBytes;
    var response :- GetBytes(buf, base, len, 1, 1);
    var port :- GetUInt16(buf, base, len, response.1);
    var username := GetName(w.name, buf, base, len, port.1);
    return Got(ChallengeResponse(username.0, response.0[0] != 0, port.0), username.1);
  }

  method GetGameStart(d: Der, w: Beyond, buf: array<byte>, base: nat, len: nat) returns (r: Read<Message>)
    requires base + len <= buf.Length
    ensures r == ReadGameStart(d, w, buf[base..base + len])
  {
    hide ReadName, ReadCert, ReadBytes;
    var a :- GetBytes(buf, base, len, 1, 6);
    var username := GetName(w.name, buf, base, len, a.1);
    var cert :- GetCert(d, buf, base, len, username.1);
    return Got(GameStart(username.0, SockAddr(OfBe32(a.0[..4]), OfBe16(a.0[4..])), cert.0), cert.1);
  }

  method GetUsersList(buf: array<byte>, base: nat, len: nat) returns (r: Read<Message>)
    requires base + len <= buf.Length && 0 < len
    ensures r == ReadUsersList(buf[base..base + len])
  {
    var n := Min(MAX_LIST, len - 1);
    if n <= 0 {
      return Malformed;
    }
    SliceOfMessage(buf, base, len, 1, n);
    return Got(UsersList(buf[base + 1..base + 1 + n]), 1 + n);
  }

  /** Chooses the reader by the first byte and runs it. */
  method RunReader(d: Der, w: Beyond, buf: array<byte>, base: nat, len: nat) returns (r: Read<Message>)
    requires base + len <= buf.Length && len < 0x1_0000
    ensures r == Parse(d, w, buf[base..base + len])
  {
    hide ReadName, ReadUInt32, ReadCert, ReadBytes, ReadSecure, ReadClientHello, ReadServerHello, ReadClientVerify,
      ReadUsersList, ReadChallengeResponse, ReadGameStart;
    if len == 0 {
      return Overrun;
    }
    var t := buf[base];
    if t == 0 {
      r := GetSecure(buf, base, len);
    } else if t == 1 {
      r := GetClientHello(d, w, buf, base, len);
    } else if t == 2 {
      r := GetServerHello(d, w, buf, base, len);
    } else if t == 3 {
      r := GetClientVerify(buf, base, len);
    } else if t == 4 {
      r := Got(StartGame, 1);
    } else if t == 5 {
      var col :- GetBytes(buf, base, len, 1, 1);
      r := Got(MoveMessage(col.0[0]), col.1);
    } else if t == 6 || t == 7 || t == 11 || t == 14 {
      var username := GetName(w.name, buf, base, len, 1);
      r := Got(if t == 6 then Register(username.0) else if t == 7 then Challenge(username.0)
               else if t == 11 then ChallengeForward(username.0) else GameCancel(username.0), username.1);
    } else if t == 8 {
      r := Got(GameEnd, 1);
    } else if t == 9 {
      r := GetUsersList(buf, base, len);
    } else if t == 10 {
      var offset :- GetUInt32(buf, base, len, 1);
      r := Got(UsersListRequest(offset.0), offset.1);
    } else if t == 12 {
      r := GetChallengeResponse(w, buf, base, len);
    } else if t == 13 {
      r := GetGameStart(d, w, buf, base, len);
    } else if t == 15 {
      r := Got(CertRequest, 1);
    } else if t == 16 {
      var cert :- GetCert(d, buf, base, len, 1);
      r := Got(Certificate(cert.0), cert.1);
    } else {
      r := Malformed;
    }
  }

  method ReadMessage(d: Der, w: Beyond, buf: array<byte>, base: nat, len: nat) returns (r: Read<Message>)
    requires base + len <= buf.Length && len < 0x1_0000
    ensures r == Decode(d, w, buf[base..base + len])
  {
    hide Parse;
    r := RunReader(d, w, buf, base, len);
    if r.Overrun? {
      match w.wild {
        case Returns(m) => r := Got(m, 0);
        case ReturnsNull => r := Malformed;
        case Throws => r := Thrown;
      }
    }
  }
}
