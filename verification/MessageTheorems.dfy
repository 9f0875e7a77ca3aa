// Every message that can be written is read back.

module MessageTheorems {
  import opened Bytes
  import opened BufferIO
  import opened Messages

  /** What a message becomes on the way: names lose what follows a NUL or the 16th byte, the user list is padded. */
  function Normal(m: Message): (r: Message)
    ensures r.Type() == m.Type()
  {
    match m
    case SecureMessage(_, _) => m
    case ClientHello(nonce, myId, otherId, key) => ClientHello(nonce, Name(myId), Name(otherId), key)
    case ServerHello(nonce, myId, otherId, ds, key) => ServerHello(nonce, Name(myId), Name(otherId), ds, key)
    case ClientVerify(_) => m
    case StartGame => m
    case MoveMessage(_) => m
    case Register(username) => Register(Name(username))
    case Challenge(username) => Challenge(Name(username))
    case GameEnd => m
    case UsersList(usernames) => UsersList(ListField(usernames))
    case UsersListRequest(_) => m
    case ChallengeForward(username) => ChallengeForward(Name(username))
    case ChallengeResponse(username, response, port) => ChallengeResponse(Name(username), response, port)
    case GameStart(username, addr, cert) => GameStart(Name(username), addr, cert)
    case GameCancel(username) => GameCancel(Name(username))
    case CertRequest => m
    case Certificate(_) => m
  }

  lemma {:induction false} NameOfName(s: seq<byte>)
    ensures Name(Name(s)) == Name(s)
  {
    CPrefixUnique(Name(s), Name(s));
  }

  lemma {:induction false} SecureBack(d: Der, m: Message)
    requires m.SecureMessage? && m.Valid() && Fits(d, m)
    ensures ReadSecure(Encode(d, m)).Got? && ReadSecure(Encode(d, m)).value == m
  {
    var msg := Encode(d, m);
    assert msg == [0] + m.ct + m.tag;
    BytesBack([0], m.ct, m.tag);
    BytesBack([0] + m.ct, m.tag, []);
    assert msg == [0] + m.ct + m.tag + [];
  }

  lemma {:induction false} KeyBack(d: Der, pre: seq<byte>, k: PublicKey)
    requires d.Lawful()
    ensures ReadKey(d, pre + d.keyBytes(k), |pre|) == Got(k, |pre| + 1)
  {
    assert (pre + d.keyBytes(k))[|pre|..] == d.keyBytes(k);
  }

  lemma {:induction false} CertBack(d: Der, pre: seq<byte>, c: Cert)
    requires d.Lawful()
    ensures ReadCert(d, pre + d.certBytes(c), |pre|) == Got(c, |pre| + 1)
  {
    assert (pre + d.certBytes(c))[|pre|..] == d.certBytes(c);
  }

  lemma {:induction false} ClientHelloBack(d: Der, w: Beyond, m: Message)
    requires m.ClientHello? && m.Valid() && d.Lawful()
    ensures ReadClientHello(d, w, Encode(d, m)).Got? && ReadClientHello(d, w, Encode(d, m)).value == Normal(m)
  {
    hide ReadUInt32, ReadName, ReadKey, NameField, Be32;
    var msg := Encode(d, m);
    var key := d.keyBytes(m.ephKey);
    var p1 := [1] + Be32(m.nonce);
    var p2 := p1 + NameField(m.myId);
    var p3 := p2 + NameField(m.otherId);
    assert msg == [1] + Be32(m.nonce) + (NameField(m.myId) + NameField(m.otherId) + key);
    UInt32Back([1], m.nonce, NameField(m.myId) + NameField(m.otherId) + key);
    assert msg == p1 + NameField(m.myId) + (NameField(m.otherId) + key);
    NameBack(w.name, p1, m.myId, NameField(m.otherId) + key);
    assert msg == p2 + NameField(m.otherId) + key;
    NameBack(w.name, p2, m.otherId, key);
    assert msg == p3 + key;
    KeyBack(d, p3, m.ephKey);
  }

  lemma {:induction false} ServerHelloBack(d: Der, w: Beyond, m: Message)
    requires m.ServerHello? && m.Valid() && d.Lawful()
    ensures ReadServerHello(d, w, Encode(d, m)).Got? && ReadServerHello(d, w, Encode(d, m)).value == Normal(m)
  {
    hide ReadUInt32, ReadName, ReadBytes, ReadKey, NameField, Be32;
    var msg := Encode(d, m);
    var key := d.keyBytes(m.ephKey);
    var p1 := [2] + Be32(m.nonce);
    var p2 := p1 + NameField(m.myId);
    var p3 := p2 + NameField(m.otherId);
    var p4 := p3 + Be32(|m.ds|);
    var p5 := p4 + m.ds;
    assert msg == [2] + Be32(m.nonce) + (NameField(m.myId) + NameField(m.otherId) + Be32(|m.ds|) + m.ds + key);
    UInt32Back([2], m.nonce, NameField(m.myId) + NameField(m.otherId) + Be32(|m.ds|) + m.ds + key);
    assert msg == p1 + NameField(m.myId) + (NameField(m.otherId) + Be32(|m.ds|) + m.ds + key);
    NameBack(w.name, p1, m.myId, NameField(m.otherId) + Be32(|m.ds|) + m.ds + key);
    assert msg == p2 + NameField(m.otherId) + (Be32(|m.ds|) + m.ds + key);
    NameBack(w.name, p2, m.otherId, Be32(|m.ds|) + m.ds + key);
    assert msg == p3 + Be32(|m.ds|) + (m.ds + key);
    UInt32Back(p3, |m.ds|, m.ds + key);
    assert msg == p4 + m.ds + key;
    BytesBack(p4, m.ds, key);
    assert msg == p5 + key;
    KeyBack(d, p5, m.ephKey);
  }

  lemma {:induction false} ClientVerifyBack(d: Der, m: Message)
    requires m.ClientVerify? && m.Valid()
    ensures ReadClientVerify(Encode(d, m)).Got? && ReadClientVerify(Encode(d, m)).value == m
  {
    var msg := Encode(d, m);
    assert msg == [3] + Be32(|m.ds|) + m.ds;
    UInt32Back([3], |m.ds|, m.ds);
    BytesBack([3] + Be32(|m.ds|), m.ds, []);
    assert msg == [3] + Be32(|m.ds|) + m.ds + [];
  }

  lemma {:induction false} ChallengeResponseBack(d: Der, w: Beyond, m: Message)
    requires m.ChallengeResponse? && m.Valid()
    ensures ReadChallengeResponse(w, Encode(d, m)).Got? && ReadChallengeResponse(w, Encode(d, m)).value == Normal(m)
  {
    var msg := Encode(d, m);
    var b: seq<byte> := [if m.response then 1 else 0];
    assert msg == [12] + b + (Be16(m.port) + NameField(m.username));
    BoolBack([12], m.response, Be16(m.port) + NameField(m.username));
    assert msg == [12] + b + Be16(m.port) + NameField(m.username);
    UInt16Back([12] + b, m.port, NameField(m.username));
    assert msg == [12] + b + Be16(m.port) + NameField(m.username) + [];
    NameBack(w.name, [12] + b + Be16(m.port), m.username, []);
  }

  lemma {:induction false} GameStartBack(d: Der, w: Beyond, m: Message)
    requires m.GameStart? && m.Valid() && d.Lawful()
    ensures ReadGameStart(d, w, Encode(d, m)).Got? && ReadGameStart(d, w, Encode(d, m)).value == Normal(m)
  {
    var msg := Encode(d, m);
    var cert := d.certBytes(m.cert);
    var a := Be32(m.addr.addr) + Be16(m.addr.port);
    assert msg == [13] + a + (NameField(m.username) + cert);
    BytesBack([13], a, NameField(m.username) + cert);
    assert a[..4] == Be32(m.addr.addr) && a[4..] == Be16(m.addr.port);
    Be32RoundTrip(m.addr.addr);
    Be16RoundTrip(m.addr.port);
    assert msg == [13] + a + NameField(m.username) + cert;
    NameBack(w.name, [13] + a, m.username, cert);
    CertBack(d, [13] + a + NameField(m.username), m.cert);
  }

  lemma {:induction false} OneNameBack(d: Der, w: Beyond, m: Message, s: seq<byte>)
    requires m.Valid() && Body(d, m) == NameField(s)
    ensures ReadName(w.name, Encode(d, m), 1) == (Name(s), 1 + MAX_USERNAME_LENGTH + 1)
  {
    assert Encode(d, m) == [m.Type()] + NameField(s) + [];
    NameBack(w.name, [m.Type()], s, []);
  }

  lemma {:induction false} ShortFieldsBack(d: Der, w: Beyond, m: Message)
    requires m.Valid() && (m.MoveMessage? || m.UsersListRequest?)
    ensures Decode(d, w, Encode(d, m)).Got? && Decode(d, w, Encode(d, m)).value == Normal(m)
  {
    var msg := Encode(d, m);
    if m.MoveMessage? {
      assert msg == [5] + [m.col] + [];
      UInt8Back([5], m.col, []);
    } else if m.UsersListRequest? {
      assert msg == [10] + Be32(m.offset) + [];
      UInt32Back([10], m.offset, []);
    }
  }

  lemma {:induction false} ListBack(d: Der, w: Beyond, m: Message)
    requires m.Valid() && m.UsersList? && Fits(d, m)
    ensures Decode(d, w, Encode(d, m)).Got? && Decode(d, w, Encode(d, m)).value == Normal(m)
  {
    hide ListField;
    var msg := Encode(d, m);
    assert msg[1..] == ListField(m.usernames);
    assert msg[1..|msg|] == msg[1..];
  }

  /** Reading what was written gives back the message, for every type of message. */
  lemma {:induction false} RoundTrip(d: Der, w: Beyond, m: Message)
    requires d.Lawful() && m.Valid() && Fits(d, m)
    ensures Decode(d, w, Encode(d, m)).Got? && Decode(d, w, Encode(d, m)).value == Normal(m)
  {
    hide ReadSecure, ReadClientHello, ReadServerHello, ReadClientVerify, ReadUsersList, ReadChallengeResponse,
      ReadGameStart, ReadBytes, NameField, Name, ListField;
    match m
    case SecureMessage(_, _) => SecureBack(d, m);
    case ClientHello(_, _, _, _) => ClientHelloBack(d, w, m);
    case ServerHello(_, _, _, _, _) => ServerHelloBack(d, w, m);
    case ClientVerify(_) => ClientVerifyBack(d, m);
    case Register(s) => OneNameBack(d, w, m, s);
    case Challenge(s) => OneNameBack(d, w, m, s);
    case ChallengeForward(s) => OneNameBack(d, w, m, s);
    case GameCancel(s) => OneNameBack(d, w, m, s);
    case ChallengeResponse(_, _, _) => ChallengeResponseBack(d, w, m);
    case GameStart(_, _, _) => GameStartBack(d, w, m);
    case Certificate(c) => CertBack(d, [16], c);
    case StartGame => case GameEnd => case CertRequest =>
    case MoveMessage(_) => ShortFieldsBack(d, w, m);
    case UsersListRequest(_) => ShortFieldsBack(d, w, m);
    case UsersList(_) => ListBack(d, w, m);
  }

  lemma {:induction false} HelloThrows(d: Der, w: Beyond, msg: seq<byte>)
    requires msg != [] && (msg[0] == 1 || msg[0] == 13)
    ensures msg[0] == 1 ==>
              (ReadClientHello(d, w, msg).Thrown? <==> DerFails(d, msg)) && !ReadClientHello(d, w, msg).Overrun?
    ensures msg[0] == 13 ==>
              (ReadGameStart(d, w, msg).Thrown? <==> DerFails(d, msg)) && !ReadGameStart(d, w, msg).Overrun?
  {
  }

  lemma {:induction false} ServerHelloThrows(d: Der, w: Beyond, msg: seq<byte>)
    requires msg != [] && msg[0] == 2
    ensures ReadServerHello(d, w, msg).Thrown? <==> DerFails(d, msg)
    ensures ReadServerHello(d, w, msg).Overrun? <==> Astray(msg)
  {
  }

  lemma {:induction false} OthersDoNotThrow(d: Der, w: Beyond, msg: seq<byte>)
    requires 0 < |msg| < 0x1_0000 && msg[0] !in {1, 2, 13}
    ensures Parse(d, w, msg).Thrown? <==> DerFails(d, msg)
    ensures !Parse(d, w, msg).Overrun?
  {
  }

  /** A reader throws exactly when what is left for a key or certificate is not one, or when it has gone astray
      and memory makes it. */
  lemma {:induction false} ThrowsExactly(d: Der, w: Beyond, msg: seq<byte>)
    requires |msg| < 0x1_0000
    ensures Decode(d, w, msg).Thrown? <==> DerFails(d, msg) || (Astray(msg) && w.wild.Throws?)
  {
    hide ReadClientHello, ReadServerHello, ReadGameStart, DerFails;
    if msg == [] {
      assert !DerFails(d, msg) by {
        NothingToFail(d);
      }
    } else if msg[0] == 1 || msg[0] == 13 {
      HelloThrows(d, w, msg);
    } else if msg[0] == 2 {
      ServerHelloThrows(d, w, msg);
    } else {
      OthersDoNotThrow(d, w, msg);
    }
  }

  lemma {:induction false} NothingToFail(d: Der)
    ensures !DerFails(d, [])
  {
  }

  lemma {:induction false} Padding(n: nat)
    requires n <= MAX_LIST
    ensures n <= PaddedSize(n) <= MAX_LIST && (PaddedSize(n) == MAX_LIST <==> n > MAX_LIST - MAX_USERNAME_LENGTH - 1)
    ensures PaddedSize(n) < MAX_LIST ==> PaddedSize(PaddedSize(n) + 1) > PaddedSize(n)
  {
  }

  /** What a list looks like that was written: its text, and nothing but NULs behind it. */
  lemma {:induction false} ListShape(s: seq<byte>)
    ensures var p := CPrefix(s)[..Min(|CPrefix(s)|, MAX_LIST)];
            CPrefix(ListField(s)) == p && ListField(s) == p + Zeros(PaddedSize(Min(|s|, MAX_LIST)) + 1 - |p|)
  {
    var n := Min(|s|, MAX_LIST);
    var p := CPrefix(s)[..Min(|CPrefix(s)|, MAX_LIST)];
    Padding(n);
    assert p == CPrefix(s)[..Min(|CPrefix(s)|, n)];
    assert ListField(s)[..|p|] == p;
    CPrefixUnique(ListField(s), p);
  }

  /** The user list read back is the one written up to the first NUL. */
  lemma {:induction false} ListKept(s: seq<byte>)
    requires |s| <= MAX_LIST
    ensures CPrefix(ListField(s)) == CPrefix(s)
  {
    ListShape(s);
    var p := CPrefix(s);
    assert p[..|p|] == p;
  }

  /** A list that is written again grows, unless it has its full size. */
  lemma {:induction false} ListTwice(s: seq<byte>)
    ensures ListField(ListField(s)) == ListField(s) <==> |s| > MAX_LIST - MAX_USERNAME_LENGTH - 1
  {
    ListShape(s);
    ListShape(ListField(s));
    Padding(Min(|s|, MAX_LIST));
    Padding(MAX_LIST);
    hide ListField, CPrefix, PaddedSize;
    var k := PaddedSize(Min(|s|, MAX_LIST));
    var p := CPrefix(s)[..Min(|CPrefix(s)|, MAX_LIST)];
    assert p[..Min(|p|, MAX_LIST)] == p;
    if k < MAX_LIST {
      assert |ListField(ListField(s))| == PaddedSize(k + 1) + 1;
    }
  }

  /** Writing a second time makes a difference exactly for lists that do not have their full size. */
  lemma {:induction false} NormalTwice(m: Message)
    ensures Normal(Normal(m)) == Normal(m) <==>
            (m.UsersList? ==> |m.usernames| > MAX_LIST - MAX_USERNAME_LENGTH - 1)
  {
    hide ListField, Name;
    match m
    case ClientHello(_, a, b, _) => NameOfName(a); NameOfName(b);
    case ServerHello(_, a, b, _, _) => NameOfName(a); NameOfName(b);
    case Register(s) => NameOfName(s);
    case Challenge(s) => NameOfName(s);
    case ChallengeForward(s) => NameOfName(s);
    case ChallengeResponse(s, _, _) => NameOfName(s);
    case GameStart(s, _, _) => NameOfName(s);
    case GameCancel(s) => NameOfName(s);
    case UsersList(s) => ListTwice(s);
    case _ =>
  }
}
