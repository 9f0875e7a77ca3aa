// The messages, their bytes on the wire, and what reading gives back.

module Messages {
  import opened Bytes
  import opened BufferIO

  const MAX_MSG_SIZE := 8192
  const MAX_USERS := 1024
  const TAG_SIZE := 16

  datatype PublicKey = PublicKey(id: nat)

  datatype Cert = Cert(id: nat)

  /** The DER encodings of the cryptographic library, whatever they are. */
  datatype Der = Der(
    keyBytes: PublicKey -> seq<byte>, keyOf: seq<byte> -> Option<PublicKey>,
    certBytes: Cert -> seq<byte>, certOf: seq<byte> -> Option<Cert>)
  {
    /** Decoding gives back what was encoded. */
    ghost predicate Lawful() {
      && (forall k :: keyOf(keyBytes(k)) == Some(k))
      && (forall c :: certOf(certBytes(c)) == Some(c))
    }
  }

  /** Address and port; both travel in network byte order. */
  datatype SockAddr = SockAddr(addr: uint32, port: uint16)

  datatype Message =
    | SecureMessage(ct: seq<byte>, tag: seq<byte>)
    | ClientHello(nonce: uint32, myId: seq<byte>, otherId: seq<byte>, ephKey: PublicKey)
    | ServerHello(nonce: uint32, myId: seq<byte>, otherId: seq<byte>, ds: seq<byte>, ephKey: PublicKey)
    | ClientVerify(ds: seq<byte>)
    | StartGame
    | MoveMessage(col: byte)
    | Register(username: seq<byte>)
    | Challenge(username: seq<byte>)
    | GameEnd
    | UsersList(usernames: seq<byte>)
    | UsersListRequest(offset: uint32)
    | ChallengeForward(username: seq<byte>)
    | ChallengeResponse(username: seq<byte>, response: bool, port: uint16)
    | GameStart(username: seq<byte>, addr: SockAddr, cert: Cert)
    | GameCancel(username: seq<byte>)
    | CertRequest
    | Certificate(cert: Cert)
  {
    /** What the C++ fields can hold. */
    predicate Valid() {
      && (SecureMessage? ==> |ct| < 0x1_0000 && |tag| == TAG_SIZE)
      && (ServerHello? ==> |ds| < 0x1_0000_0000)
      && (ClientVerify? ==> |ds| < 0x1_0000_0000)
    }

    function Type(): byte {
      match this
      case SecureMessage(_, _) => 0
      case ClientHello(_, _, _, _) => 1
      case ServerHello(_, _, _, _, _) => 2
      case ClientVerify(_) => 3
      case StartGame => 4
      case MoveMessage(_) => 5
      case Register(_) => 6
      case Challenge(_) => 7
      case GameEnd => 8
      case UsersList(_) => 9
      case UsersListRequest(_) => 10
      case ChallengeForward(_) => 11
      case ChallengeResponse(_, _, _) => 12
      case GameStart(_, _, _) => 13
      case GameCancel(_) => 14
      case CertRequest => 15
      case Certificate(_) => 16
    }
  }

  // ----- Writing -----

  function PaddedSize(n: nat): nat {
    (n + MAX_USERNAME_LENGTH) / (MAX_USERNAME_LENGTH + 1) * (MAX_USERNAME_LENGTH + 1)
  }

  const MAX_LIST := (MAX_USERNAME_LENGTH + 1) * MAX_USERS

  /** The list up to its first NUL, padded with NULs to a whole number of name slots and one more. */
  function ListField(s: seq<byte>): (f: seq<byte>)
    ensures f != []
  {
    var n := Min(|s|, MAX_LIST);
    var p := CPrefix(s)[..Min(|CPrefix(s)|, n)];
    p + Zeros(PaddedSize(n) + 1 - |p|)
  }

  function Body(d: Der, m: Message): seq<byte>
    requires m.Valid()
  {
    match m
    case SecureMessage(ct, tag) => ct + tag
    case ClientHello(nonce, myId, otherId, key) => Be32(nonce) + NameField(myId) + NameField(otherId) + d.keyBytes(key)
    case ServerHello(nonce, myId, otherId, ds, key) =>
      Be32(nonce) + NameField(myId) + NameField(otherId) + Be32(|ds|) + ds + d.keyBytes(key)
    case ClientVerify(ds) => Be32(|ds|) + ds
    case StartGame => []
    case MoveMessage(col) => [col]
    case Register(username) => NameField(username)
    case Challenge(username) => NameField(username)
    case GameEnd => []
    case UsersList(usernames) => ListField(usernames)
    case UsersListRequest(offset) => Be32(offset)
    case ChallengeForward(username) => NameField(username)
    case ChallengeResponse(username, response, port) => [if response then 1 else 0] + Be16(port) + NameField(username)
    case GameStart(username, addr, cert) => Be32(addr.addr) + Be16(addr.port) + NameField(username) + d.certBytes(cert)
    case GameCancel(username) => NameField(username)
    case CertRequest => []
    case Certificate(cert) => d.certBytes(cert)
  }

  /** The bytes of a message, without the length in front. */
  function Encode(d: Der, m: Message): (s: seq<byte>)
    requires m.Valid()
    ensures s != [] && s[0] == m.Type()
  {
    [m.Type()] + Body(d, m)
  }

  /** Messages longer than the maximum size are refused by their writer. */
  predicate Fits(d: Der, m: Message)
    requires m.Valid()
  {
    |Encode(d, m)| <= MAX_MSG_SIZE
  }

  // ----- Reading -----

  /** How a reader ends that has gone on past the end of its message. */
  datatype Wild = Returns(m: Message) | ReturnsNull | Throws

  /** What is unknown of a message that is too short for its reader: the name that memory holds past its end,
      and how a reader ends that takes sizes from there. */
  datatype Beyond = Beyond(name: seq<byte>, wild: Wild)

  function ReadKey(d: Der, msg: seq<byte>, i: nat): Read<PublicKey> {
    if i > |msg| then Thrown
    else match d.keyOf(msg[i..])
      case Some(k) => Got(k, i + 1)
      case None => Thrown
  }

  function ReadCert(d: Der, msg: seq<byte>, i: nat): Read<Cert> {
    if i > |msg| then Thrown
    else match d.certOf(msg[i..])
      case Some(c) => Got(c, i + 1)
      case None => Thrown
  }

  function ReadSecure(msg: seq<byte>): Read<Message>
    requires 0 < |msg| < 0x1_0000
  {
    var size := (|msg| - 1 - TAG_SIZE + 0x1_0000) % 0x1_0000; // a 16-bit field
    var (ct, i) :- ReadBytes(msg, 1, size);
    var (tag, j) :- ReadBytes(msg, i, TAG_SIZE);
    Got(SecureMessage(ct, tag), j)
  }

  function ReadClientHello(d: Der, w: Beyond, msg: seq<byte>): Read<Message> {
    var (nonce, i) :- ReadUInt32(msg, 1);
    var (myId, j) := ReadName(w.name, msg, i);
    var (otherId, k) := ReadName(w.name, msg, j);
    var (key, l) :- ReadKey(d, msg, k);
    Got(ClientHello(nonce, myId, otherId, key), l)
  }

  function ReadServerHello(d: Der, w: Beyond, msg: seq<byte>): Read<Message> {
    var (nonce, i) :- ReadUInt32(msg, 1);
    var (myId, j) := ReadName(w.name, msg, i);
    var (otherId, k) := ReadName(w.name, msg, j);
    var (size, l) :- ReadUInt32(msg, k);
    var (ds, n) :- ReadBytes(msg, l, size);
    var (key, o) :- ReadKey(d, msg, n);
    Got(ServerHello(nonce, myId, otherId, ds, key), o)
  }

  function ReadClientVerify(msg: seq<byte>): Read<Message> {
    var (size, i) :- ReadUInt32(msg, 1);
    var (ds, j) :- ReadBytes(msg, i, size);
    Got(ClientVerify(ds), j)
  }

  function ReadUsersList(msg: seq<byte>): Read<Message>
    requires msg != []
  {
    var n := Min(MAX_LIST, |msg| - 1);
    if n <= 0 then Malformed else Got(UsersList(msg[1..1 + n]), 1 + n)
  }

  function ReadChallengeResponse(w: Beyond, msg: seq<byte>): Read<Message> {
    var (response, i) :- ReadBool(msg, 1);
    var (port, j) :- ReadUInt16(msg, i);
    var (username, k) := ReadName(w.name, msg, j);
    Got(ChallengeResponse(username, response, port), k)
  }

  function ReadSockAddr(msg: seq<byte>, i: nat): Read<SockAddr> {
    var (s, next) :- ReadBytes(msg, i, 6);
    Got(SockAddr(OfBe32(s[..4]), OfBe16(s[4..])), next)
  }

  function ReadGameStart(d: Der, w: Beyond, msg: seq<byte>): Read<Message> {
    var (addr, i) :- ReadSockAddr(msg, 1);
    var (username, j) := ReadName(w.name, msg, i);
    var (cert, k) :- ReadCert(d, msg, j);
    Got(GameStart(username, addr, cert), k)
  }

  /** The 17 readers, chosen by the first byte. */
  function Parse(d: Der, w: Beyond, msg: seq<byte>): Read<Message>
    requires |msg| < 0x1_0000
  {
    if msg == [] then Overrun
    else match msg[0]
      case 0 => ReadSecure(msg)
      case 1 => ReadClientHello(d, w, msg)
      case 2 => ReadServerHello(d, w, msg)
      case 3 => ReadClientVerify(msg)
      case 4 => Got(StartGame, 1)
      case 5 => var (col, i) :- ReadUInt8(msg, 1); Got(MoveMessage(col), i)
      case 6 => var (username, i) := ReadName(w.name, msg, 1); Got(Register(username), i)
      case 7 => var (username, i) := ReadName(w.name, msg, 1); Got(Challenge(username), i)
      case 8 => Got(GameEnd, 1)
      case 9 => ReadUsersList(msg)
      case 10 => var (offset, i) :- ReadUInt32(msg, 1); Got(UsersListRequest(offset), i)
      case 11 => var (username, i) := ReadName(w.name, msg, 1); Got(ChallengeForward(username), i)
      case 12 => ReadChallengeResponse(w, msg)
      case 13 => ReadGameStart(d, w, msg)
      case 14 => var (username, i) := ReadName(w.name, msg, 1); Got(GameCancel(username), i)
      case 15 => Got(CertRequest, 1)
      case 16 => var (cert, i) :- ReadCert(d, msg, 1); Got(Certificate(cert), i)
      case _ => Malformed
  }

  /** readMessage on the bytes of one message, with what lies beyond them. */
  function Decode(d: Der, w: Beyond, msg: seq<byte>): (r: Read<Message>)
    requires |msg| < 0x1_0000
    ensures !r.Overrun?
  {
    match Parse(d, w, msg)
    case Overrun =>
      (match w.wild
       case Returns(m) => Got(m, 0)
       case ReturnsNull => Malformed
       case Throws => Thrown)
    case r => r
  }

  // ----- Exactly when a reader throws -----

  /** What is left for the key or the certificate of the message is not the encoding of one. */
  predicate DerFails(d: Der, msg: seq<byte>) {
    msg != [] && match msg[0]
      case 1 => |msg| >= 5 && (|msg| < 39 || d.keyOf(msg[39..]).None?)
      case 2 =>
        |msg| >= 43 &&
        var next := 43 + OfBe32(msg[39..43]);
        next <= |msg| && d.keyOf(msg[next..]).None?
      case 13 => |msg| >= 7 && (|msg| < 24 || d.certOf(msg[24..]).None?)
      case 16 => d.certOf(msg[1..]).None?
      case _ => false
  }

  /** The reader goes on past the end of the message: there is no type byte, or the names of a server hello
      end there. */
  predicate Astray(msg: seq<byte>) {
    msg == [] || (msg[0] == 2 && 5 <= |msg| < 39)
  }
}
