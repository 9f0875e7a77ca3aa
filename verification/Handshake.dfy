// The handshake: key derivation by role, the signed transcript, and what both sides agree on.

module Handshake {
  import opened Bytes
  import opened BufferIO
  import opened Messages
  import opened MessageTheorems
  import opened SocketWrapper
  import opened Crypto
  import opened SecureChannel

  // ----- Keys -----

  function Info(host: Host, purpose: seq<byte>, svNonce: uint32, clNonce: uint32): seq<byte> {
    purpose + HostBytes(host, svNonce, 4) + HostBytes(host, clNonce, 4)
  }

  function DeriveKey(c: Crypto, s: Side, secret: seq<byte>, role: Role): seq<byte> {
    c.hkdf(secret, Info(s.host, Ascii("key_") + role.Name(), s.svNonce, s.clNonce), KEY_SIZE)
  }

  function DeriveIv(c: Crypto, s: Side, secret: seq<byte>, role: Role): seq<byte> {
    c.hkdf(secret, Info(s.host, Ascii("iv__") + role.Name(), s.svNonce, s.clNonce), IV_SIZE)
  }

  /** The Diffie-Hellman secret; none, where the library throws. */
  function SharedSecret(c: Crypto, s: Side): Option<seq<byte>> {
    if s.myEph.Some? && s.otherEph.Some? then c.dh(s.myEph.value, s.otherEph.value) else None
  }

  /** generateKeys: a side sends under its own role's keys and receives under the other role's. */
  function GenerateKeys(c: Crypto, s: Side, role: Role): Option<Side> {
    match SharedSecret(c, s)
    case None => None
    case Some(secret) =>
      Some(s.(sendKey := DeriveKey(c, s, secret, role), recvKey := DeriveKey(c, s, secret, role.Other()),
              sendIvStatic := DeriveIv(c, s, secret, role), recvIvStatic := DeriveIv(c, s, secret, role.Other())))
  }

  // ----- The signed transcript -----

  /** strncpy of at most 16 bytes: what follows a NUL is filled with NULs. */
  function CutName(s: seq<byte>): (r: seq<byte>)
    ensures |r| == Min(|s|, MAX_USERNAME_LENGTH)
  {
    var n := Min(|s|, MAX_USERNAME_LENGTH);
    CPrefix(s[..n]) + Zeros(n - |CPrefix(s[..n])|)
  }

  /** The DER form of a key; empty, where there is none. */
  function KeyDer(c: Crypto, key: Option<PublicKey>): seq<byte> {
    if key.None? then [] else c.der.keyBytes(key.value)
  }

  function PublicPart(c: Crypto, key: Option<Secret>): Option<PublicKey> {
    if key.None? then None else Some(c.pub(key.value))
  }

  /** A key that does not fit is not copied, and its error code takes one byte back. */
  function AppendKey(msg: seq<byte>, key: seq<byte>): (r: seq<byte>)
    requires 0 < |msg| <= MAX_MSG_TO_SIGN_SIZE
    ensures |msg| - 1 <= |r| <= MAX_MSG_TO_SIGN_SIZE
  {
    if |msg| + |key| <= MAX_MSG_TO_SIGN_SIZE then msg + key else msg[..|msg| - 1]
  }

  /** buildMsgToSign: names, nonces and keys, the client's first; none where a key is missing. */
  function MsgToSign(c: Crypto, s: Side, role: Role): (r: Option<seq<byte>>)
    ensures r.Some? ==> 0 < |r.value| <= MAX_MSG_TO_SIGN_SIZE
  {
    var (mine, others) := (KeyDer(c, PublicPart(c, s.myEph)), KeyDer(c, s.otherEph));
    var (nameA, keyA, nameB, keyB) :=
      if role.Server? then (s.otherId, others, s.myId, mine) else (s.myId, mine, s.otherId, others);
    var head := CutName(nameA) + CutName(nameB) + HostBytes(s.host, s.clNonce, 4) + HostBytes(s.host, s.svNonce, 4);
    if keyA == [] || keyB == [] then None else Some(AppendKey(AppendKey(head, keyA), keyB))
  }

  function MakeSignature(c: Crypto, s: Side, role: Role): Option<seq<byte>> {
    match MsgToSign(c, s, role)
    case None => None
    case Some(msg) => Some(c.sign(msg, s.signKey))
  }

  predicate CheckSignature(c: Crypto, s: Side, ds: seq<byte>, role: Role) {
    match MsgToSign(c, s, role)
    case None => false
    case Some(msg) => s.otherCert.Some? && c.verify(msg, ds, c.certKey(s.otherCert.value))
  }

  // ----- Messages -----

  /** What a handshake function ends with: a message handed to the socket, a failure, or an exception. */
  datatype Reply = Reply(message: Message) | Fail | Escape

  function SetOtherCert(c: Crypto, s: Side, cert: Cert): (Side, bool) {
    if c.trusted(cert) then (s.(otherCert := Some(cert), otherId := c.certName(cert)), true) else (s, false)
  }

  function SendClientHello(c: Crypto, s: Side, nonce: uint32, eph: Secret): (Side, Reply) {
    (s.(clNonce := nonce, myEph := Some(eph)), Reply(ClientHello(nonce, s.myId, s.otherId, c.pub(eph))))
  }

  function SendServerHello(c: Crypto, s: Side, nonce: uint32, eph: Secret): (Side, Reply) {
    var s1 := s.(svNonce := nonce, myEph := Some(eph));
    match GenerateKeys(c, s1, Server)
    case None => (s1, Escape)
    case Some(s2) =>
      match MakeSignature(c, s2, Server)
      case None => (s2, Fail)
      case Some(ds) => (s2, Reply(ServerHello(nonce, s.myId, s.otherId, ds, c.pub(eph))))
  }

  function HandleClientHello(c: Crypto, s: Side, m: Message, nonce: uint32, eph: Secret): (Side, Reply)
    requires m.ClientHello?
  {
    SendServerHello(c, s.(clNonce := m.nonce, otherEph := Some(m.ephKey)), nonce, eph)
  }

  /** sendClientVerify */
  function VerifyReply(c: Crypto, s: Side): Reply {
    match MakeSignature(c, s, Client)
    case None => Fail
    case Some(ds) => Reply(ClientVerify(ds))
  }

  function HandleServerHello(c: Crypto, s: Side, m: Message): (Side, Reply)
    requires m.ServerHello?
  {
    var s1 := s.(svNonce := m.nonce, otherEph := Some(m.ephKey));
    match GenerateKeys(c, s1, Client)
    case None => (s1, Escape)
    case Some(s2) =>
      if !CheckSignature(c, s2, m.ds, Client) then (s2, Fail)
      else
        var s3 := s2.(authenticated := true);
        (s3, VerifyReply(c, s3))
  }

  function HandleClientVerify(c: Crypto, s: Side, m: Message): (Side, bool)
    requires m.ClientVerify?
  {
    if CheckSignature(c, s, m.ds, Server) then (s.(authenticated := true), true) else (s, false)
  }

  // ----- Agreement -----

  /** Each side holds what the other one made public. */
  ghost predicate Crossed(c: Crypto, cl: Side, sv: Side) {
    && cl.clNonce == sv.clNonce && cl.svNonce == sv.svNonce
    && cl.myEph.Some? && sv.myEph.Some?
    && cl.otherEph == Some(c.pub(sv.myEph.value)) && sv.otherEph == Some(c.pub(cl.myEph.value))
  }

  ghost predicate IdsCrossed(a: Side, b: Side) {
    a.myId == b.otherId && a.otherId == b.myId
  }

  /** What one side sends under, the other receives under. */
  lemma {:induction false} KeysAgree(c: Crypto, cl: Side, sv: Side)
    requires c.KeyLaws() && Crossed(c, cl, sv) && cl.host == sv.host
    ensures GenerateKeys(c, cl, Client).Some? && GenerateKeys(c, sv, Server).Some?
    ensures var a, b := GenerateKeys(c, cl, Client).value, GenerateKeys(c, sv, Server).value;
            && a.sendKey == b.recvKey && a.recvKey == b.sendKey
            && a.sendIvStatic == b.recvIvStatic && a.recvIvStatic == b.sendIvStatic
  {
    assert SharedSecret(c, cl) == SharedSecret(c, sv);
  }

  lemma {:induction false} SameParts(names: seq<byte>, a: seq<byte>, b: seq<byte>, a': seq<byte>, b': seq<byte>,
    rest: seq<byte>)
    requires |a| == |a'| && |b| == |b'|
    ensures names + a + b + rest == names + a' + b' + rest <==> a == a' && b == b'
  {
    var m, m', n := names + a + b + rest, names + a' + b' + rest, |names|;
    assert m[n..n + |a|] == a && m'[n..n + |a|] == a';
    assert m[n + |a|..n + |a| + |b|] == b && m'[n + |a|..n + |a| + |b|] == b';
  }

  /** Both sides sign and check the same bytes exactly when they store both nonces alike. */
  lemma {:induction false} TranscriptsAgreeExactly(c: Crypto, cl: Side, sv: Side)
    requires c.KeyLaws() && Crossed(c, cl, sv) && IdsCrossed(cl, sv)
    ensures MsgToSign(c, cl, Client).Some?
    ensures MsgToSign(c, cl, Client) == MsgToSign(c, sv, Server) <==>
            && HostBytes(cl.host, cl.clNonce, 4) == HostBytes(sv.host, cl.clNonce, 4)
            && HostBytes(cl.host, cl.svNonce, 4) == HostBytes(sv.host, cl.svNonce, 4)
  {
    hide HostBytes, CutName;
    var keyA, keyB := c.der.keyBytes(c.pub(cl.myEph.value)), c.der.keyBytes(c.pub(sv.myEph.value));
    var names := CutName(cl.myId) + CutName(cl.otherId);
    var a, b := HostBytes(cl.host, cl.clNonce, 4), HostBytes(cl.host, cl.svNonce, 4);
    var a', b' := HostBytes(sv.host, cl.clNonce, 4), HostBytes(sv.host, cl.svNonce, 4);
    assert MsgToSign(c, cl, Client) == Some(names + a + b + keyA + keyB);
    assert MsgToSign(c, sv, Server) == Some(names + a' + b' + keyA + keyB);
    SameParts(names, a, b, a', b', keyA + keyB);
    assert names + a + b + (keyA + keyB) == names + a + b + keyA + keyB;
    assert names + a' + b' + (keyA + keyB) == names + a' + b' + keyA + keyB;
  }

  /** A little-endian client that draws nonce 1 and a big-endian server: they never sign the same bytes. */
  lemma {:induction false} TranscriptsDiffer(c: Crypto, cl: Side, sv: Side)
    requires c.KeyLaws() && Crossed(c, cl, sv) && IdsCrossed(cl, sv)
    requires cl.host == LittleEndian && sv.host == BigEndian && cl.clNonce == 1
    ensures MsgToSign(c, cl, Client) != MsgToSign(c, sv, Server)
  {
    TranscriptsAgreeExactly(c, cl, sv);
    assert LowFirst(1, 4) == [1] + LowFirst(0, 3);
    assert HostBytes(cl.host, 1, 4)[0] == 1;
    assert HostBytes(sv.host, 1, 4)[0] == LowFirst(1, 4)[3] == LowFirst(0, 3)[2];
    LowZeros(3);
  }

  /** The identities are each other's, on machines of one byte order, and each has the other's certificate. */
  ghost predicate Peers(c: Crypto, cl: Side, sv: Side) {
    && cl.Fresh() && sv.Fresh() && cl.host == sv.host && IdsCrossed(cl, sv)
    && cl.otherCert.Some? && c.certKey(cl.otherCert.value) == c.verifyKey(sv.signKey)
    && sv.otherCert.Some? && c.certKey(sv.otherCert.value) == c.verifyKey(cl.signKey)
  }

  /** The three messages of a handshake and both sides after each of their steps. */
  datatype Shake = Shake(hello: Message, reply: Message, verify: Message, cl1: Side, sv1: Side, cl2: Side, sv2: Side)

  /** The server answers the hello that arrived. */
  ghost predicate ServerAnswers(c: Crypto, sv: Side, svNonce: uint32, eb: Secret, h: Shake) {
    h.hello.ClientHello? && HandleClientHello(c, sv, Normal(h.hello), svNonce, eb) == (h.sv1, Reply(h.reply))
  }

  /** The client accepts the answer that arrived and sends its own signature. */
  ghost predicate ClientAccepts(c: Crypto, h: Shake) {
    h.reply.ServerHello? && HandleServerHello(c, h.cl1, Normal(h.reply)) == (h.cl2, Reply(h.verify))
  }

  ghost predicate ServerAccepts(c: Crypto, h: Shake) {
    h.verify.ClientVerify? && HandleClientVerify(c, h.sv1, Normal(h.verify)) == (h.sv2, true)
  }

  /** A handshake whose messages are sent, arrive, each normalised on the way, and are accepted. */
  ghost predicate Completes(c: Crypto, cl: Side, sv: Side, clNonce: uint32, svNonce: uint32, ea: Secret, eb: Secret,
    h: Shake) {
    && SendClientHello(c, cl, clNonce, ea) == (h.cl1, Reply(h.hello))
    && Arrives(c, sv, h.hello) && ServerAnswers(c, sv, svNonce, eb, h)
    && Arrives(c, h.cl1, h.reply) && ClientAccepts(c, h)
    && Arrives(c, h.sv1, h.verify) && ServerAccepts(c, h)
  }

  /** The message fits in a frame, and the receiver's handleMsg hands it to its caller. */
  ghost predicate Arrives(c: Crypto, to: Side, m: Message) {
    Sendable(c.der, m) && c.CipherLaws() && to.Valid() &&
    forall w: Beyond :: Handle(c, w, to, Normal(m)) == (to, Pass(Normal(m)))
  }

  lemma {:induction false} HelloSizes(c: Crypto, nonce: uint32, a: seq<byte>, b: seq<byte>, eph: Secret, ds: seq<byte>)
    requires c.Lawful() && |ds| <= MAX_SIGNATURE
    ensures Sendable(c.der, ClientHello(nonce, a, b, c.pub(eph)))
    ensures Sendable(c.der, ServerHello(nonce, a, b, ds, c.pub(eph)))
    ensures Sendable(c.der, ClientVerify(ds))
  {
    hide NameField, Be32;
    assert |c.der.keyBytes(c.pub(eph))| <= MAX_KEY_BYTES;
  }

  /** Whatever nonces and keys are drawn, honest peers complete the handshake: every message is sent, passed on
      and accepted, both checks succeed, and the two sides can talk both ways from sequence number zero. */
  lemma {:induction false} HandshakeAgreement(c: Crypto, cl: Side, sv: Side, clNonce: uint32, svNonce: uint32,
    ea: Secret, eb: Secret) returns (h: Shake)
    requires c.Lawful() && Peers(c, cl, sv)
    ensures Completes(c, cl, sv, clNonce, svNonce, ea, eb, h)
    ensures h.cl2.Valid() && h.sv2.Valid() && Matched(h.cl2, h.sv2) && Matched(h.sv2, h.cl2)
    ensures h.cl2.sendSeq == h.cl2.recvSeq == h.sv2.sendSeq == h.sv2.recvSeq == 0
  {
    hide HostBytes, CutName, Encode, Name, DeriveKey, DeriveIv;
    var (cl1, r1) := SendClientHello(c, cl, clNonce, ea);
    var sv0 := sv.(clNonce := clNonce, otherEph := Some(c.pub(ea)), svNonce := svNonce, myEph := Some(eb));
    var clk := cl1.(svNonce := svNonce, otherEph := Some(c.pub(eb)));
    KeysAgree(c, clk, sv0);
    var sv1, cl2 := GenerateKeys(c, sv0, Server).value, GenerateKeys(c, clk, Client).value;
    DerivedValid(c, sv0, Server);
    DerivedValid(c, clk, Client);
    TranscriptsAgreeExactly(c, cl2, sv1);
    var msg := MsgToSign(c, cl2, Client).value;
    var ds, ds' := c.sign(msg, sv.signKey), c.sign(msg, cl.signKey);
    assert c.verify(msg, ds, c.verifyKey(sv.signKey)) && c.verify(msg, ds', c.verifyKey(cl.signKey));
    HelloSizes(c, clNonce, cl.myId, cl.otherId, ea, ds);
    HelloSizes(c, svNonce, sv.myId, sv.otherId, eb, ds);
    HelloSizes(c, svNonce, sv.myId, sv.otherId, eb, ds');
    var cl', sv' := cl2.(authenticated := true), sv1.(authenticated := true);
    assert MsgToSign(c, cl', Client) == MsgToSign(c, cl2, Client);
    h := Shake(r1.message, ServerHello(svNonce, sv.myId, sv.otherId, ds, c.pub(eb)), ClientVerify(ds'), cl1, sv1,
      cl', sv');
  }

  lemma {:induction false} DerivedValid(c: Crypto, s: Side, role: Role)
    requires c.KeyLaws() && s.Valid() && GenerateKeys(c, s, role).Some?
    ensures GenerateKeys(c, s, role).value.Valid()
  {
    hide Info;
  }
}
