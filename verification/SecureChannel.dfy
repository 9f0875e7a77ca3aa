// One side of a secure connection: what it sends and accepts, as functions of its state.

module SecureChannel {
  import opened Bytes
  import opened BufferIO
  import opened Messages
  import opened MessageTheorems
  import opened SocketWrapper
  import opened Crypto

  const AAD_SIZE := HEADER + 1
  const MAX_SEC_MSG_SIZE := MAX_MSG_SIZE - TAG_SIZE - HEADER - 1
  const MAX_MSG_TO_SIGN_SIZE := 2 * MAX_USERNAME_LENGTH + 2 * 4 + 2 * MAX_KEY_BYTES

  datatype Role = Client | Server
  {
    function Other(): Role {
      if Client? then Server else Client
    }

    function Name(): seq<byte> {
      Ascii(if Client? then "client" else "server")
    }
  }

  function Ascii(s: string): seq<byte> {
    seq(|s|, i requires 0 <= i < |s| => s[i] as int % 0x100)
  }

  datatype Side = Side(
    host: Host, myId: seq<byte>, otherId: seq<byte>, signKey: SignKey, otherCert: Option<Cert>,
    clNonce: uint32, svNonce: uint32, myEph: Option<Secret>, otherEph: Option<PublicKey>,
    sendKey: seq<byte>, recvKey: seq<byte>, sendIvStatic: seq<byte>, recvIvStatic: seq<byte>,
    sendSeq: nat, recvSeq: nat, authenticated: bool)
  {
    predicate Valid() {
      && |sendIvStatic| == IV_SIZE && |recvIvStatic| == IV_SIZE
      && |sendKey| == KEY_SIZE && |recvKey| == KEY_SIZE
      && sendSeq < SEQ_MOD && recvSeq < SEQ_MOD
    }

    /** As the constructor leaves it; the key buffers hold anything. */
    predicate Fresh() {
      && Valid() && clNonce == 0 && svNonce == 0 && myEph == None && otherEph == None
      && sendSeq == 0 && recvSeq == 0 && !authenticated
    }
  }

  // ----- Records -----

  /** What the receiver of a secure message would have as its header, were it in clear. */
  function Aad(len: uint16): (s: seq<byte>)
    ensures |s| == AAD_SIZE
  {
    Be16(len) + [0]
  }

  function Aead(n: nat): seq<byte>
    requires n <= MAX_SEC_MSG_SIZE
  {
    Aad(n + TAG_SIZE + AAD_SIZE)
  }

  /** encryptMsg: nothing for an unauthenticated peer, a message its writer refuses, or a too long one. */
  function Encrypt(c: Crypto, s: Side, m: Message): (r: Option<Message>)
    requires s.Valid() && m.Valid()
  {
    var pt := Encode(c.der, m);
    if !s.authenticated || |pt| > MAX_SEC_MSG_SIZE then None
    else
      var (ct, tag) := c.seal(s.sendKey, RecordIv(s.host, s.sendSeq, s.sendIvStatic), Aead(|pt|), pt);
      Some(SecureMessage(ct, tag))
  }

  /** What handling a received message ends with: a message for the caller, none, or an exception. */
  datatype Handled = Pass(message: Message) | Nil | Throw

  function HandledOf(r: Read<Message>): Handled
    requires !r.Overrun?
  {
    match r
    case Got(m, _) => Pass(m)
    case Malformed => Nil
    case Thrown => Throw
  }

  /** decryptMsg; `w` is what memory holds beyond the decrypted bytes. */
  function Decrypt(c: Crypto, w: Beyond, s: Side, m: Message): Handled
    requires c.CipherLaws() && s.Valid() && m.SecureMessage?
  {
    if !s.authenticated || |m.ct| > MAX_SEC_MSG_SIZE then Nil
    else
      match c.open(s.recvKey, RecordIv(s.host, s.recvSeq, s.recvIvStatic), Aead(|m.ct|), m.ct, m.tag)
      case None => Nil
      case Some(pt) => if pt == [] then Nil else HandledOf(Decode(c.der, w, pt))
  }

  /** handleMsg: decrypts, lets the handshake through until the peer is authenticated, and drops all else. */
  function Handle(c: Crypto, w: Beyond, s: Side, m: Message): (r: (Side, Handled))
    requires c.CipherLaws() && s.Valid()
    ensures r.0.Valid()
  {
    match m
    case SecureMessage(_, _) =>
      var h := Decrypt(c, w, s, m);
      (if h.Pass? then s.(recvSeq := (s.recvSeq + 1) % SEQ_MOD) else s, h)
    case ClientHello(_, _, _, _) => (s, if s.clNonce == 0 && !s.authenticated then Pass(m) else Nil)
    case ServerHello(_, _, _, _, _) => (s, if !s.authenticated then Pass(m) else Nil)
    case ClientVerify(_) => (s, if !s.authenticated then Pass(m) else Nil)
    case Certificate(_) => (s, Pass(m))
    case CertRequest => (s, Pass(m))
    case _ => (s, Nil)
  }

  function AfterSend(s: Side): (r: Side)
    requires s.Valid()
    ensures r.Valid()
  {
    s.(sendSeq := (s.sendSeq + 1) % SEQ_MOD)
  }

  // ----- Sizes -----

  /** Every record fits in a frame, and both ends compute as additional data that frame's first three bytes. */
  lemma {:induction false} RecordFitsFrame(c: Crypto, s: Side, m: Message)
    requires c.CipherLaws() && s.Valid() && m.Valid() && Encrypt(c, s, m).Some?
    ensures var sm := Encrypt(c, s, m).value;
            && sm.Valid() && |Encode(c.der, sm)| + HEADER <= MAX_MSG_SIZE
            && |sm.ct| == |Encode(c.der, m)| <= MAX_SEC_MSG_SIZE
            && |FrameOf(c.der, sm)| == |Encode(c.der, m)| + TAG_SIZE + AAD_SIZE
            && FrameOf(c.der, sm)[..AAD_SIZE] == Aead(|Encode(c.der, m)|) == Aead(|sm.ct|)
  {
    var sm := Encrypt(c, s, m).value;
    var e := Encode(c.der, sm);
    assert e == [0] + (sm.ct + sm.tag);
    assert FrameOf(c.der, sm)[..AAD_SIZE] == Be16(|e| + HEADER) + [0];
  }

  /** With an authenticated peer no message is refused whose record would have fitted in a frame. */
  lemma {:induction false} LimitIsTight(c: Crypto, s: Side, m: Message, ct: seq<byte>, tag: seq<byte>)
    requires s.Valid() && m.Valid() && |ct| == |Encode(c.der, m)| && |tag| == TAG_SIZE
    ensures Encrypt(c, s, m).Some? <==> s.authenticated && Sendable(c.der, SecureMessage(ct, tag))
  {
    if |ct| < 0x1_0000 {
      assert Encode(c.der, SecureMessage(ct, tag)) == [0] + (ct + tag);
    }
  }

  // ----- The channel -----

  /** One side's sending half is the other's receiving half. */
  predicate Matched(a: Side, b: Side) {
    a.host == b.host && a.sendKey == b.recvKey && a.sendIvStatic == b.recvIvStatic && a.authenticated && b.authenticated
  }

  lemma {:induction false} OpensWhatWasSealed(c: Crypto, w: Beyond, a: Side, b: Side, m: Message)
    requires c.Lawful() && a.Valid() && b.Valid() && m.Valid() && Matched(a, b) && a.sendSeq == b.recvSeq
    requires Encrypt(c, a, m).Some?
    ensures Handle(c, w, b, Encrypt(c, a, m).value) == (b.(recvSeq := (b.recvSeq + 1) % SEQ_MOD), Pass(Normal(m)))
  {
    hide Decode, Encode, RecordIv, Normal;
    var pt := Encode(c.der, m);
    RecordFitsFrame(c, a, m);
    assert Fits(c.der, m);
    RoundTrip(c.der, w, m);
  }
}
