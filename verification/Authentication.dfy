// When a side takes its peer for authenticated: exactly when a signature over both sides' names,
// nonces and keys verifies.

module Authentication {
  import opened Bytes
  import opened Messages
  import opened Crypto
  import opened SecureChannel
  import opened Handshake

  // ----- The transcript, written out -----

  /** At most 16 bytes of a name, NULs from its first NUL on. */
  lemma {:induction false} CutNameBytes(s: seq<byte>, k: nat)
    requires k < 16 && k < |s|
    ensures |CutName(s)| == if |s| < 16 then |s| else 16
    ensures CutName(s)[k] == if exists i :: 0 <= i <= k && s[i] == 0 then 0 else s[k]
  {
    var n := Min(|s|, 16);
    var p := CPrefix(s[..n]);
    if k < |p| {
      assert forall i :: 0 <= i <= k ==> s[i] == p[i];
    } else {
      assert s[|p|] == s[..n][|p|] == 0;
    }
  }

  /** Names, nonces and keys of both sides, the client's first each time. */
  function Transcript(host: Host, client: seq<byte>, server: seq<byte>, clNonce: uint32, svNonce: uint32,
    clKey: seq<byte>, svKey: seq<byte>): seq<byte>
  {
    CutName(client) + CutName(server) + HostBytes(host, clNonce, 4) + HostBytes(host, svNonce, 4) + clKey + svKey
  }

  /** The buffer has room for two keys of 256 bytes; one that is longer than the room left is not written, and the last
      byte before it is lost. */
  function Buffered(head: seq<byte>, key: seq<byte>): seq<byte>
    requires head != []
  {
    if |head| + |key| <= 2 * 16 + 2 * 4 + 2 * 256 then head + key else head[..|head| - 1]
  }

  function Signed(host: Host, client: seq<byte>, server: seq<byte>, clNonce: uint32, svNonce: uint32,
    clKey: seq<byte>, svKey: seq<byte>): seq<byte>
  {
    Buffered(Buffered(Transcript(host, client, server, clNonce, svNonce, [], []), clKey), svKey)
  }

  /** Keys of up to 256 bytes are written as they are. */
  lemma {:induction false} ShortKeysFit(host: Host, client: seq<byte>, server: seq<byte>, clNonce: uint32,
    svNonce: uint32, clKey: seq<byte>, svKey: seq<byte>)
    requires |clKey| <= 256 && |svKey| <= 256
    ensures Signed(host, client, server, clNonce, svNonce, clKey, svKey) ==
            Transcript(host, client, server, clNonce, svNonce, clKey, svKey)
  {
    hide CutName, HostBytes;
    var head := CutName(client) + CutName(server) + HostBytes(host, clNonce, 4) + HostBytes(host, svNonce, 4);
    assert Transcript(host, client, server, clNonce, svNonce, [], []) == head;
  }

  /** A transcript determines both nonces and both keys, for names and keys of known sizes. */
  lemma {:induction false} TranscriptDetermines(host: Host, client: seq<byte>, server: seq<byte>,
    clNonce: uint32, svNonce: uint32, clKey: seq<byte>, svKey: seq<byte>,
    clNonce': uint32, svNonce': uint32, clKey': seq<byte>, svKey': seq<byte>)
    requires |clKey| == |clKey'|
    ensures Transcript(host, client, server, clNonce, svNonce, clKey, svKey) ==
            Transcript(host, client, server, clNonce', svNonce', clKey', svKey') <==>
            clNonce == clNonce' && svNonce == svNonce' && clKey == clKey' && svKey == svKey'
  {
    hide CutName, HostBytes;
    var names := CutName(client) + CutName(server);
    var n := |names|;
    var a, b := HostBytes(host, clNonce, 4), HostBytes(host, svNonce, 4);
    var a', b' := HostBytes(host, clNonce', 4), HostBytes(host, svNonce', 4);
    var t := Transcript(host, client, server, clNonce, svNonce, clKey, svKey);
    var t' := Transcript(host, client, server, clNonce', svNonce', clKey', svKey');
    if t == t' {
      assert a == t[n..n + 4] && a' == t'[n..n + 4];
      assert b == t[n + 4..n + 8] && b' == t'[n + 4..n + 8];
      assert clKey == t[n + 8..n + 8 + |clKey|] && clKey' == t'[n + 8..n + 8 + |clKey|];
      assert svKey == t[n + 8 + |clKey|..] && svKey' == t'[n + 8 + |clKey|..];
      assert Pow256(4) == 0x1_0000_0000 by {
        assert Pow256(2) == 0x1_0000;
      }
      HostBytesInjective(host, clNonce, clNonce', 4);
      HostBytesInjective(host, svNonce, svNonce', 4);
    }
  }

  // ----- Exactly when the flag is set -----

  /** The side has its own key and the peer's, and the peer's certificate verifies this signature of the transcript. */
  predicate PeerSigned(c: Crypto, s: Side, role: Role, ds: seq<byte>) {
    s.myEph.Some? && s.otherEph.Some? && s.otherCert.Some? &&
    var mine, others := c.der.keyBytes(c.pub(s.myEph.value)), c.der.keyBytes(s.otherEph.value);
    var t := if role.Client? then Signed(s.host, s.myId, s.otherId, s.clNonce, s.svNonce, mine, others)
             else Signed(s.host, s.otherId, s.myId, s.clNonce, s.svNonce, others, mine);
    mine != [] && others != [] && c.verify(t, ds, c.certKey(s.otherCert.value))
  }

  lemma {:induction false} CheckIsSigned(c: Crypto, s: Side, ds: seq<byte>, role: Role)
    ensures CheckSignature(c, s, ds, role) <==> PeerSigned(c, s, role, ds)
  {
    hide CutName, HostBytes;
    var client, server := if role.Client? then s.myId else s.otherId, if role.Client? then s.otherId else s.myId;
    var head := CutName(client) + CutName(server) + HostBytes(s.host, s.clNonce, 4) + HostBytes(s.host, s.svNonce, 4);
    assert Transcript(s.host, client, server, s.clNonce, s.svNonce, [], []) == head;
  }

  /** The server, for every state and every signature: the flag is set and the call succeeds exactly when the signature
      verifies; otherwise the call fails and nothing changes. */
  lemma {:induction false} ClientVerifyExactly(c: Crypto, s: Side, ds: seq<byte>)
    ensures var (s', ok) := HandleClientVerify(c, s, ClientVerify(ds));
            && (ok <==> PeerSigned(c, s, Server, ds))
            && s' == if ok then s.(authenticated := true) else s
  {
    hide CheckSignature, PeerSigned;
    CheckIsSigned(c, s, ds, Server);
  }

  /** The client, for every state and every server hello: where the shared secret can be had, the flag is set exactly
      when the signature verifies, now with the nonce and the key of the hello; otherwise it stays and the call
      fails. */
  lemma {:induction false} ServerHelloExactly(c: Crypto, s: Side, m: Message)
    requires m.ServerHello?
    ensures var (s', r) := HandleServerHello(c, s, m);
            var s1 := s.(svNonce := m.nonce, otherEph := Some(m.ephKey));
            var secret := s.myEph.Some? && c.dh(s.myEph.value, m.ephKey).Some?;
            && (secret && PeerSigned(c, s1, Client, m.ds) ==> s'.authenticated && !r.Escape?)
            && (secret && !PeerSigned(c, s1, Client, m.ds) ==> s'.authenticated == s.authenticated && r.Fail?)
            && (!secret ==> s' == s1 && r.Escape?)
            && s' == s1.(sendKey := s'.sendKey, recvKey := s'.recvKey, sendIvStatic := s'.sendIvStatic,
                         recvIvStatic := s'.recvIvStatic, authenticated := s'.authenticated)
  {
    var s1 := s.(svNonce := m.nonce, otherEph := Some(m.ephKey));
    hide CheckSignature, DeriveKey, DeriveIv, Signed, MakeSignature;
    if s.myEph.Some? && c.dh(s.myEph.value, m.ephKey).Some? {
      CheckIsSigned(c, GenerateKeys(c, s1, Client).value, m.ds, Client);
    }
  }

  // ----- What is signed and sent -----

  /** A side signs the same transcript that it checks, with its own key, if it has both keys. */
  lemma {:induction false} SignatureExactly(c: Crypto, s: Side, role: Role)
    ensures MakeSignature(c, s, role) ==
            if s.myEph.None? || s.otherEph.None? then None
            else
              var mine, others := c.der.keyBytes(c.pub(s.myEph.value)), c.der.keyBytes(s.otherEph.value);
              if mine == [] || others == [] then None
              else
                Some(c.sign(if role.Client? then Signed(s.host, s.myId, s.otherId, s.clNonce, s.svNonce, mine, others)
                            else Signed(s.host, s.otherId, s.myId, s.clNonce, s.svNonce, others, mine), s.signKey))
  {
    hide CutName, HostBytes;
    var client, server := if role.Client? then s.myId else s.otherId, if role.Client? then s.otherId else s.myId;
    var head := CutName(client) + CutName(server) + HostBytes(s.host, s.clNonce, 4) + HostBytes(s.host, s.svNonce, 4);
    assert Transcript(s.host, client, server, s.clNonce, s.svNonce, [], []) == head;
  }

  /** The three messages of a handshake: who sends which nonce, names, key and signature. */
  lemma {:induction false} HandshakeMessages(c: Crypto, s: Side, nonce: uint32, eph: Secret, m: Message)
    ensures SendClientHello(c, s, nonce, eph).1 == Reply(ClientHello(nonce, s.myId, s.otherId, c.pub(eph)))
    ensures SendClientHello(c, s, nonce, eph).0 == s.(clNonce := nonce, myEph := Some(eph))
    ensures m.ClientHello? ==>
              var (s', r) := HandleClientHello(c, s, m, nonce, eph);
              && (s'.clNonce, s'.svNonce, s'.myEph, s'.otherEph) == (m.nonce, nonce, Some(eph), Some(m.ephKey))
              && s'.authenticated == s.authenticated
              && (r.Reply? ==>
                    MakeSignature(c, s', Server).Some? &&
                    r.message == ServerHello(nonce, s.myId, s.otherId, MakeSignature(c, s', Server).value, c.pub(eph)))
    ensures m.ServerHello? ==>
              var (s', r) := HandleServerHello(c, s, m);
              r.Reply? ==>
                MakeSignature(c, s', Client).Some? &&
                r.message == ClientVerify(MakeSignature(c, s', Client).value)
  {
    hide MsgToSign, DeriveKey, DeriveIv;
  }

  // ----- Any sequence of calls -----

  /** A call of one of the functions that touch the state of a side. */
  datatype Call =
    | TakeCert(cert: Cert)
    | Hello(nonce: uint32, eph: Secret)
    | OnClientHello(m: Message, nonce: uint32, eph: Secret)
    | OnServerHello(m: Message)
    | OnClientVerify(ds: seq<byte>)
    | OnMessage(past: Beyond, m: Message)
    | Sent

  ghost predicate Callable(c: Crypto, s: Side, call: Call) {
    match call
    case OnClientHello(m, _, _) => m.ClientHello?
    case OnServerHello(m) => m.ServerHello?
    case OnMessage(_, _) => s.Valid() && c.CipherLaws()
    case Sent => s.Valid()
    case _ => true
  }

  ghost function Called(c: Crypto, s: Side, call: Call): Side
    requires Callable(c, s, call)
  {
    match call
    case TakeCert(cert) => Handshake.SetOtherCert(c, s, cert).0
    case Hello(nonce, eph) => SendClientHello(c, s, nonce, eph).0
    case OnClientHello(m, nonce, eph) => HandleClientHello(c, s, m, nonce, eph).0
    case OnServerHello(m) => HandleServerHello(c, s, m).0
    case OnClientVerify(ds) => HandleClientVerify(c, s, ClientVerify(ds)).0
    case OnMessage(past, m) => Handle(c, past, s, m).0
    case Sent => AfterSend(s)
  }

  ghost predicate AllCallable(c: Crypto, s: Side, calls: seq<Call>)
    decreases |calls|
  {
    calls == [] || (Callable(c, s, calls[0]) && AllCallable(c, Called(c, s, calls[0]), calls[1..]))
  }

  ghost function AfterCalls(c: Crypto, s: Side, calls: seq<Call>): Side
    requires AllCallable(c, s, calls)
    decreases |calls|
  {
    if calls == [] then s else AfterCalls(c, Called(c, s, calls[0]), calls[1..])
  }

  /** This call came with a signature that verified. */
  predicate Proves(c: Crypto, s: Side, call: Call) {
    match call
    case OnServerHello(m) =>
      m.ServerHello? && PeerSigned(c, s.(svNonce := m.nonce, otherEph := Some(m.ephKey)), Client, m.ds)
    case OnClientVerify(ds) => PeerSigned(c, s, Server, ds)
    case _ => false
  }

  ghost predicate SomeProves(c: Crypto, s: Side, calls: seq<Call>)
    requires AllCallable(c, s, calls)
    decreases |calls|
  {
    calls != [] && (Proves(c, s, calls[0]) || SomeProves(c, Called(c, s, calls[0]), calls[1..]))
  }

  lemma {:induction false} OneCall(c: Crypto, s: Side, call: Call)
    requires Callable(c, s, call)
    ensures Called(c, s, call).authenticated ==> s.authenticated || Proves(c, s, call)
    ensures s.authenticated ==> Called(c, s, call).authenticated
  {
    hide PeerSigned, CheckSignature, MakeSignature, DeriveKey, DeriveIv, Decrypt;
    match call
    case OnServerHello(m) => ServerHelloExactly(c, s, m);
    case OnClientVerify(ds) => ClientVerifyExactly(c, s, ds);
    case _ =>
  }

  /** Whatever functions are called with whatever arguments, in any order: a side that was not authenticated and then is
      has been given a signature that verified, at that moment, over its own transcript under its peer's certificate. */
  lemma {:induction false} AuthenticatedHasProof(c: Crypto, s: Side, calls: seq<Call>)
    requires AllCallable(c, s, calls) && !s.authenticated
    ensures AfterCalls(c, s, calls).authenticated ==> SomeProves(c, s, calls)
    decreases |calls|
  {
    hide Callable, Called, Proves;
    if calls != [] {
      OneCall(c, s, calls[0]);
      if !Called(c, s, calls[0]).authenticated {
        AuthenticatedHasProof(c, Called(c, s, calls[0]), calls[1..]);
      }
    }
  }

  /** No certificate, or one that the store trusts, and then the peer's name is the one in it. */
  predicate KnownPeer(c: Crypto, s: Side) {
    s.otherCert.Some? ==> c.trusted(s.otherCert.value) && s.otherId == c.certName(s.otherCert.value)
  }

  /** Whatever functions are called: the certificate that signatures are checked against is always a trusted one, the
      name in the transcript is the name in it, and a certificate is taken over exactly if it is trusted. */
  lemma {:induction false} PeerIsTrusted(c: Crypto, s: Side, calls: seq<Call>)
    requires AllCallable(c, s, calls) && KnownPeer(c, s)
    ensures KnownPeer(c, AfterCalls(c, s, calls))
    ensures forall cert :: Handshake.SetOtherCert(c, s, cert).1 <==> c.trusted(cert)
    ensures forall cert ::
              Handshake.SetOtherCert(c, s, cert).0.otherCert == if c.trusted(cert) then Some(cert) else s.otherCert
    decreases |calls|
  {
    hide PeerSigned, CheckSignature, MakeSignature, DeriveKey, DeriveIv, Decrypt;
    if calls != [] {
      PeerIsTrusted(c, Called(c, s, calls[0]), calls[1..]);
    }
  }

  // ----- Keys -----

  /** What the keys and vectors of a role are derived from, letter by letter. */
  function Label(iv: bool, role: Role): seq<byte> {
    (if iv then [105, 118, 95, 95] else [107, 101, 121, 95]) +
    (if role.Client? then [99, 108, 105, 101, 110, 116] else [115, 101, 114, 118, 101, 114])
  }

  lemma {:induction false} LabelsAsWritten(role: Role)
    ensures Ascii("key_") + role.Name() == Label(false, role)
    ensures Ascii("iv__") + role.Name() == Label(true, role)
  {
    assert Ascii("key_") == [107, 101, 121, 95] && Ascii("iv__") == [105, 118, 95, 95];
    assert Ascii("client") == [99, 108, 105, 101, 110, 116] && Ascii("server") == [115, 101, 114, 118, 101, 114];
  }

  /** A side sends under the keys of its own role and receives under those of the other one, derived from the secret of
      its own key with the peer's, a label, and both nonces as the host stores them, the server's first. */
  lemma {:induction false} KeysSpelledOut(c: Crypto, s: Side, role: Role)
    requires s.myEph.Some? && s.otherEph.Some? && c.dh(s.myEph.value, s.otherEph.value).Some?
    ensures GenerateKeys(c, s, role).Some?
    ensures var s', secret := GenerateKeys(c, s, role).value, c.dh(s.myEph.value, s.otherEph.value).value;
            var nonces := HostBytes(s.host, s.svNonce, 4) + HostBytes(s.host, s.clNonce, 4);
            var other := if role.Client? then Server else Client;
            s' == s.(sendKey := c.hkdf(secret, Label(false, role) + nonces, 16),
                     recvKey := c.hkdf(secret, Label(false, other) + nonces, 16),
                     sendIvStatic := c.hkdf(secret, Label(true, role) + nonces, 12),
                     recvIvStatic := c.hkdf(secret, Label(true, other) + nonces, 12))
  {
    hide HostBytes;
    var a, b := HostBytes(s.host, s.svNonce, 4), HostBytes(s.host, s.clNonce, 4);
    LabelsAsWritten(Client);
    LabelsAsWritten(Server);
    assert Label(false, Client) + a + b == Label(false, Client) + (a + b);
    assert Label(false, Server) + a + b == Label(false, Server) + (a + b);
    assert Label(true, Client) + a + b == Label(true, Client) + (a + b);
    assert Label(true, Server) + a + b == Label(true, Server) + (a + b);
  }

  /** The two directions, and keys and vectors, are derived from different strings, whatever the nonces. */
  lemma {:induction false} LabelsDiffer(iv: bool, role: Role, iv': bool, role': Role, nonces: seq<byte>)
    ensures Label(iv, role) + nonces == Label(iv', role') + nonces <==> iv == iv' && role == role'
  {
    var a, b := Label(iv, role) + nonces, Label(iv', role') + nonces;
    assert a[0] == Label(iv, role)[0] && b[0] == Label(iv', role')[0];
    assert a[4] == Label(iv, role)[4] && b[4] == Label(iv', role')[4];
  }
}
