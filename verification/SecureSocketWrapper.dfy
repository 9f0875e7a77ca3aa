// The secure socket wrapper: keys, vectors, sequence numbers and the transcript buffer, updated in place.

module SecureSocketWrapper {
  import opened Bytes
  import opened BufferIO
  import opened Messages
  import MessageIO
  import Framed = SocketWrapper
  import opened Crypto
  import opened SecureChannel
  import opened Handshake

  /** What a method that talks to the socket ends with. */
  datatype Outcome = Returned(ret: int) | Threw

  /** All of the frame was sent and the result is 0, or some shorter part of it. */
  ghost predicate Sent(before: seq<byte>, after: seq<byte>, frame: seq<byte>, ret: int) {
    if ret == 0 then after == before + frame
    else exists n :: 0 <= n < |frame| && after == before + frame[..n]
  }

  ghost predicate Replied(c: Crypto, r: Reply, before: seq<byte>, after: seq<byte>, o: Outcome) {
    match r
    case Reply(m) => Framed.Sendable(c.der, m) && o.Returned? && Sent(before, after, Framed.FrameOf(c.der, m), o.ret)
    case Fail => after == before && o.Returned? && o.ret != 0
    case Escape => after == before && o == Threw
  }

  class SecureSocketWrapper {
    const sw: Framed.SocketWrapper
    const crypto: Crypto
    const host: Host
    const myId: seq<byte>
    const signKey: SignKey
    const sendKey: array<byte>
    const recvKey: array<byte>
    const sendIvStatic: array<byte>
    const recvIvStatic: array<byte>
    const sendIv: array<byte>
    const recvIv: array<byte>
    const msgToSign: array<byte>
    var otherId: seq<byte>
    var otherCert: Option<Cert>
    var clNonce: uint32
    var svNonce: uint32
    var myEph: Option<Secret>
    var otherEph: Option<PublicKey>
    var sendSeq: nat
    var recvSeq: nat
    var authenticated: bool

    ghost predicate Sizes() {
      && sendKey.Length == recvKey.Length == KEY_SIZE
      && sendIvStatic.Length == recvIvStatic.Length == sendIv.Length == recvIv.Length == IV_SIZE
      && msgToSign.Length == MAX_MSG_TO_SIGN_SIZE
    }

    /** No two buffers that are written share memory. */
    ghost predicate Separate() {
      && sendKey != recvKey
      && sendIvStatic != recvIvStatic && sendIvStatic != sendIv && sendIvStatic != recvIv
      && recvIvStatic != sendIv && recvIvStatic != recvIv && sendIv != recvIv
      && sw.bufferOut !in {sendKey, recvKey, sendIvStatic, recvIvStatic, sendIv, recvIv, msgToSign}
    }

    ghost predicate Valid()
      reads this, sw
    {
      Sizes() && Separate() && sw.Valid() && sw.der == crypto.der && crypto.Lawful() &&
      sendSeq < SEQ_MOD && recvSeq < SEQ_MOD
    }

    ghost function State(): (s: Side)
      requires Valid()
      reads this, sw, sendKey, recvKey, sendIvStatic, recvIvStatic
      ensures s.Valid()
    {
      Side(host, myId, otherId, signKey, otherCert, clNonce, svNonce, myEph, otherEph,
           sendKey[..], recvKey[..], sendIvStatic[..], recvIvStatic[..], sendSeq, recvSeq, authenticated)
    }

    constructor (sw: Framed.SocketWrapper, crypto: Crypto, host: Host, cert: Cert, signKey: SignKey)
      requires sw.Valid() && sw.der == crypto.der && crypto.Lawful()
      ensures Valid() && this.sw == sw && this.crypto == crypto
      ensures State().Fresh() && State().host == host && State().signKey == signKey && State().otherCert == None
      ensures State().myId == crypto.certName(cert)
      ensures fresh(sendKey) && fresh(recvKey) && fresh(sendIvStatic) && fresh(recvIvStatic)
    {
      this.sw, this.crypto, this.host, this.signKey := sw, crypto, host, signKey;
      myId := crypto.certName(cert);
      otherId, otherCert := [], None;
      clNonce, svNonce, myEph, otherEph := 0, 0, None, None;
      sendSeq, recvSeq, authenticated := 0, 0, false;
      sendKey, recvKey := new byte[KEY_SIZE], new byte[KEY_SIZE];
      sendIvStatic, recvIvStatic, sendIv, recvIv :=
        new byte[IV_SIZE], new byte[IV_SIZE], new byte[IV_SIZE], new byte[IV_SIZE];
      msgToSign := new byte[MAX_MSG_TO_SIGN_SIZE];
    }

    method SetOtherCert(cert: Cert) returns (ok: bool)
      requires Valid()
      modifies this`otherCert, this`otherId
      ensures Valid() && (State(), ok) == Handshake.SetOtherCert(crypto, old(State()), cert)
    {
      if !crypto.trusted(cert) {
        return false;
      }
      otherCert := Some(cert);
      otherId := crypto.certName(cert);
      return true;
    }

    // ----- Records -----

    method MakeAad(len: uint16, aad: array<byte>)
      requires aad.Length == AAD_SIZE
      modifies aad
      ensures aad[..] == Aad(len)
    {
      aad[0], aad[1] := len / 0x100, len % 0x100;
      aad[2] := 0;
    }

    /** The bytes of the message, or none where its writer refuses it. */
    method Plaintext(m: Message) returns (pt: seq<byte>)
      requires Valid() && m.Valid()
      ensures pt == if Fits(crypto.der, m) then Encode(crypto.der, m) else []
    {
      hide Encode, Fits, Wrote;
      var bufferPt := new byte[MAX_MSG_SIZE];
      ghost var was := bufferPt[..];
      var len := MessageIO.Write(crypto.der, m, bufferPt, 0);
      if len == 0 {
        Refused(crypto.der, m);
        return [];
      }
      Appended(was, bufferPt[..], 0, Encode(crypto.der, m));
      return bufferPt[..][..len];
    }

    method EncryptMsg(m: Message) returns (sm: Option<Message>)
      requires Valid() && m.Valid()
      modifies sendIv
      ensures Valid() && sm == Encrypt(crypto, State(), m)
    {
      hide Encode, Fits, RecordIv;
      if !authenticated {
        return None;
      }
      var pt := Plaintext(m);
      Refused(crypto.der, m);
      if |pt| > MAX_SEC_MSG_SIZE {
        return None;
      }
      UpdateIV(host, sendSeq, sendIvStatic, sendIv);
      var aad := new byte[AAD_SIZE];
      MakeAad(|pt| + TAG_SIZE + AAD_SIZE, aad);
      var (ct, tag) := crypto.seal(sendKey[..], sendIv[..], aad[..], pt);
      if |ct| <= 0 {
        return None;
      }
      return Some(SecureMessage(ct, tag));
    }

    method DecryptMsg(w: Beyond, m: Message) returns (r: Handled)
      requires Valid() && m.SecureMessage?
      modifies recvIv
      ensures Valid() && r == Decrypt(crypto, w, State(), m)
    {
      hide Decode, RecordIv;
      if !authenticated {
        return Nil;
      }
      var len := |m.ct|;
      if len > MAX_SEC_MSG_SIZE {
        return Nil;
      }
      var aad := new byte[AAD_SIZE];
      MakeAad(len + TAG_SIZE + AAD_SIZE, aad);
      UpdateIV(host, recvSeq, recvIvStatic, recvIv);
      var plain := crypto.open(recvKey[..], recvIv[..], aad[..], m.ct, m.tag);
      if plain.None? || |plain.value| <= 0 {
        return Nil;
      }
      var pt := plain.value;
      var bufferPt := new byte[len](i requires 0 <= i < len => pt[i]);
      assert bufferPt[0..0 + len] == pt;
      var read := MessageIO.ReadMessage(crypto.der, w, bufferPt, 0, len);
      return HandledOf(read);
    }

    method HandleSecure(w: Beyond, m: Message) returns (r: Handled)
      requires Valid() && m.SecureMessage?
      modifies this`recvSeq, recvIv
      ensures Valid() && (State(), r) == Handle(crypto, w, old(State()), m)
    {
      hide Decrypt;
      r := DecryptMsg(w, m);
      if r.Pass? {
        recvSeq := (recvSeq + 1) % SEQ_MOD;
      }
    }

    method HandleMsg(w: Beyond, msg: Option<Message>) returns (r: Handled)
      requires Valid()
      modifies this`recvSeq, recvIv
      ensures Valid()
      ensures (State(), r) ==
              match msg case None => (old(State()), Nil) case Some(m) => Handle(crypto, w, old(State()), m)
    {
      hide Decrypt;
      if msg.None? {
        return Nil;
      }
      var m := msg.value;
      match m {
        case SecureMessage(_, _) =>
          r := HandleSecure(w, m);
        case ClientHello(_, _, _, _) =>
          r := if clNonce == 0 && !authenticated then Pass(m) else Nil;
        case ServerHello(_, _, _, _, _) =>
          r := if !authenticated then Pass(m) else Nil;
        case ClientVerify(_) =>
          r := if !authenticated then Pass(m) else Nil;
        case Certificate(_) =>
          r := Pass(m);
        case CertRequest =>
          r := Pass(m);
        case _ =>
          r := Nil;
      }
    }

    /** Sends through the socket; 0 when all was taken over. */
    method Put(m: Message) returns (ret: int)
      requires Valid() && Framed.Sendable(crypto.der, m)
      modifies sw.bufferOut, sw.socket`outgoing
      ensures Valid() && State() == old(State())
      ensures Sent(old(sw.socket.outgoing), sw.socket.outgoing, Framed.FrameOf(crypto.der, m), ret)
    {
      ret := sw.SendMsg(m);
    }

    method SendMsg(m: Message) returns (ret: int)
      requires Valid() && m.Valid()
      modifies this`sendSeq, sendIv, sw.bufferOut, sw.socket`outgoing
      ensures Valid()
      ensures Encrypt(crypto, old(State()), m).None? ==>
                ret != 0 && State() == old(State()) && sw.socket.outgoing == old(sw.socket.outgoing)
      ensures Encrypt(crypto, old(State()), m).Some? ==>
                && Framed.Sendable(crypto.der, Encrypt(crypto, old(State()), m).value)
                && State() == (if ret == 0 then AfterSend(old(State())) else old(State()))
                && Sent(old(sw.socket.outgoing), sw.socket.outgoing,
                        Framed.FrameOf(crypto.der, Encrypt(crypto, old(State()), m).value), ret)
    {
      hide Encrypt, Encode, Sent, Framed.FrameOf;
      var sm := EncryptMsg(m);
      if sm.None? {
        return 1;
      }
      RecordFitsFrame(crypto, State(), m);
      ret := Put(sm.value);
      if ret == 0 {
        sendSeq := (sendSeq + 1) % SEQ_MOD;
      }
    }

    // ----- Handshake -----

    method Fill(a: array<byte>, s: seq<byte>)
      requires a.Length == |s|
      modifies a
      ensures a[..] == s
    {
      var n := WriteBuf(a, 0, |s|, s);
    }

    /** False when the library throws. */
    method GenerateKeys(role: Role) returns (ok: bool)
      requires Valid()
      modifies sendKey, recvKey, sendIvStatic, recvIvStatic
      ensures Valid()
      ensures match Handshake.GenerateKeys(crypto, old(State()), role)
              case None => !ok && State() == old(State())
              case Some(s) => ok && State() == s
    {
      hide Info;
      ghost var s0 := State();
      if myEph.None? || otherEph.None? {
        return false;
      }
      var secret := crypto.dh(myEph.value, otherEph.value);
      if secret.None? {
        return false;
      }
      var otherRole := if role.Client? then Server else Client;
      Fill(sendKey, crypto.hkdf(secret.value, Info(host, Ascii("key_") + role.Name(), svNonce, clNonce), KEY_SIZE));
      Fill(recvKey, crypto.hkdf(secret.value, Info(host, Ascii("key_") + otherRole.Name(), svNonce, clNonce),
        KEY_SIZE));
      Fill(sendIvStatic, crypto.hkdf(secret.value, Info(host, Ascii("iv__") + role.Name(), svNonce, clNonce), IV_SIZE));
      Fill(recvIvStatic, crypto.hkdf(secret.value, Info(host, Ascii("iv__") + otherRole.Name(), svNonce, clNonce),
        IV_SIZE));
      return true;
    }

    /** Copies `s` behind the first `i` bytes of the transcript. */
    method Append(i: nat, s: seq<byte>) returns (j: nat)
      requires Sizes() && i + |s| <= MAX_MSG_TO_SIGN_SIZE
      modifies msgToSign
      ensures j == i + |s| && msgToSign[..j] == old(msgToSign[..i]) + s
    {
      hide Wrote;
      ghost var was := msgToSign[..];
      var n := WriteBuf(msgToSign, i, |s|, s);
      Appended(was, msgToSign[..], i, s);
      assert msgToSign[..][..i + |s|] == msgToSign[..i + |s|];
      assert was[..i] == old(msgToSign[..i]);
      return i + n;
    }

    /** Copies a key if it fits; the error code of a key that does not is added to the index. */
    method CopyKey(i: nat, key: seq<byte>) returns (j: nat)
      requires Sizes() && 0 < i <= MAX_MSG_TO_SIGN_SIZE
      modifies msgToSign
      ensures j <= MAX_MSG_TO_SIGN_SIZE && msgToSign[..j] == AppendKey(old(msgToSign[..i]), key)
    {
      if MAX_MSG_TO_SIGN_SIZE - i < |key| {
        return i - 1;
      }
      j := Append(i, key);
    }

    method BuildMsgToSign(role: Role) returns (n: nat)
      requires Valid()
      modifies msgToSign
      ensures Valid() && State() == old(State()) && n <= MAX_MSG_TO_SIGN_SIZE
      ensures match MsgToSign(crypto, State(), role)
              case None => n == 0
              case Some(msg) => n > 0 && msgToSign[..n] == msg
    {
      hide HostBytes, CutName, AppendKey;
      var nameA, keyA, nameB, keyB;
      if role.Server? {
        nameA, keyA := otherId, KeyDer(crypto, otherEph);
        nameB, keyB := myId, KeyDer(crypto, PublicPart(crypto, myEph));
      } else {
        nameA, keyA := myId, KeyDer(crypto, PublicPart(crypto, myEph));
        nameB, keyB := otherId, KeyDer(crypto, otherEph);
      }
      ghost var head := CutName(nameA) + CutName(nameB) + HostBytes(host, clNonce, 4) + HostBytes(host, svNonce, 4);
      var i := Append(0, CutName(nameA));
      assert msgToSign[..i] == CutName(nameA);
      i := Append(i, CutName(nameB));
      i := Append(i, HostBytes(host, clNonce, 4));
      i := Append(i, HostBytes(host, svNonce, 4));
      assert msgToSign[..i] == head && i == |head|;
      if keyA == [] {
        return 0;
      }
      i := CopyKey(i, keyA);
      if keyB == [] {
        return 0;
      }
      n := CopyKey(i, keyB);
    }

    method MakeSignature(role: Role) returns (ds: Option<seq<byte>>)
      requires Valid()
      modifies msgToSign
      ensures Valid() && State() == old(State()) && ds == Handshake.MakeSignature(crypto, State(), role)
    {
      hide MsgToSign;
      var msglen := BuildMsgToSign(role);
      if msglen <= 0 {
        return None;
      }
      return Some(crypto.sign(msgToSign[..msglen], signKey));
    }

    method CheckSignature(ds: seq<byte>, role: Role) returns (ok: bool)
      requires Valid()
      modifies msgToSign
      ensures Valid() && State() == old(State()) && ok == Handshake.CheckSignature(crypto, State(), ds, role)
    {
      hide MsgToSign;
      var msglen := BuildMsgToSign(role);
      if msglen <= 0 || otherCert.None? {
        return false;
      }
      return crypto.verify(msgToSign[..msglen], ds, crypto.certKey(otherCert.value));
    }

    method SendClientHello(nonce: uint32, eph: Secret) returns (o: Outcome)
      requires Valid()
      modifies this`clNonce, this`myEph, sw.bufferOut, sw.socket`outgoing
      ensures Valid()
      ensures var (s, r) := Handshake.SendClientHello(crypto, old(State()), nonce, eph);
              State() == s && Replied(crypto, r, old(sw.socket.outgoing), sw.socket.outgoing, o)
    {
      hide Framed.Sendable, Sent;
      clNonce := nonce;
      myEph := Some(eph);
      HelloSizes(crypto, nonce, myId, otherId, eph, []);
      var ret := Put(ClientHello(nonce, myId, otherId, crypto.pub(eph)));
      return Returned(ret);
    }

    method SendServerHello(nonce: uint32, eph: Secret) returns (o: Outcome)
      requires Valid()
      modifies this`svNonce, this`myEph, sendKey, recvKey, sendIvStatic, recvIvStatic, msgToSign, sw.bufferOut,
          sw.socket`outgoing
      ensures Valid()
      ensures var (s, r) := Handshake.SendServerHello(crypto, old(State()), nonce, eph);
              State() == s && Replied(crypto, r, old(sw.socket.outgoing), sw.socket.outgoing, o)
    {
      hide Sizes, Separate, Framed.Sendable, Sent, Handshake.MakeSignature, Handshake.GenerateKeys;
      svNonce := nonce;
      myEph := Some(eph);
      var ok := GenerateKeys(Server);
      if !ok {
        return Threw;
      }
      var ds := MakeSignature(Server);
      if ds.None? {
        return Returned(-1);
      }
      SignatureSize(crypto, State(), Server);
      HelloSizes(crypto, nonce, myId, otherId, eph, ds.value);
      var ret := Put(ServerHello(nonce, myId, otherId, ds.value, crypto.pub(eph)));
      return Returned(ret);
    }

    method HandleClientHello(m: Message, nonce: uint32, eph: Secret) returns (o: Outcome)
      requires Valid() && m.ClientHello?
      modifies this`clNonce, this`otherEph, this`svNonce, this`myEph
      modifies sendKey, recvKey, sendIvStatic, recvIvStatic, msgToSign, sw.bufferOut, sw.socket`outgoing
      ensures Valid()
      ensures var (s, r) := Handshake.HandleClientHello(crypto, old(State()), m, nonce, eph);
              State() == s && Replied(crypto, r, old(sw.socket.outgoing), sw.socket.outgoing, o)
    {
      hide Replied, Handshake.SendServerHello;
      clNonce := m.nonce;
      otherEph := Some(m.ephKey);
      o := SendServerHello(nonce, eph);
    }

    method SendClientVerify() returns (o: Outcome)
      requires Valid()
      modifies msgToSign, sw.bufferOut, sw.socket`outgoing
      ensures Valid() && State() == old(State())
      ensures Replied(crypto, VerifyReply(crypto, old(State())), old(sw.socket.outgoing), sw.socket.outgoing, o)
    {
      hide Framed.Sendable, Sent, Handshake.MakeSignature;
      var ds := MakeSignature(Client);
      if ds.None? {
        return Returned(-1);
      }
      SignatureSize(crypto, State(), Client);
      HelloSizes(crypto, 0, myId, otherId, Secret(0), ds.value);
      var ret := Put(ClientVerify(ds.value));
      return Returned(ret);
    }

    method HandleServerHello(m: Message) returns (o: Outcome)
      requires Valid() && m.ServerHello?
      modifies this`svNonce, this`otherEph, this`authenticated
      modifies sendKey, recvKey, sendIvStatic, recvIvStatic, msgToSign, sw.bufferOut, sw.socket`outgoing
      ensures Valid()
      ensures var (s, r) := Handshake.HandleServerHello(crypto, old(State()), m);
              State() == s && Replied(crypto, r, old(sw.socket.outgoing), sw.socket.outgoing, o)
    {
      hide Sizes, Separate, Framed.Sendable, Sent, VerifyReply, Handshake.GenerateKeys, Handshake.CheckSignature;
      svNonce := m.nonce;
      otherEph := Some(m.ephKey);
      var generated := GenerateKeys(Client);
      if !generated {
        return Threw;
      }
      var ok := CheckSignature(m.ds, Client);
      if !ok {
        return Returned(-1);
      }
      authenticated := true;
      o := SendClientVerify();
    }

    method HandleClientVerify(m: Message) returns (ok: bool)
      requires Valid() && m.ClientVerify?
      modifies this`authenticated, msgToSign
      ensures Valid() && (State(), ok) == Handshake.HandleClientVerify(crypto, old(State()), m)
    {
      hide Handshake.CheckSignature;
      ok := CheckSignature(m.ds, Server);
      if !ok {
        return false;
      }
      authenticated := true;
    }
  }

  lemma {:induction false} SignatureSize(c: Crypto, s: Side, role: Role)
    requires c.SignLaws()
    ensures Handshake.MakeSignature(c, s, role).Some? ==> |Handshake.MakeSignature(c, s, role).value| <= MAX_SIGNATURE
  {
  }

  lemma {:induction false} Appended(was: seq<byte>, now: seq<byte>, i: nat, s: seq<byte>)
    requires Wrote(was, now, i, s)
    ensures i + |s| <= |now| && now[..i + |s|] == was[..i] + s
  {
  }

  /** A message that its writer refuses is also too long to be encrypted. */
  lemma {:induction false} Refused(d: Der, m: Message)
    requires m.Valid()
    ensures !Fits(d, m) ==> |Encode(d, m)| > MAX_SEC_MSG_SIZE
    ensures |Encode(d, m)| > 0
  {
  }
}
