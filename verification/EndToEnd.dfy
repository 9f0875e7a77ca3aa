// From messages to bytes and back: the handshake, the secure channel, the framing and the codec together.

module EndToEnd {
  import opened Bytes
  import opened BufferIO
  import opened Messages
  import opened MessageTheorems
  import opened SocketWrapper
  import opened Framing
  import opened Crypto
  import opened SecureChannel
  import opened Handshake

  /** sendMsg on each message: the records of those that are accepted. */
  function SealAll(c: Crypto, s: Side, ms: seq<Message>): (r: seq<Message>)
    requires s.Valid() && forall k :: 0 <= k < |ms| ==> ms[k].Valid()
    decreases |ms|
  {
    if ms == [] then []
    else
      assert ms[0].Valid();
      match Encrypt(c, s, ms[0])
      case None => SealAll(c, s, ms[1..])
      case Some(sm) => [sm] + SealAll(c, AfterSend(s), ms[1..])
  }

  /** The messages that sendMsg accepts, as their receiver sees them. */
  function Expected(c: Crypto, ms: seq<Message>): (r: seq<Handled>)
    requires forall k :: 0 <= k < |ms| ==> ms[k].Valid()
  {
    if ms == [] then []
    else
      assert ms[0].Valid();
      (if |Encode(c.der, ms[0])| <= MAX_SEC_MSG_SIZE then [Pass(Normal(ms[0]))] else []) + Expected(c, ms[1..])
  }

  /** handleMsg on each message that the reader got from the stream; beyond the `k`th one memory holds `o(k)`. */
  ghost function HandleAll(c: Crypto, o: nat -> Beyond, no: nat, s: Side, rs: seq<Read<Message>>): (hs: seq<Handled>)
    requires c.CipherLaws() && s.Valid()
    decreases |rs|
  {
    if rs == [] then []
    else if !rs[0].Got? then HandleAll(c, o, no, s, rs[1..])
    else
      var (s', h) := Handle(c, o(no), s, rs[0].value);
      [h] + HandleAll(c, o, no + 1, s', rs[1..])
  }

  lemma {:induction false} SealedAreSendable(c: Crypto, s: Side, ms: seq<Message>)
    requires c.Lawful() && s.Valid() && forall k :: 0 <= k < |ms| ==> ms[k].Valid()
    ensures forall k :: 0 <= k < |SealAll(c, s, ms)| ==> Sendable(c.der, SealAll(c, s, ms)[k])
    ensures forall k :: 0 <= k < |SealAll(c, s, ms)| ==> SealAll(c, s, ms)[k].SecureMessage?
    decreases |ms|
  {
    hide Encode, RecordIv;
    if ms != [] {
      assert ms[0].Valid();
      SealedAreSendable(c, s, ms[1..]);
      SealedAreSendable(c, AfterSend(s), ms[1..]);
      if Encrypt(c, s, ms[0]).Some? {
        RecordFitsFrame(c, s, ms[0]);
      }
    }
  }

  /** What is sealed on one side opens on the other, in order. */
  lemma {:induction false} OpensAll(c: Crypto, o: nat -> Beyond, no: nat, a: Side, b: Side, ms: seq<Message>,
    rs: seq<Read<Message>>)
    requires c.Lawful() && a.Valid() && b.Valid() && Matched(a, b) && a.sendSeq == b.recvSeq
    requires forall k :: 0 <= k < |ms| ==> ms[k].Valid()
    requires |rs| == |SealAll(c, a, ms)|
    requires forall k :: 0 <= k < |rs| ==> rs[k].Got? && rs[k].value == SealAll(c, a, ms)[k]
    ensures HandleAll(c, o, no, b, rs) == Expected(c, ms)
    decreases |ms|
  {
    hide Encode, Decode, RecordIv, Normal, Handle;
    if ms != [] {
      assert ms[0].Valid();
      if Encrypt(c, a, ms[0]).None? {
        OpensAll(c, o, no, a, b, ms[1..], rs);
      } else {
        OpensWhatWasSealed(c, o(no), a, b, ms[0]);
        var b' := b.(recvSeq := (b.recvSeq + 1) % SEQ_MOD);
        var sealed := SealAll(c, a, ms);
        assert sealed[1..] == SealAll(c, AfterSend(a), ms[1..]);
        assert rs[0].value == sealed[0];
        forall k | 0 <= k < |rs[1..]|
          ensures rs[1..][k].Got? && rs[1..][k].value == sealed[1..][k]
        {
          assert rs[k + 1].Got? && rs[k + 1].value == sealed[k + 1];
        }
        OpensAll(c, o, no + 1, AfterSend(a), b', ms[1..], rs[1..]);
      }
    }
  }

  /** What a receiver's memory holds: its input buffer, and what lies beyond each frame and each decrypted message. */
  datatype Memory = Memory(buffer: seq<byte>, frames: nat -> Beyond, plain: nat -> Beyond)

  /** Over a reliable byte stream cut up in any way, the receiver's caller gets exactly the accepted messages,
      in order. */
  lemma {:induction false} MessagesArrive(c: Crypto, a: Side, b: Side, ms: seq<Message>, mem: Memory,
    cs: seq<seq<byte>>)
    requires c.Lawful() && a.Valid() && b.Valid() && Matched(a, b) && a.sendSeq == b.recvSeq
    requires forall k :: 0 <= k < |ms| ==> ms[k].Valid()
    requires |mem.buffer| == MAX_MSG_SIZE && ValidChunks(c.der, mem.frames, 0, mem.buffer, 0, cs)
    requires Concat(cs) == StreamOf(c, a, ms)
    ensures Arrived(c, b, mem, cs) == Expected(c, ms)
  {
    hide Encode, Decode, Deliver, FrameOf, Encrypt, Handle, Parts, ValidChunks, Concat, SealAll;
    var sealed := SealAll(c, a, ms);
    SealedAreSendable(c, a, ms);
    SentMessagesArrive(c.der, mem.frames, 0, mem.buffer, sealed, cs);
    OpensAll(c, mem.plain, 0, a, b, ms, Parts(c.der, mem.frames, 0, mem.buffer, 0, cs).results);
  }

  /** What the caller of a receiver gets that reads the stream in these pieces. */
  ghost function Arrived(c: Crypto, s: Side, mem: Memory, cs: seq<seq<byte>>): seq<Handled>
    requires c.CipherLaws() && s.Valid() && |mem.buffer| == MAX_MSG_SIZE
    requires ValidChunks(c.der, mem.frames, 0, mem.buffer, 0, cs)
  {
    HandleAll(c, mem.plain, 0, s, Parts(c.der, mem.frames, 0, mem.buffer, 0, cs).results)
  }

  ghost function StreamOf(c: Crypto, a: Side, ms: seq<Message>): seq<byte>
    requires c.Lawful() && a.Valid() && forall k :: 0 <= k < |ms| ==> ms[k].Valid()
  {
    SealedAreSendable(c, a, ms);
    Concat(FramesOf(c.der, SealAll(c, a, ms)))
  }

  /** Two honest peers shake hands and then talk both ways. */
  lemma {:induction false} PeersTalk(c: Crypto, cl: Side, sv: Side, clNonce: uint32, svNonce: uint32, ea: Secret,
    eb: Secret, there: seq<Message>, back: seq<Message>, mem: Memory, cs: seq<seq<byte>>,
    mem': Memory, cs': seq<seq<byte>>)
    returns (h: Shake)
    requires c.Lawful() && Peers(c, cl, sv)
    requires forall k :: 0 <= k < |there| ==> there[k].Valid()
    requires forall k :: 0 <= k < |back| ==> back[k].Valid()
    requires |mem.buffer| == MAX_MSG_SIZE && ValidChunks(c.der, mem.frames, 0, mem.buffer, 0, cs)
    requires |mem'.buffer| == MAX_MSG_SIZE && ValidChunks(c.der, mem'.frames, 0, mem'.buffer, 0, cs')
    ensures Completes(c, cl, sv, clNonce, svNonce, ea, eb, h) && h.cl2.Valid() && h.sv2.Valid()
    ensures Concat(cs) == StreamOf(c, h.cl2, there) ==> Arrived(c, h.sv2, mem, cs) == Expected(c, there)
    ensures Concat(cs') == StreamOf(c, h.sv2, back) ==> Arrived(c, h.cl2, mem', cs') == Expected(c, back)
  {
    hide Completes, StreamOf, ValidChunks, Parts, HandleAll;
    h := HandshakeAgreement(c, cl, sv, clNonce, svNonce, ea, eb);
    if Concat(cs) == StreamOf(c, h.cl2, there) {
      MessagesArrive(c, h.cl2, h.sv2, there, mem, cs);
    }
    if Concat(cs') == StreamOf(c, h.sv2, back) {
      MessagesArrive(c, h.sv2, h.cl2, back, mem', cs');
    }
  }
}
