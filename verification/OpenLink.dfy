// What is handed out when anybody may put messages into the links: exactly what the rules for clear messages let
// through, and what opens as the record that comes next.

module OpenLink {
  import opened Bytes
  import opened Messages
  import opened MessageTheorems
  import opened Crypto
  import opened SecureChannel
  import opened Channel

  // ----- One message -----

  /** What may come out in clear: certificates always, the handshake until the peer is authenticated, and a client hello
      only to a side that has no nonce of a client yet. */
  predicate PassesInClear(s: Side, m: Message) {
    || m.Certificate? || m.CertRequest?
    || (!s.authenticated && (m.ServerHello? || m.ClientVerify? || (m.ClientHello? && s.clNonce == 0)))
  }

  /** The first three bytes of a frame that holds so many encrypted bytes and a tag of 16: its length, and type 0. */
  function Header(n: nat): seq<byte>
    requires n < 0x1_0000 - 19
  {
    [(n + 19) / 256, (n + 19) % 256, 0]
  }

  /** What the record opens to under the receiving half of the side and this number, if it opens to anything. */
  function Opened(c: Crypto, s: Side, n: nat, m: Message): (pt: Option<seq<byte>>)
    requires s.Valid()
  {
    if !m.SecureMessage? || |m.ct| + 19 > 8192 then None
    else
      var pt := c.open(s.recvKey, RecordIv(s.host, n, s.recvIvStatic), Header(|m.ct|), m.ct, m.tag);
      if pt == Some([]) then None else pt
  }

  /** It opens to bytes that read as `x`. */
  predicate OpensAs(c: Crypto, w: Beyond, s: Side, n: nat, m: Message, x: Message)
    requires s.Valid()
  {
    var pt := Opened(c, s, n, m);
    pt.Some? && |pt.value| < 0x1_0000 && Decode(c.der, w, pt.value).Got? && Decode(c.der, w, pt.value).value == x
  }

  /** For every side and every message: what is handed out, when an exception is thrown, and that the receive number
      moves with an opened record only, and nothing else of the side ever. */
  lemma {:induction false} HandedOutExactly(c: Crypto, w: Beyond, s: Side, m: Message, x: Message)
    requires c.CipherLaws() && s.Valid()
    ensures var (s', h) := Handle(c, w, s, m);
            && (h == Pass(x) <==>
                  (x == m && PassesInClear(s, m)) || (s.authenticated && OpensAs(c, w, s, s.recvSeq, m, x)))
            && (h == Throw <==>
                  s.authenticated && Opened(c, s, s.recvSeq, m).Some? &&
                  |Opened(c, s, s.recvSeq, m).value| < 0x1_0000 &&
                  Decode(c.der, w, Opened(c, s, s.recvSeq, m).value).Thrown?)
            && s' == (if m.SecureMessage? && h.Pass? then s.(recvSeq := (s.recvSeq + 1) % SEQ_MOD) else s)
  {
    hide Decode, RecordIv;
    if m.SecureMessage? && |m.ct| <= MAX_SEC_MSG_SIZE {
      assert Aead(|m.ct|) == Header(|m.ct|);
    }
  }

  /** A message in clear that is neither of the handshake nor about certificates never comes out. */
  lemma {:induction false} ClearMovesAreDropped(c: Crypto, w: Beyond, s: Side, col: byte)
    requires c.CipherLaws() && s.Valid()
    ensures Handle(c, w, s, MoveMessage(col)) == (s, Nil)
  {
  }

  /** A message is accepted exactly by a side that takes its peer for authenticated, up to 8173 bytes, and what is sent
      is sealed under the sending half, the number, and the first three bytes of the frame. */
  lemma {:induction false} SealedExactly(c: Crypto, s: Side, m: Message)
    requires c.CipherLaws() && s.Valid() && m.Valid()
    ensures var r, e := Encrypt(c, s, m), Encode(c.der, m);
            && (r.Some? <==> s.authenticated && |e| <= 8173)
            && (r.Some? ==>
                  && r.value.SecureMessage?
                  && (r.value.ct, r.value.tag) ==
                       c.seal(s.sendKey, RecordIv(s.host, s.sendSeq, s.sendIvStatic), Header(|e|), e))
  {
    hide Encode, RecordIv;
    if |Encode(c.der, m)| <= MAX_SEC_MSG_SIZE {
      assert Aead(|Encode(c.der, m)|) == Header(|Encode(c.der, m)|);
    }
  }

  // ----- Links that anybody may change -----

  /** A record that was opened, and what came out of it. */
  datatype Opening = Opening(record: Message, past: Beyond, message: Message)

  /** Two sides and their links, and what either side has opened so far. */
  datatype Net = Net(w: Duplex, byA: seq<Opening>, byB: seq<Opening>) {
    predicate Valid() {
      w.Valid()
    }

    function Mirror(): Net {
      Net(w.Mirror(), byB, byA)
    }
  }

  /** What the two sides do, or somebody puts any message anywhere into a link or takes one out. */
  datatype NetEvent = Usual(e: Event) | Put(toB: bool, at: nat, m: Message) | Drop(toB: bool, at: nat)
  {
    predicate Valid() {
      Usual? ==> e.Valid()
    }
  }

  function Changed(link: seq<Message>, at: nat, m: Option<Message>): seq<Message> {
    var k := Min(at, |link|);
    match m
    case Some(x) => link[..k] + [x] + link[k..]
    case None => if at < |link| then link[..at] + link[at + 1..] else link
  }

  /** What the next message of the link to `to` opens to, if it is handed out. */
  ghost function Next(c: Crypto, past: Beyond, to: Side, link: seq<Message>): seq<Opening>
    requires c.CipherLaws() && to.Valid()
  {
    if link != [] && link[0].SecureMessage? && Handle(c, past, to, link[0]).1.Pass? then
      [Opening(link[0], past, Handle(c, past, to, link[0]).1.message)]
    else []
  }

  ghost function ReceiveAtB(c: Crypto, past: Beyond, x: Net): (x': Net)
    requires c.CipherLaws() && x.Valid()
    ensures x'.Valid()
  {
    Net(ReceiveByB(c, past, x.w), x.byA, x.byB + Next(c, past, x.w.b, x.w.ab.link))
  }

  function SendAtA(c: Crypto, x: Net, m: Message, taken: bool): (x': Net)
    requires x.Valid() && m.Valid()
    ensures x'.Valid()
  {
    x.(w := SendByA(c, x.w, m, taken))
  }

  function ChangeToB(x: Net, at: nat, m: Option<Message>): Net {
    x.(w := x.w.(ab := x.w.ab.(link := Changed(x.w.ab.link, at, m))))
  }

  ghost function NetStep(c: Crypto, x: Net, e: NetEvent): (x': Net)
    requires c.CipherLaws() && x.Valid() && e.Valid()
    ensures x'.Valid()
  {
    match e
    case Usual(Send(true, m, taken)) => SendAtA(c, x, m, taken)
    case Usual(Send(false, m, taken)) => SendAtA(c, x.Mirror(), m, taken).Mirror()
    case Usual(Receive(false, past)) => ReceiveAtB(c, past, x)
    case Usual(Receive(true, past)) => ReceiveAtB(c, past, x.Mirror()).Mirror()
    case Put(true, at, m) => ChangeToB(x, at, Some(m))
    case Put(false, at, m) => ChangeToB(x.Mirror(), at, Some(m)).Mirror()
    case Drop(true, at) => ChangeToB(x, at, None)
    case Drop(false, at) => ChangeToB(x.Mirror(), at, None).Mirror()
  }

  ghost function NetRun(c: Crypto, x: Net, es: seq<NetEvent>): (x': Net)
    requires c.CipherLaws() && x.Valid() && forall k :: 0 <= k < |es| ==> es[k].Valid()
    ensures x'.Valid()
    decreases |es|
  {
    if es == [] then x else assert es[0].Valid(); NetRun(c, NetStep(c, x, es[0]), es[1..])
  }

  /** As the handshake leaves both sides, whatever the links hold. */
  ghost predicate NetStart(x: Net) {
    && x.Valid() && Matched(x.w.a, x.w.b) && Matched(x.w.b, x.w.a)
    && x.w.a.sendSeq == x.w.a.recvSeq == x.w.b.sendSeq == x.w.b.recvSeq == 0
    && x.w.ab.sent == x.w.ba.sent == [] && x.w.ab.delivered == x.w.ba.delivered == [] && x.byA == x.byB == []
  }

  /** What was handed out in this order: what was opened, and in between only what certificates are about. */
  ghost predicate Merged(delivered: seq<Message>, os: seq<Opening>) {
    if delivered == [] then os == []
    else
      var last, rest := delivered[|delivered| - 1], delivered[..|delivered| - 1];
      || (os != [] && os[|os| - 1].message == last && Merged(rest, os[..|os| - 1]))
      || ((last.Certificate? || last.CertRequest?) && Merged(rest, os))
  }

  /** The `k`th record was opened under number `k`. */
  ghost predicate InOrder(c: Crypto, to: Side, os: seq<Opening>)
    requires to.Valid()
  {
    forall k :: 0 <= k < |os| ==> OpensAs(c, os[k].past, to, k % SEQ_MOD, os[k].record, os[k].message)
  }

  /** The `k`th record of the sender was sealed under number `k`. */
  ghost predicate Sendings(c: Crypto, from: Side, sent: seq<Record>)
    requires from.Valid()
  {
    forall k :: 0 <= k < |sent| ==>
      && sent[k].message.Valid() && 0 < |Encode(c.der, sent[k].message)| <= MAX_SEC_MSG_SIZE
      && sent[k].iv == RecordIv(from.host, k % SEQ_MOD, from.sendIvStatic)
  }

  ghost predicate Received(c: Crypto, from: Side, to: Side, d: Direction, os: seq<Opening>) {
    && from.Valid() && to.Valid() && Matched(from, to)
    && from.sendSeq == |d.sent| % SEQ_MOD && to.recvSeq == |os| % SEQ_MOD
    && InOrder(c, to, os) && Merged(d.delivered, os) && Sendings(c, from, d.sent)
  }

  ghost predicate NetInv(c: Crypto, x: Net) {
    Received(c, x.w.a, x.w.b, x.w.ab, x.byB) && Received(c, x.w.b, x.w.a, x.w.ba, x.byA)
  }

  /** Only the receiving half of a side matters. */
  lemma {:induction false} SameHalf(c: Crypto, to: Side, to': Side, os: seq<Opening>)
    requires to.Valid() && to'.Valid() && to'.host == to.host
    requires to'.recvKey == to.recvKey && to'.recvIvStatic == to.recvIvStatic && InOrder(c, to, os)
    ensures InOrder(c, to', os)
  {
    hide Decode, RecordIv;
    forall k | 0 <= k < |os|
      ensures OpensAs(c, os[k].past, to', k % SEQ_MOD, os[k].record, os[k].message)
    {
      assert OpensAs(c, os[k].past, to, k % SEQ_MOD, os[k].record, os[k].message);
    }
  }

  /** What a side sends changes nothing about what it receives. */
  lemma {:induction false} OtherHalf(c: Crypto, from: Side, to: Side, d: Direction, os: seq<Opening>, from': Side,
    to': Side)
    requires Received(c, from, to, d, os) && from'.Valid() && to'.Valid()
    requires from' == from.(recvSeq := from'.recvSeq) && to' == to.(sendSeq := to'.sendSeq)
    ensures Received(c, from', to', d, os)
  {
    SameHalf(c, to, to', os);
    hide InOrder, Merged, Encode, RecordIv;
  }

  lemma {:induction false} SendAtAKeeps(c: Crypto, x: Net, m: Message, taken: bool)
    requires NetInv(c, x) && m.Valid()
    ensures NetInv(c, SendAtA(c, x, m, taken))
  {
    var x' := SendAtA(c, x, m, taken);
    OtherHalf(c, x.w.b, x.w.a, x.w.ba, x.byA, x'.w.b, x'.w.a);
    NextSeq(|x.w.ab.sent|);
    hide Encode, InOrder, Merged, RecordIv;
  }

  lemma {:induction false} PassedClear(c: Crypto, from: Side, to: Side, d: Direction, d': Direction, os: seq<Opening>,
    x: Message)
    requires Received(c, from, to, d, os) && (x.Certificate? || x.CertRequest?)
    requires d'.sent == d.sent && d'.delivered == d.delivered + [x]
    ensures Received(c, from, to, d', os)
  {
    hide InOrder, Sendings;
    assert d'.delivered[..|d'.delivered| - 1] == d.delivered;
  }

  lemma {:induction false} PassedOpen(c: Crypto, from: Side, to: Side, to': Side, d: Direction, d': Direction,
    os: seq<Opening>, o: Opening)
    requires Received(c, from, to, d, os) && OpensAs(c, o.past, to, to.recvSeq, o.record, o.message)
    requires to' == to.(recvSeq := (to.recvSeq + 1) % SEQ_MOD) && to'.Valid()
    requires d'.sent == d.sent && d'.delivered == d.delivered + [o.message]
    ensures Received(c, from, to', d', os + [o])
  {
    hide OpensAs, Sendings;
    assert d'.delivered[..|d'.delivered| - 1] == d.delivered && (os + [o])[..|os|] == os;
    NextSeq(|os|);
    assert InOrder(c, to, os + [o]);
    SameHalf(c, to, to', os + [o]);
  }

  /** One message handled at the end of a link. */
  lemma {:induction false} HandledKeeps(c: Crypto, past: Beyond, from: Side, to: Side, d: Direction, d': Direction,
    os: seq<Opening>, m: Message)
    requires c.CipherLaws() && Received(c, from, to, d, os) && d'.sent == d.sent
    requires var (to', h) := Handle(c, past, to, m);
             d'.delivered == d.delivered + if h.Pass? then [h.message] else []
    ensures var (to', h) := Handle(c, past, to, m);
            && Received(c, from, to', d',
                        os + if m.SecureMessage? && h.Pass? then [Opening(m, past, h.message)] else [])
            && to' == to.(recvSeq := to'.recvSeq)
  {
    var (to', h) := Handle(c, past, to, m);
    var x := if h.Pass? then h.message else m;
    HandedOutExactly(c, past, to, m, x);
    hide Handle, OpensAs, InOrder, Merged, Sendings;
    if !h.Pass? {
      assert os + [] == os && d'.delivered == d.delivered;
    } else if m.SecureMessage? {
      PassedOpen(c, from, to, to', d, d', os, Opening(m, past, x));
    } else {
      assert os + [] == os;
      PassedClear(c, from, to, d, d', os, x);
    }
  }

  lemma {:induction false} ReceiveAtBKeeps(c: Crypto, past: Beyond, x: Net)
    requires c.CipherLaws() && NetInv(c, x)
    ensures NetInv(c, ReceiveAtB(c, past, x))
  {
    hide Handle, InOrder, Merged, Sendings, Matched;
    var x' := ReceiveAtB(c, past, x);
    if x.w.ab.link != [] {
      HandledKeeps(c, past, x.w.a, x.w.b, x.w.ab, x'.w.ab, x.byB, x.w.ab.link[0]);
      OtherHalf(c, x.w.b, x.w.a, x.w.ba, x.byA, x'.w.b, x'.w.a);
    } else {
      assert x.byB + [] == x.byB;
    }
  }

  lemma {:induction false} NetStepKeeps(c: Crypto, x: Net, e: NetEvent)
    requires c.CipherLaws() && NetInv(c, x) && x.Valid() && e.Valid()
    ensures NetInv(c, NetStep(c, x, e))
  {
    hide InOrder, Merged, Sendings, SendAtA, ReceiveAtB;
    match e
    case Usual(Send(true, m, taken)) => SendAtAKeeps(c, x, m, taken);
    case Usual(Send(false, m, taken)) => SendAtAKeeps(c, x.Mirror(), m, taken);
    case Usual(Receive(false, past)) => ReceiveAtBKeeps(c, past, x);
    case Usual(Receive(true, past)) => ReceiveAtBKeeps(c, past, x.Mirror());
    case _ =>
  }

  lemma {:induction false} NetRunKeeps(c: Crypto, x: Net, es: seq<NetEvent>)
    requires c.CipherLaws() && NetInv(c, x) && x.Valid() && forall k :: 0 <= k < |es| ==> es[k].Valid()
    ensures NetInv(c, NetRun(c, x, es))
    decreases |es|
  {
    hide NetInv, NetStep;
    if es != [] {
      assert es[0].Valid();
      NetStepKeeps(c, x, es[0]);
      NetRunKeeps(c, NetStep(c, x, es[0]), es[1..]);
    }
  }

  /** In every run after a handshake, whatever anybody puts into the links or takes out of them: what a side hands out
      is what it opened, the `k`th record under number `k`, and in between certificates and requests for them. */
  lemma {:induction false} OnlyOpenedComesOut(c: Crypto, x: Net, es: seq<NetEvent>)
    requires c.CipherLaws() && NetStart(x) && forall k :: 0 <= k < |es| ==> es[k].Valid()
    ensures var r := NetRun(c, x, es);
            && Merged(r.w.ab.delivered, r.byB) && InOrder(c, r.w.b, r.byB) && r.w.b.recvSeq == |r.byB| % SEQ_MOD
            && Merged(r.w.ba.delivered, r.byA) && InOrder(c, r.w.a, r.byA) && r.w.a.recvSeq == |r.byA| % SEQ_MOD
  {
    NetRunKeeps(c, x, es);
  }

  // ----- Where nobody else can seal -----

  /** Each record that opened was sealed by the other side, under the vector that it opened under. */
  ghost predicate NothingForged(c: Crypto, to: Side, sent: seq<Record>, os: seq<Opening>)
    requires to.Valid() && forall j :: 0 <= j < |sent| ==> sent[j].message.Valid()
  {
    forall k :: 0 <= k < |os| ==> exists j :: 0 <= j < |sent| && SealedFor(c, to, k % SEQ_MOD, os[k].record, sent[j])
  }

  predicate SealedFor(c: Crypto, to: Side, n: nat, record: Message, r: Record)
    requires to.Valid() && r.message.Valid()
  {
    r.iv == RecordIv(to.host, n, to.recvIvStatic) && Opened(c, to, n, record) == Some(Encode(c.der, r.message))
  }

  lemma {:induction false} SealedAsNumbered(c: Crypto, from: Side, to: Side, d: Direction, os: seq<Opening>, k: nat)
    requires Received(c, from, to, d, os) && |d.sent| < SEQ_MOD && k < |os| && k < SEQ_MOD
    requires NothingForged(c, to, d.sent, os)
    ensures k < |d.sent| && Opened(c, to, k, os[k].record) == Some(Encode(c.der, d.sent[k].message))
  {
    hide Opened, Encode, RecordIv, InOrder, Merged;
    assert k % SEQ_MOD == k;
    var j :| 0 <= j < |d.sent| && SealedFor(c, to, k % SEQ_MOD, os[k].record, d.sent[j]);
    assert j % SEQ_MOD == j;
    RecordIvInjective(to.host, j, k, to.recvIvStatic);
  }

  /** Then the openings of a side are what was sent to it from the first message on, in order, with nothing left out,
      repeated or added. */
  lemma {:induction false} OpeningsArePrefix(c: Crypto, from: Side, to: Side, d: Direction, os: seq<Opening>, k: nat)
    requires c.Lawful() && Received(c, from, to, d, os) && NothingForged(c, to, d.sent, os) && |d.sent| < SEQ_MOD
    requires k < |os|
    ensures |os| <= |d.sent| && os[k].message == Normal(d.sent[k].message)
  {
    hide Opened, Encode, Decode, Normal, Merged, NothingForged;
    if |os| > |d.sent| {
      SealedAsNumbered(c, from, to, d, os, |d.sent|);
    } else {
      SealedAsNumbered(c, from, to, d, os, k);
      assert OpensAs(c, os[k].past, to, k % SEQ_MOD, os[k].record, os[k].message);
      RoundTrip(c.der, os[k].past, d.sent[k].message);
    }
  }

  /** In every run after a handshake, whatever is put in, taken out, repeated or exchanged, in both directions: where
      nothing is forged and fewer than 2^64 records are sent, what a side opens is a prefix of what the other one
      sent. */
  lemma {:induction false} TamperingChangesNothing(c: Crypto, x: Net, es: seq<NetEvent>, k: nat)
    requires c.Lawful() && NetStart(x) && forall k :: 0 <= k < |es| ==> es[k].Valid()
    ensures var r := NetRun(c, x, es);
            && (forall j :: 0 <= j < |r.w.ab.sent| ==> r.w.ab.sent[j].message.Valid())
            && (forall j :: 0 <= j < |r.w.ba.sent| ==> r.w.ba.sent[j].message.Valid())
            && (NothingForged(c, r.w.b, r.w.ab.sent, r.byB) && |r.w.ab.sent| < SEQ_MOD && k < |r.byB| ==>
                  |r.byB| <= |r.w.ab.sent| && r.byB[k].message == Normal(r.w.ab.sent[k].message))
            && (NothingForged(c, r.w.a, r.w.ba.sent, r.byA) && |r.w.ba.sent| < SEQ_MOD && k < |r.byA| ==>
                  |r.byA| <= |r.w.ba.sent| && r.byA[k].message == Normal(r.w.ba.sent[k].message))
  {
    NetRunKeeps(c, x, es);
    var r := NetRun(c, x, es);
    hide NetRun, NothingForged, InOrder, Merged, Normal, Encode, RecordIv;
    if NothingForged(c, r.w.b, r.w.ab.sent, r.byB) && |r.w.ab.sent| < SEQ_MOD && k < |r.byB| {
      OpeningsArePrefix(c, r.w.a, r.w.b, r.w.ab, r.byB, k);
    }
    if NothingForged(c, r.w.a, r.w.ba.sent, r.byA) && |r.w.ba.sent| < SEQ_MOD && k < |r.byA| {
      OpeningsArePrefix(c, r.w.b, r.w.a, r.w.ba, r.byA, k);
    }
  }
}
