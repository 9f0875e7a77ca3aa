// Two matched sides and the two ordered links between them: the secure channel is a pair of FIFO queues.

module Channel {
  import opened Bytes
  import opened Messages
  import opened MessageTheorems
  import opened Crypto
  import opened SecureChannel

  /** A message that sendMsg took, and the vector its record was sealed under. */
  datatype Record = Record(message: Message, iv: seq<byte>)

  /** One direction: the records in flight, and the history of what was taken and what was handed out. */
  datatype Direction = Direction(link: seq<Message>, sent: seq<Record>, delivered: seq<Message>)

  datatype Duplex = Duplex(a: Side, b: Side, ab: Direction, ba: Direction)
  {
    function Mirror(): Duplex {
      Duplex(b, a, ba, ab)
    }

    predicate Valid() {
      a.Valid() && b.Valid()
    }
  }

  /** One side sends a message, which the socket takes over or not, or handles the next record from its link. */
  datatype Event = Send(byA: bool, m: Message, taken: bool) | Receive(byA: bool, past: Beyond)
  {
    predicate Valid() {
      Send? ==> m.Valid()
    }
  }

  function SendByA(c: Crypto, w: Duplex, m: Message, taken: bool): (w': Duplex)
    requires w.Valid() && m.Valid()
    ensures w'.Valid()
  {
    match Encrypt(c, w.a, m)
    case None => w
    case Some(sm) =>
      if !taken then w
      else
        var r := Record(m, RecordIv(w.a.host, w.a.sendSeq, w.a.sendIvStatic));
        w.(a := AfterSend(w.a), ab := w.ab.(link := w.ab.link + [sm], sent := w.ab.sent + [r]))
  }

  ghost function ReceiveByB(c: Crypto, past: Beyond, w: Duplex): (w': Duplex)
    requires c.CipherLaws() && w.Valid()
    ensures w'.Valid()
  {
    if w.ab.link == [] then w
    else
      var (b', h) := Handle(c, past, w.b, w.ab.link[0]);
      w.(b := b', ab := w.ab.(link := w.ab.link[1..],
        delivered := w.ab.delivered + if h.Pass? then [h.message] else []))
  }

  ghost function Step(c: Crypto, w: Duplex, e: Event): (w': Duplex)
    requires c.CipherLaws() && w.Valid() && e.Valid()
    ensures w'.Valid()
  {
    match e
    case Send(true, m, taken) => SendByA(c, w, m, taken)
    case Send(false, m, taken) => SendByA(c, w.Mirror(), m, taken).Mirror()
    case Receive(false, past) => ReceiveByB(c, past, w)
    case Receive(true, past) => ReceiveByB(c, past, w.Mirror()).Mirror()
  }

  ghost function Run(c: Crypto, w: Duplex, es: seq<Event>): (w': Duplex)
    requires c.CipherLaws() && w.Valid() && forall k :: 0 <= k < |es| ==> es[k].Valid()
    ensures w'.Valid()
    decreases |es|
  {
    if es == [] then w else assert es[0].Valid(); Run(c, Step(c, w, es[0]), es[1..])
  }

  /** As the handshake leaves it. */
  ghost predicate Start(w: Duplex) {
    && w.Valid() && Matched(w.a, w.b) && Matched(w.b, w.a)
    && w.a.sendSeq == w.a.recvSeq == w.b.sendSeq == w.b.recvSeq == 0
    && w.ab == Direction([], [], []) && w.ba == Direction([], [], [])
  }

  // ----- The invariant -----

  function AtSeq(s: Side, k: nat): (r: Side)
    requires s.Valid()
    ensures r.Valid()
  {
    s.(sendSeq := k % SEQ_MOD)
  }

  /** The record number `k` of this direction, as its sender seals it. */
  ghost predicate IsRecord(c: Crypto, from: Side, k: nat, r: Record)
    requires from.Valid()
  {
    && r.message.Valid() && Encrypt(c, AtSeq(from, k), r.message).Some?
    && r.iv == RecordIv(from.host, k % SEQ_MOD, from.sendIvStatic)
  }

  ghost predicate InStep(c: Crypto, from: Side, to: Side, d: Direction) {
    && from.Valid() && to.Valid() && Matched(from, to)
    && |d.sent| == |d.delivered| + |d.link|
    && from.sendSeq == |d.sent| % SEQ_MOD && to.recvSeq == |d.delivered| % SEQ_MOD
    && (forall k :: 0 <= k < |d.sent| ==> IsRecord(c, from, k, d.sent[k]))
    && (forall k :: 0 <= k < |d.delivered| ==> d.delivered[k] == Normal(d.sent[k].message))
    && (forall k :: 0 <= k < |d.link| ==>
          Some(d.link[k]) == Encrypt(c, AtSeq(from, |d.delivered| + k), d.sent[|d.delivered| + k].message))
  }

  ghost predicate Inv(c: Crypto, w: Duplex) {
    InStep(c, w.a, w.b, w.ab) && InStep(c, w.b, w.a, w.ba)
  }

  lemma {:induction false} NextSeq(n: nat)
    ensures (n % SEQ_MOD + 1) % SEQ_MOD == (n + 1) % SEQ_MOD
  {
  }

  /** What the two sides do to a direction does not depend on the sequence numbers of the other one. */
  lemma {:induction false} OtherDirection(c: Crypto, from: Side, to: Side, from': Side, to': Side, d: Direction)
    requires InStep(c, from, to, d)
    requires from'.Valid() && to'.Valid()
    requires from' == from.(recvSeq := from'.recvSeq) && to' == to.(sendSeq := to'.sendSeq)
    ensures InStep(c, from', to', d)
  {
    forall k | 0 <= k < |d.sent|
      ensures IsRecord(c, from', k, d.sent[k])
      ensures Encrypt(c, AtSeq(from', k), d.sent[k].message) == Encrypt(c, AtSeq(from, k), d.sent[k].message)
    {
      assert IsRecord(c, from, k, d.sent[k]);
    }
  }

  lemma {:induction false} SendKeeps(c: Crypto, w: Duplex, m: Message, taken: bool)
    requires Inv(c, w) && m.Valid()
    ensures Inv(c, SendByA(c, w, m, taken))
  {
    hide Encode, Decode, RecordIv, Normal;
    var w' := SendByA(c, w, m, taken);
    if w' != w {
      var d, d' := w.ab, w'.ab;
      NextSeq(|d.sent|);
      assert AtSeq(w.a, |d.sent|) == w.a;
      forall k | 0 <= k < |d'.sent|
        ensures AtSeq(w'.a, k) == AtSeq(w.a, k) && IsRecord(c, w'.a, k, d'.sent[k])
      {
        if k < |d.sent| {
          assert IsRecord(c, w.a, k, d.sent[k]);
        }
      }
      assert InStep(c, w'.a, w'.b, w'.ab);
      OtherDirection(c, w.b, w.a, w'.b, w'.a, w.ba);
    }
  }

  /** The next record is opened, and what comes out is the message it was made from. */
  lemma {:induction false} ReceiveDelivers(c: Crypto, past: Beyond, w: Duplex)
    requires c.Lawful() && Inv(c, w) && w.ab.link != []
    ensures var m := w.ab.sent[|w.ab.delivered|].message;
            ReceiveByB(c, past, w).ab == Direction(w.ab.link[1..], w.ab.sent, w.ab.delivered + [Normal(m)])
    ensures ReceiveByB(c, past, w).b == w.b.(recvSeq := (w.b.recvSeq + 1) % SEQ_MOD) && ReceiveByB(c, past, w).a == w.a
  {
    hide Encode, Decode, RecordIv, Normal, Encrypt, Handle;
    var n := |w.ab.delivered|;
    var m := w.ab.sent[n].message;
    assert IsRecord(c, w.a, n, w.ab.sent[n]);
    assert Some(w.ab.link[0]) == Encrypt(c, AtSeq(w.a, n + 0), m);
    OpensWhatWasSealed(c, past, AtSeq(w.a, n), w.b, m);
  }

  lemma {:induction false} ReceiveKeeps(c: Crypto, past: Beyond, w: Duplex)
    requires c.Lawful() && Inv(c, w)
    ensures Inv(c, ReceiveByB(c, past, w))
  {
    hide Encode, Decode, RecordIv, Normal, Encrypt, Handle;
    if w.ab.link != [] {
      var d, w' := w.ab, ReceiveByB(c, past, w);
      ReceiveDelivers(c, past, w);
      NextSeq(|d.delivered|);
      hide ReceiveByB;
      forall k | 0 <= k < |w'.ab.link|
        ensures Some(w'.ab.link[k]) == Encrypt(c, AtSeq(w.a, |w'.ab.delivered| + k),
                d.sent[|w'.ab.delivered| + k].message)
      {
        assert w'.ab.link[k] == d.link[k + 1];
      }
      assert InStep(c, w'.a, w'.b, w'.ab);
      OtherDirection(c, w.b, w.a, w'.b, w'.a, w.ba);
    }
  }

  lemma {:induction false} StepKeeps(c: Crypto, w: Duplex, e: Event)
    requires c.Lawful() && Inv(c, w) && e.Valid()
    ensures Inv(c, Step(c, w, e))
  {
    hide InStep, SendByA, ReceiveByB;
    InvValid(c, w);
    match e
    case Send(true, m, taken) => SendKeeps(c, w, m, taken);
    case Send(false, m, taken) => SendKeeps(c, w.Mirror(), m, taken);
    case Receive(false, past) => ReceiveKeeps(c, past, w);
    case Receive(true, past) => ReceiveKeeps(c, past, w.Mirror());
  }

  lemma {:induction false} InvValid(c: Crypto, w: Duplex)
    requires Inv(c, w)
    ensures w.Valid()
  {
  }

  lemma {:induction false} RunKeeps(c: Crypto, w: Duplex, es: seq<Event>)
    requires c.Lawful() && Inv(c, w) && w.Valid() && forall k :: 0 <= k < |es| ==> es[k].Valid()
    ensures Inv(c, Run(c, w, es))
    decreases |es|
  {
    hide Inv, Step;
    if es != [] {
      assert es[0].Valid();
      StepKeeps(c, w, es[0]);
      RunKeeps(c, Step(c, w, es[0]), es[1..]);
    }
  }

  // ----- The channel is a FIFO -----

  /** The abstract queue: what was taken and is not yet handed out, as it will come out. */
  function Queue(d: Direction): (q: seq<Message>)
    requires |d.delivered| <= |d.sent|
  {
    seq(|d.sent| - |d.delivered|,
        k requires 0 <= k < |d.sent| - |d.delivered| => Normal(d.sent[|d.delivered| + k].message))
  }

  /** sendMsg appends what it accepts to the queue and nothing else. */
  lemma {:induction false} SendAppends(c: Crypto, w: Duplex, m: Message, taken: bool)
    requires Inv(c, w) && m.Valid()
    ensures var w' := SendByA(c, w, m, taken);
            && Inv(c, w') && w'.ba == w.ba && w'.ab.delivered == w.ab.delivered
            && Queue(w'.ab) == Queue(w.ab) +
                 if taken && |Encode(c.der, m)| <= MAX_SEC_MSG_SIZE then [Normal(m)] else []
  {
    hide Encode, Decode, RecordIv, Normal;
    SendKeeps(c, w, m, taken);
    var w' := SendByA(c, w, m, taken);
    if !taken || Encrypt(c, w.a, m).None? {
      assert w' == w;
    } else {
      assert w'.ab.sent[|w.ab.sent|].message == m;
    }
  }

  /** handleMsg takes the head of the queue and hands it out. */
  lemma {:induction false} ReceivePops(c: Crypto, past: Beyond, w: Duplex)
    requires c.Lawful() && Inv(c, w)
    ensures var w' := ReceiveByB(c, past, w);
            && Inv(c, w') && w'.ba == w.ba
            && (if Queue(w.ab) == [] then w' == w
                else w'.ab.delivered == w.ab.delivered + [Queue(w.ab)[0]] && Queue(w'.ab) == Queue(w.ab)[1..])
  {
    hide Encode, Decode, RecordIv, Normal, Encrypt, Handle;
    ReceiveKeeps(c, past, w);
    if w.ab.link != [] {
      ReceiveDelivers(c, past, w);
      var w' := ReceiveByB(c, past, w);
      assert |Queue(w'.ab)| == |Queue(w.ab)[1..]|;
      forall k | 0 <= k < |Queue(w'.ab)|
        ensures Queue(w'.ab)[k] == Queue(w.ab)[1..][k]
      {
        assert |w'.ab.delivered| + k == |w.ab.delivered| + (k + 1);
      }
    }
  }

  /** In every run, in both directions: what was handed out is a prefix of what was taken, in order,
      and the rest is in flight. */
  lemma {:induction false} ChannelIsFifo(c: Crypto, w: Duplex, es: seq<Event>)
    requires c.Lawful() && Start(w) && forall k :: 0 <= k < |es| ==> es[k].Valid()
    ensures var r := Run(c, w, es);
            && Inv(c, r) && Fifo(r.ab) && Fifo(r.ba)
  {
    hide Encode, Decode, Normal;
    RunKeeps(c, w, es);
  }

  ghost predicate Fifo(d: Direction) {
    && |d.sent| == |d.delivered| + |d.link|
    && forall k :: 0 <= k < |d.delivered| ==> d.delivered[k] == Normal(d.sent[k].message)
  }

  /** Handling everything in flight hands out everything that was taken. */
  lemma {:induction false} AllArrive(c: Crypto, w: Duplex, es: seq<Event>)
    requires c.Lawful() && Inv(c, w) && w.Valid() && |es| == |w.ab.link|
    requires forall k :: 0 <= k < |es| ==> es[k].Receive? && !es[k].byA
    ensures var r := Run(c, w, es);
            r.ab.link == [] && r.ab.sent == w.ab.sent && |r.ab.delivered| == |w.ab.sent| && Fifo(r.ab)
    decreases |w.ab.link|
  {
    hide Encode, Decode, Normal, Encrypt, Handle;
    if es != [] {
      var past := es[0].past;
      ReceiveKeeps(c, past, w);
      ReceiveDelivers(c, past, w);
      var w' := ReceiveByB(c, past, w);
      assert Step(c, w, es[0]) == w';
      AllArrive(c, w', es[1..]);
    }
  }

  lemma {:induction false} SameResidue(i: nat, j: nat)
    requires i <= j
    ensures i % SEQ_MOD == j % SEQ_MOD <==> (j - i) % SEQ_MOD == 0
  {
    var q, r := i / SEQ_MOD, i % SEQ_MOD;
    var q', r' := j / SEQ_MOD, j % SEQ_MOD;
    assert j - i == (q' - q) * SEQ_MOD + (r' - r);
  }

  lemma {:induction false} RecordsFresh(c: Crypto, from: Side, to: Side, d: Direction, i: nat, j: nat)
    requires InStep(c, from, to, d) && i <= j < |d.sent|
    ensures d.sent[i].iv == d.sent[j].iv <==> (j - i) % SEQ_MOD == 0
  {
    hide Encrypt, RecordIv;
    assert IsRecord(c, from, i, d.sent[i]) && IsRecord(c, from, j, d.sent[j]);
    SameResidue(i, j);
    if d.sent[i].iv == d.sent[j].iv {
      RecordIvInjective(from.host, i % SEQ_MOD, j % SEQ_MOD, from.sendIvStatic);
    }
  }

  /** Two records of one direction share their vector exactly when their numbers differ by a multiple of 2^64. */
  lemma {:induction false} IvFreshness(c: Crypto, w: Duplex, es: seq<Event>, i: nat, j: nat)
    requires c.Lawful() && Start(w) && forall k :: 0 <= k < |es| ==> es[k].Valid()
    requires i <= j
    ensures var sent := Run(c, w, es).ab.sent;
            j < |sent| ==> (sent[i].iv == sent[j].iv <==> (j - i) % SEQ_MOD == 0)
    ensures var sent := Run(c, w, es).ba.sent;
            j < |sent| ==> (sent[i].iv == sent[j].iv <==> (j - i) % SEQ_MOD == 0)
  {
    ChannelIsFifo(c, w, es);
    hide InStep, Run, Start;
    var r := Run(c, w, es);
    if j < |r.ab.sent| {
      RecordsFresh(c, r.a, r.b, r.ab, i, j);
    }
    if j < |r.ba.sent| {
      RecordsFresh(c, r.b, r.a, r.ba, i, j);
    }
  }
}
