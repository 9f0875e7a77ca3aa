// The incremental reader gives the same messages however the stream is cut up.

module Framing {
  import opened Bytes
  import opened BufferIO
  import opened Messages
  import opened MessageTheorems
  import opened SocketWrapper

  /** A length field that counts the frame, and at least a type byte. */
  predicate IsFrame(f: seq<byte>) {
    HEADER + 1 <= |f| <= MAX_MSG_SIZE && OfBe16(f[..HEADER]) == |f|
  }

  predicate AreFrames(fs: seq<seq<byte>>) {
    forall k :: 0 <= k < |fs| ==> IsFrame(fs[k])
  }

  function Concat(fs: seq<seq<byte>>): seq<byte> {
    if fs == [] then [] else fs[0] + Concat(fs[1..])
  }

  function Results(d: Der, o: nat -> Beyond, no: nat, fs: seq<seq<byte>>): (rs: seq<Read<Message>>)
    requires AreFrames(fs)
    ensures |rs| == |fs|
    decreases |fs|
  {
    if fs == [] then [] else [Decode(d, o(no), fs[0][HEADER..])] + Results(d, o, no + 1, fs[1..])
  }

  /** The buffer after whole frames: each one covers the front of what the ones before left. */
  function MemAfter(mem: seq<byte>, fs: seq<seq<byte>>): (r: seq<byte>)
    requires |mem| == MAX_MSG_SIZE && AreFrames(fs)
    ensures |r| == MAX_MSG_SIZE
    decreases |fs|
  {
    if fs == [] then mem else MemAfter(Overlay(mem, 0, fs[0]), fs[1..])
  }

  // ----- The incremental reader -----

  /** The number of frames completed so far, after one more call. */
  function Count(no: nat, p: Part): nat {
    if p.received.Frame? then no + 1 else no
  }

  /** Non-empty reads, each of at most the number of bytes asked for at that moment. */
  ghost predicate ValidChunks(d: Der, o: nat -> Beyond, no: nat, mem: seq<byte>, idx: nat, cs: seq<seq<byte>>)
    decreases |cs|
  {
    cs == [] ||
    (Ready(mem, idx) && 1 <= |cs[0]| <= Want(mem, idx) &&
     var p := Deliver(d, o(no), mem, idx, cs[0]);
     ValidChunks(d, o, Count(no, p), p.mem, p.idx, cs[1..]))
  }

  datatype Run = Run(mem: seq<byte>, idx: nat, results: seq<Read<Message>>)

  /** All calls of the incremental reader, one a chunk, and the results of the frames they complete. */
  ghost function Parts(d: Der, o: nat -> Beyond, no: nat, mem: seq<byte>, idx: nat, cs: seq<seq<byte>>): Run
    requires ValidChunks(d, o, no, mem, idx, cs)
    decreases |cs|
  {
    if cs == [] then Run(mem, idx, [])
    else
      var p := Deliver(d, o(no), mem, idx, cs[0]);
      var r := Parts(d, o, Count(no, p), p.mem, p.idx, cs[1..]);
      r.(results := (if p.received.Frame? then [p.received.result] else []) + r.results)
  }

  /** How many of the frames are complete in the first `n` bytes. */
  function Completed(fs: seq<seq<byte>>, n: nat): (k: nat)
    ensures k <= |fs|
  {
    if fs == [] || n < |fs[0]| then 0 else 1 + Completed(fs[1..], n - |fs[0]|)
  }

  /** The buffer holds exactly the consumed prefix of the current frame in front of what earlier frames left. */
  ghost predicate Synced(base: seq<byte>, mem: seq<byte>, idx: nat, fs: seq<seq<byte>>) {
    && |base| == MAX_MSG_SIZE && AreFrames(fs)
    && (if fs == [] then idx == 0 else idx < |fs[0]|)
    && mem == Overlay(base, 0, if fs == [] then [] else fs[0][..idx])
  }

  lemma {:induction false} SyncedIsReady(base: seq<byte>, mem: seq<byte>, idx: nat, fs: seq<seq<byte>>)
    requires Synced(base, mem, idx, fs) && fs != []
    ensures Ready(mem, idx) && 1 <= Want(mem, idx) <= |fs[0]| - idx
    ensures Want(mem, idx) == if idx < HEADER then HEADER - idx else |fs[0]| - idx
  {
    if idx >= HEADER {
      assert mem[..HEADER] == mem[..idx][..HEADER] == fs[0][..idx][..HEADER] == fs[0][..HEADER];
    }
  }

  /** Storing `c` behind `s` is storing both. */
  lemma {:induction false} OverlayTwice(base: seq<byte>, s: seq<byte>, c: seq<byte>)
    requires |s| + |c| <= |base|
    ensures Overlay(Overlay(base, 0, s), |s|, c) == Overlay(base, 0, s + c)
  {
    var m := Overlay(base, 0, s);
    assert m == s + base[|s|..];
    assert m[..|s|] == s && m[|s| + |c|..] == base[|s| + |c|..];
  }

  lemma {:induction false} PrefixGrows(f: seq<byte>, idx: nat, c: seq<byte>)
    requires idx + |c| <= |f| && c == f[idx..idx + |c|]
    ensures f[..idx] + c == f[..idx + |c|]
  {
  }

  lemma {:induction false} FrontStored(base: seq<byte>, f: seq<byte>, n: nat)
    requires |base| == MAX_MSG_SIZE && n <= |f| <= MAX_MSG_SIZE
    ensures Overlay(base, 0, f[..n])[..n] == f[..n]
    ensures n >= HEADER ==> Overlay(base, 0, f[..n])[..HEADER] == f[..HEADER]
    ensures n == |f| >= HEADER ==> f[..n] == f && Overlay(base, 0, f)[HEADER..n] == f[HEADER..]
  {
    var m := Overlay(base, 0, f[..n]);
    assert m[..n] == f[..n];
    if n >= HEADER {
      assert m[..HEADER] == m[..n][..HEADER] == f[..n][..HEADER] == f[..HEADER];
    }
    if n == |f| {
      assert f[..n] == f;
    }
  }

  /** One read stays within the current frame, and completes it or leaves the reader in step with it. */
  lemma {:induction false} ChunkStep(d: Der, w: Beyond, base: seq<byte>, mem: seq<byte>, idx: nat, fs: seq<seq<byte>>,
    c: seq<byte>)
    requires Synced(base, mem, idx, fs) && fs != []
    requires 1 <= |c| <= Want(mem, idx) && c == fs[0][idx..idx + Min(|c|, |fs[0]| - idx)]
    ensures Ready(mem, idx) && idx + |c| <= |fs[0]|
    ensures var p := Deliver(d, w, mem, idx, c);
            if idx + |c| < |fs[0]| then
              p.received == Nothing && p.idx == idx + |c| && Synced(base, p.mem, p.idx, fs)
            else
              && p.received == Frame(Decode(d, w, fs[0][HEADER..]))
              && p.idx == (if p.received.result.Thrown? then |fs[0]| else 0)
              && p.mem == Overlay(base, 0, fs[0])
  {
    hide Decode;
    SyncedIsReady(base, mem, idx, fs);
    var f := fs[0];
    var p := Deliver(d, w, mem, idx, c);
    PrefixGrows(f, idx, c);
    OverlayTwice(base, f[..idx], c);
    FrontStored(base, f, idx + |c|);
  }

  lemma {:induction false} ConcatFirst(fs: seq<seq<byte>>, idx: nat, c: seq<byte>, rest: seq<byte>)
    requires fs != [] && idx <= |fs[0]| && c + rest <= Concat(fs)[idx..]
    ensures |c| <= |fs[0]| - idx ==> c == fs[0][idx..idx + |c|]
    ensures |c| <= |fs[0]| - idx ==> rest <= Concat(fs)[idx + |c|..]
    ensures |c| == |fs[0]| - idx ==> rest <= Concat(fs[1..])
  {
    var all := Concat(fs);
    assert all == fs[0] + Concat(fs[1..]);
    if |c| <= |fs[0]| - idx {
      assert c == all[idx..][..|c|];
      assert all[idx..][..|c|] == fs[0][idx..idx + |c|];
      assert rest == all[idx..][|c|..|c| + |rest|];
      assert all[idx..][|c|..|c| + |rest|] == all[idx + |c|..][..|rest|];
      if |c| == |fs[0]| - idx {
        assert all[idx + |c|..] == Concat(fs[1..]);
      }
    }
  }

  lemma {:induction false} ChunksInStep(d: Der, o: nat -> Beyond, no: nat, base: seq<byte>, mem: seq<byte>, idx: nat,
    fs: seq<seq<byte>>, cs: seq<seq<byte>>)
    requires Synced(base, mem, idx, fs)
    requires ValidChunks(d, o, no, mem, idx, cs) && Concat(cs) <= Concat(fs)[idx..]
    ensures var k := Completed(fs, idx + |Concat(cs)|);
            var r := Parts(d, o, no, mem, idx, cs);
            && AreFrames(fs[..k])
            && r.results == Results(d, o, no, fs[..k])
            && ((forall j :: 0 <= j < k ==> !Results(d, o, no, fs[..k])[j].Thrown?) ==>
                Synced(MemAfter(base, fs[..k]), r.mem, r.idx, fs[k..]))
    decreases |cs|
  {
    hide Decode, Deliver, Want, Synced, Ready, Overlay;
    if cs == [] {
      assert Completed(fs, idx) == 0 by {
        SyncedIsInside(base, mem, idx, fs);
      }
      assert fs[..0] == [] && fs[0..] == fs;
    } else {
      var c := cs[0];
      SyncedIsInside(base, mem, idx, fs);
      MoreToRead(base, mem, idx, fs, cs);
      SyncedIsReady(base, mem, idx, fs);
      assert Concat(cs) == c + Concat(cs[1..]);
      ConcatFirst(fs, idx, c, Concat(cs[1..]));
      ChunkStep(d, o(no), base, mem, idx, fs, c);
      if idx + |c| < |fs[0]| {
        var p := Deliver(d, o(no), mem, idx, c);
        ChunksInStep(d, o, no, base, p.mem, p.idx, fs, cs[1..]);
      } else {
        FrameDone(d, o, no, base, mem, idx, fs, cs);
      }
    }
  }

  lemma {:induction false} SyncedIsInside(base: seq<byte>, mem: seq<byte>, idx: nat, fs: seq<seq<byte>>)
    requires Synced(base, mem, idx, fs)
    ensures if fs == [] then idx == 0 else idx < |fs[0]|
    ensures idx <= |Concat(fs)|
  {
    if fs != [] {
      assert Concat(fs) == fs[0] + Concat(fs[1..]);
    }
  }

  lemma {:induction false} MoreToRead(base: seq<byte>, mem: seq<byte>, idx: nat, fs: seq<seq<byte>>, cs: seq<seq<byte>>)
    requires Synced(base, mem, idx, fs) && cs != [] && cs[0] != []
    requires idx <= |Concat(fs)| && Concat(cs) <= Concat(fs)[idx..]
    ensures fs != []
  {
    assert |Concat(cs)| >= |cs[0]|;
  }

  lemma {:induction false} FrameDone(d: Der, o: nat -> Beyond, no: nat, base: seq<byte>, mem: seq<byte>, idx: nat,
    fs: seq<seq<byte>>, cs: seq<seq<byte>>)
    requires Synced(base, mem, idx, fs) && fs != [] && cs != []
    requires ValidChunks(d, o, no, mem, idx, cs) && Concat(cs) <= Concat(fs)[idx..] &&
             Concat(cs[1..]) <= Concat(fs[1..])
    requires |cs[0]| == |fs[0]| - idx && Concat(cs) == cs[0] + Concat(cs[1..])
    requires Deliver(d, o(no), mem, idx, cs[0]) == Part(Overlay(base, 0, fs[0]),
      if Decode(d, o(no), fs[0][HEADER..]).Thrown? then |fs[0]| else 0, Frame(Decode(d, o(no), fs[0][HEADER..])))
    ensures var k := Completed(fs, idx + |Concat(cs)|);
            var r := Parts(d, o, no, mem, idx, cs);
            && AreFrames(fs[..k])
            && r.results == Results(d, o, no, fs[..k])
            && ((forall j :: 0 <= j < k ==> !Results(d, o, no, fs[..k])[j].Thrown?) ==>
                Synced(MemAfter(base, fs[..k]), r.mem, r.idx, fs[k..]))
    decreases |cs|, 0
  {
    hide Decode, Deliver, Synced, Want, Ready, Overlay, Results, MemAfter;
    SyncedSizes(base, mem, idx, fs);
    var p := Deliver(d, o(no), mem, idx, cs[0]);
    var k' := Completed(fs[1..], |Concat(cs[1..])|);
    assert Completed(fs, idx + |Concat(cs)|) == 1 + k';
    FirstFrame(d, o, no, base, fs, k');
    if p.received.result.Thrown? {
      ThrownStops(d, o, no + 1, base, fs[0], cs[1..]);
      NothingCompleted(fs[1..]);
      OneResult(d, o, no, mem, idx, cs);
      assert k' == 0;
      NoResults(d, o, no + 1, fs[1..]);
      assert Results(d, o, no, fs[..1 + k']) == [p.received.result];
      assert Results(d, o, no, fs[..1 + k'])[0].Thrown?;
    } else {
      SyncedAfresh(p.mem, fs[1..]);
      assert Concat(fs[1..])[0..] == Concat(fs[1..]);
      ChunksInStep(d, o, no + 1, p.mem, p.mem, 0, fs[1..], cs[1..]);
    }
  }

  lemma {:induction false} OneResult(d: Der, o: nat -> Beyond, no: nat, mem: seq<byte>, idx: nat, cs: seq<seq<byte>>)
    requires ValidChunks(d, o, no, mem, idx, cs) && |cs| == 1 && Deliver(d, o(no), mem, idx, cs[0]).received.Frame?
    ensures Concat(cs[1..]) == []
    ensures Parts(d, o, no, mem, idx, cs).results == [Deliver(d, o(no), mem, idx, cs[0]).received.result]
  {
    hide Deliver, Want;
    assert cs[1..] == [];
  }

  lemma {:induction false} NoResults(d: Der, o: nat -> Beyond, no: nat, fs: seq<seq<byte>>)
    requires AreFrames(fs)
    ensures AreFrames(fs[..0]) && Results(d, o, no, fs[..0]) == []
  {
  }

  lemma {:induction false} NothingCompleted(fs: seq<seq<byte>>)
    requires AreFrames(fs)
    ensures Completed(fs, 0) == 0
  {
  }

  /** The first of the completed frames, and the others. */
  lemma {:induction false} FirstFrame(d: Der, o: nat -> Beyond, no: nat, base: seq<byte>, fs: seq<seq<byte>>, k: nat)
    requires AreFrames(fs) && k < |fs| && |base| == MAX_MSG_SIZE
    ensures fs[1 + k..] == fs[1..][k..] && AreFrames(fs[..1 + k]) && AreFrames(fs[1..][..k])
    ensures var rs, rest := Results(d, o, no, fs[..1 + k]), Results(d, o, no + 1, fs[1..][..k]);
            rs == [Decode(d, o(no), fs[0][HEADER..])] + rest && forall j :: 0 <= j < k ==> rest[j] == rs[1 + j]
    ensures MemAfter(base, fs[..1 + k]) == MemAfter(Overlay(base, 0, fs[0]), fs[1..][..k])
  {
    hide Decode, Overlay;
    assert fs[..1 + k][0] == fs[0] && fs[..1 + k][1..] == fs[1..][..k];
  }

  /** After an exception the reader asks for no bytes, so no further read can give it any. */
  lemma {:induction false} ThrownStops(d: Der, o: nat -> Beyond, no: nat, base: seq<byte>, f: seq<byte>,
    cs: seq<seq<byte>>)
    requires |base| == MAX_MSG_SIZE && IsFrame(f) && ValidChunks(d, o, no, Overlay(base, 0, f), |f|, cs)
    ensures cs == []
  {
    var mem := Overlay(base, 0, f);
    assert mem[..HEADER] == mem[..|f|][..HEADER] == f[..HEADER];
  }

  // ----- Exactly which streams can be read to the end -----

  /** Some cutting into non-empty reads takes the incremental reader through the whole stream. */
  ghost predicate Readable(d: Der, o: nat -> Beyond, no: nat, mem: seq<byte>, fs: seq<seq<byte>>) {
    exists cs :: ValidChunks(d, o, no, mem, 0, cs) && Concat(cs) == Concat(fs)
  }

  /** The parser of this frame throws, and the index of the reader stays at the end of the frame. */
  predicate Stuck(d: Der, w: Beyond, f: seq<byte>)
    requires IsFrame(f)
  {
    DerFails(d, f[HEADER..]) || (Astray(f[HEADER..]) && w.wild.Throws?)
  }

  lemma {:induction false} StuckExactly(d: Der, o: nat -> Beyond, no: nat, fs: seq<seq<byte>>, k: nat)
    requires AreFrames(fs) && k < |fs|
    ensures Results(d, o, no, fs)[k].Thrown? <==> Stuck(d, o(no + k), fs[k])
    decreases k
  {
    hide Decode, DerFails, Astray;
    if k == 0 {
      ThrowsExactly(d, o(no), fs[0][HEADER..]);
    } else {
      StuckExactly(d, o, no + 1, fs[1..], k - 1);
    }
  }

  /** No parser but perhaps that of the last frame throws. */
  ghost predicate NoneStuckBeforeLast(d: Der, o: nat -> Beyond, no: nat, fs: seq<seq<byte>>)
    requires AreFrames(fs)
  {
    forall k :: 0 <= k < |fs| - 1 ==> !Stuck(d, o(no + k), fs[k])
  }

  /** What any cutting of the stream leads to depends on the number of bytes read alone: the results of the frames
      completed so far and, as long as none of their parsers throws, the front of the frame under way in the buffer. */
  lemma {:induction false} ChunkingIndependence(d: Der, o: nat -> Beyond, no: nat, base: seq<byte>, mem: seq<byte>,
    idx: nat, fs: seq<seq<byte>>, cs: seq<seq<byte>>)
    requires Synced(base, mem, idx, fs)
    requires ValidChunks(d, o, no, mem, idx, cs) && Concat(cs) <= Concat(fs)[idx..]
    ensures var k := Completed(fs, idx + |Concat(cs)|);
            var r := Parts(d, o, no, mem, idx, cs);
            && AreFrames(fs[..k])
            && r.results == Results(d, o, no, fs[..k])
            && ((forall j :: 0 <= j < k ==> !Stuck(d, o(no + j), fs[j])) ==>
                Synced(MemAfter(base, fs[..k]), r.mem, r.idx, fs[k..]))
  {
    hide Decode, Deliver, Want, Ready, Overlay, Parts, ValidChunks, Results, Stuck, MemAfter, Concat;
    ChunksInStep(d, o, no, base, mem, idx, fs, cs);
    var k := Completed(fs, idx + |Concat(cs)|);
    forall j | 0 <= j < k
      ensures Results(d, o, no, fs[..k])[j].Thrown? <==> Stuck(d, o(no + j), fs[j])
    {
      StuckExactly(d, o, no, fs[..k], j);
    }
  }

  /** The length field and the rest of each frame. */
  function TwoReads(fs: seq<seq<byte>>): seq<seq<byte>>
    requires AreFrames(fs)
  {
    if fs == [] then [] else [fs[0][..HEADER], fs[0][HEADER..]] + TwoReads(fs[1..])
  }

  lemma {:induction false} TwoReadsWork(d: Der, o: nat -> Beyond, no: nat, mem: seq<byte>, fs: seq<seq<byte>>)
    requires |mem| == MAX_MSG_SIZE && AreFrames(fs)
    requires forall k :: 0 <= k < |fs| - 1 ==> !Results(d, o, no, fs)[k].Thrown?
    ensures ValidChunks(d, o, no, mem, 0, TwoReads(fs)) && Concat(TwoReads(fs)) == Concat(fs)
    decreases |fs|
  {
    hide Decode, Deliver, Want, Synced, Ready, Overlay;
    if fs != [] {
      var f, cs := fs[0], TwoReads(fs);
      assert cs[1..][1..] == TwoReads(fs[1..]);
      SyncedAfresh(mem, fs);
      assert Concat(fs) == f + Concat(fs[1..]) && f[..HEADER] + f[HEADER..] == f;
      SyncedIsReady(mem, mem, 0, fs);
      ChunkStep(d, o(no), mem, mem, 0, fs, f[..HEADER]);
      var p := Deliver(d, o(no), mem, 0, f[..HEADER]);
      SyncedIsReady(mem, p.mem, p.idx, fs);
      ChunkStep(d, o(no), mem, p.mem, p.idx, fs, f[HEADER..]);
      var q := Deliver(d, o(no), p.mem, p.idx, f[HEADER..]);
      assert Results(d, o, no, fs)[1..] == Results(d, o, no + 1, fs[1..]);
      if fs[1..] == [] {
        assert TwoReads(fs[1..]) == [];
      } else {
        assert !Results(d, o, no, fs)[0].Thrown?;
        TwoReadsWork(d, o, no + 1, q.mem, fs[1..]);
      }
      assert ValidChunks(d, o, Count(no, p), p.mem, p.idx, cs[1..]);
      assert Concat(cs) == f[..HEADER] + (f[HEADER..] + Concat(TwoReads(fs[1..]))) by {
        assert cs[1..][0] == f[HEADER..];
        assert Concat(cs) == cs[0] + Concat(cs[1..]);
        assert Concat(cs[1..]) == cs[1..][0] + Concat(cs[1..][1..]);
      }
    }
  }

  lemma {:induction false} NothingAfterThrow(d: Der, o: nat -> Beyond, no: nat, base: seq<byte>, mem: seq<byte>,
    idx: nat, fs: seq<seq<byte>>, cs: seq<seq<byte>>, k: nat)
    requires Synced(base, mem, idx, fs) && k < |fs| && Results(d, o, no, fs)[k].Thrown?
    requires ValidChunks(d, o, no, mem, idx, cs) && Concat(cs) <= Concat(fs)[idx..]
    ensures idx + |Concat(cs)| <= |Concat(fs[..k + 1])|
    decreases |cs|
  {
    hide Decode, Deliver, Want, Synced, Ready, Overlay;
    var f := fs[0];
    assert fs[..k + 1][0] == f && fs[..k + 1][1..] == fs[1..][..k];
    assert Concat(fs[..k + 1]) == f + Concat(fs[1..][..k]);
    SyncedIsInside(base, mem, idx, fs);
    if cs != [] {
      var c := cs[0];
      SyncedIsReady(base, mem, idx, fs);
      assert Concat(cs) == c + Concat(cs[1..]);
      ConcatFirst(fs, idx, c, Concat(cs[1..]));
      ChunkStep(d, o(no), base, mem, idx, fs, c);
      var p := Deliver(d, o(no), mem, idx, c);
      if idx + |c| < |f| {
        NothingAfterThrow(d, o, no, base, p.mem, p.idx, fs, cs[1..], k);
      } else if p.received.result.Thrown? {
        SyncedSizes(base, mem, idx, fs);
        ThrownStops(d, o, no + 1, base, f, cs[1..]);
      } else {
        SyncedSizes(base, mem, idx, fs);
        assert Results(d, o, no, fs) == [p.received.result] + Results(d, o, no + 1, fs[1..]);
        SyncedAfresh(p.mem, fs[1..]);
        NothingAfterThrow(d, o, no + 1, p.mem, p.mem, 0, fs[1..], cs[1..], k - 1);
        assert fs[1..][..k - 1 + 1] == fs[1..][..k];
      }
    }
  }

  lemma {:induction false} SyncedSizes(base: seq<byte>, mem: seq<byte>, idx: nat, fs: seq<seq<byte>>)
    requires Synced(base, mem, idx, fs)
    ensures |base| == |mem| == MAX_MSG_SIZE && AreFrames(fs)
  {
  }

  lemma {:induction false} SyncedAfresh(mem: seq<byte>, fs: seq<seq<byte>>)
    requires |mem| == MAX_MSG_SIZE && AreFrames(fs)
    ensures Synced(mem, mem, 0, fs)
  {
    assert fs != [] ==> fs[0][..0] == [];
    assert Overlay(mem, 0, []) == mem;
  }

  /** The incremental reader can get through a stream exactly when no parser but that of the last frame throws:
      when before the last frame no key or certificate fails to decode, and memory stops no parser that goes astray. */
  lemma {:induction false} ReadableExactly(d: Der, o: nat -> Beyond, no: nat, mem: seq<byte>, fs: seq<seq<byte>>)
    requires |mem| == MAX_MSG_SIZE && AreFrames(fs)
    ensures Readable(d, o, no, mem, fs) <==> NoneStuckBeforeLast(d, o, no, fs)
  {
    hide Decode, Deliver, Want, Overlay, Stuck, Results;
    forall k | 0 <= k < |fs|
      ensures Results(d, o, no, fs)[k].Thrown? <==> Stuck(d, o(no + k), fs[k])
    {
      StuckExactly(d, o, no, fs, k);
    }
    if NoneStuckBeforeLast(d, o, no, fs) {
      TwoReadsWork(d, o, no, mem, fs);
    } else {
      var k :| 0 <= k < |fs| - 1 && Stuck(d, o(no + k), fs[k]);
      forall cs | ValidChunks(d, o, no, mem, 0, cs)
        ensures Concat(cs) != Concat(fs)
      {
        if Concat(cs) == Concat(fs) {
          SyncedAfresh(mem, fs);
          assert Concat(fs)[0..] == Concat(fs);
          NothingAfterThrow(d, o, no, mem, mem, 0, fs, cs, k);
          PrefixIsShorter(fs, k + 1);
        }
      }
      assert !Readable(d, o, no, mem, fs);
    }
  }

  /** From the bytes alone: whatever memory holds, the stream can be read exactly when before its last frame
      no key or certificate fails to decode and no parser goes astray. */
  lemma {:induction false} ReadableWhatever(d: Der, no: nat, mem: seq<byte>, fs: seq<seq<byte>>)
    requires |mem| == MAX_MSG_SIZE && AreFrames(fs)
    ensures (forall o: nat -> Beyond :: Readable(d, o, no, mem, fs)) <==>
            forall k :: 0 <= k < |fs| - 1 ==> !DerFails(d, fs[k][HEADER..]) && !Astray(fs[k][HEADER..])
  {
    hide DerFails, Astray, Readable;
    var worst: nat -> Beyond := _ => Beyond([], Throws);
    ReadableExactly(d, worst, no, mem, fs);
    forall k | 0 <= k < |fs| - 1
      ensures Stuck(d, worst(no + k), fs[k]) <==> DerFails(d, fs[k][HEADER..]) || Astray(fs[k][HEADER..])
    {
    }
    forall o: nat -> Beyond
      ensures Readable(d, o, no, mem, fs) <==> NoneStuckBeforeLast(d, o, no, fs)
    {
      ReadableExactly(d, o, no, mem, fs);
    }
  }

  /** A stream that no cutting takes to its end: a client hello that stops after its nonce, and one more frame. */
  lemma {:induction false} UnreadableStream(d: Der, o: nat -> Beyond, no: nat, mem: seq<byte>)
    requires |mem| == MAX_MSG_SIZE
    ensures var fs: seq<seq<byte>> := [[0, 7, 1, 0, 0, 0, 0], [0, 3, 4]];
            AreFrames(fs) && !Readable(d, o, no, mem, fs)
  {
    var fs: seq<seq<byte>> := [[0, 7, 1, 0, 0, 0, 0], [0, 3, 4]];
    assert fs[0][..HEADER] == [0, 7] && fs[1][..HEADER] == [0, 3];
    assert fs[0][HEADER..] == [1, 0, 0, 0, 0];
    assert Stuck(d, o(no + 0), fs[0]);
    ReadableExactly(d, o, no, mem, fs);
  }

  lemma {:induction false} PrefixIsShorter(fs: seq<seq<byte>>, n: nat)
    requires AreFrames(fs) && n < |fs|
    ensures |Concat(fs[..n])| < |Concat(fs)|
  {
    if n > 0 {
      assert fs[..n][0] == fs[0] && fs[..n][1..] == fs[1..][..n - 1];
      PrefixIsShorter(fs[1..], n - 1);
    }
  }

  // ----- The blocking reader -----

  /** `n` calls of the blocking reader. */
  function Blocking(d: Der, o: nat -> Beyond, no: nat, mem: seq<byte>, stream: seq<byte>, n: nat):
    (r: (seq<byte>, seq<byte>, seq<Received>))
    requires |mem| == MAX_MSG_SIZE
    ensures |r.0| == MAX_MSG_SIZE
    decreases n
  {
    if n == 0 || (|stream| >= HEADER && OfBe16(stream[..HEADER]) < HEADER) then (mem, stream, [])
    else
      var (mem', stream', m) := Receive(d, o(no), mem, stream);
      var r := Blocking(d, o, no + 1, mem', stream', n - 1);
      (r.0, r.1, [m] + r.2)
  }

  function AsReceived(rs: seq<Read<Message>>): (r: seq<Received>)
    ensures |r| == |rs|
  {
    if rs == [] then [] else [Frame(rs[0])] + AsReceived(rs[1..])
  }

  lemma {:induction false} ReceiveOne(d: Der, w: Beyond, mem: seq<byte>, f: seq<byte>, rest: seq<byte>)
    requires |mem| == MAX_MSG_SIZE && IsFrame(f)
    ensures |f + rest| >= HEADER && OfBe16((f + rest)[..HEADER]) >= HEADER
    ensures Receive(d, w, mem, f + rest) == (Overlay(mem, 0, f), rest, Frame(Decode(d, w, f[HEADER..])))
  {
    hide Decode;
    var s := f + rest;
    assert s[..HEADER] == f[..HEADER] && s[..|f|] == f && s[|f|..] == rest;
    assert s[HEADER..|f|] == f[HEADER..];
  }

  /** The blocking reader takes the stream frame by frame and leaves what follows. */
  lemma {:induction false} BlockingReadsFrames(d: Der, o: nat -> Beyond, no: nat, mem: seq<byte>, fs: seq<seq<byte>>,
    rest: seq<byte>)
    requires |mem| == MAX_MSG_SIZE && AreFrames(fs)
    ensures Blocking(d, o, no, mem, Concat(fs) + rest, |fs|) ==
            (MemAfter(mem, fs), rest, AsReceived(Results(d, o, no, fs)))
    decreases |fs|
  {
    hide Decode, Overlay, Receive;
    if fs == [] {
      assert Concat(fs) + rest == rest;
    } else {
      var tail := Concat(fs[1..]) + rest;
      assert Concat(fs) + rest == fs[0] + tail;
      ReceiveOne(d, o(no), mem, fs[0], tail);
      BlockingReadsFrames(d, o, no + 1, Overlay(mem, 0, fs[0]), fs[1..], rest);
      assert Results(d, o, no, fs)[1..] == Results(d, o, no + 1, fs[1..]);
    }
  }

  lemma {:induction false} AllCompleted(fs: seq<seq<byte>>)
    ensures Completed(fs, |Concat(fs)|) == |fs|
  {
    if fs != [] {
      AllCompleted(fs[1..]);
    }
  }

  lemma {:induction false} SyncedAtEnd(base: seq<byte>, mem: seq<byte>, idx: nat)
    requires Synced(base, mem, idx, [])
    ensures mem == base && idx == 0
  {
  }

  /** Both readers, on the whole stream: the same results in the same order and the same buffer in the end,
      unless the parser of some frame throws. */
  lemma {:induction false} ReadersAgree(d: Der, o: nat -> Beyond, no: nat, mem: seq<byte>, fs: seq<seq<byte>>,
    cs: seq<seq<byte>>)
    requires |mem| == MAX_MSG_SIZE && AreFrames(fs)
    requires ValidChunks(d, o, no, mem, 0, cs) && Concat(cs) == Concat(fs)
    requires forall k :: 0 <= k < |fs| ==> !Stuck(d, o(no + k), fs[k])
    ensures var r := Parts(d, o, no, mem, 0, cs);
            var b := Blocking(d, o, no, mem, Concat(fs), |fs|);
            AsReceived(r.results) == b.2 && r.mem == b.0 && r.idx == 0 && b.1 == []
  {
    hide Decode, Deliver, Blocking, Stuck, Synced, Overlay, Parts, ValidChunks, Results;
    assert Concat(fs)[0..] == Concat(fs) && Concat(fs) + [] == Concat(fs);
    SyncedAfresh(mem, fs);
    ChunkingIndependence(d, o, no, mem, mem, 0, fs, cs);
    AllCompleted(fs);
    assert fs[..|fs|] == fs && fs[|fs|..] == [];
    BlockingReadsFrames(d, o, no, mem, fs, []);
    SyncedAtEnd(MemAfter(mem, fs), Parts(d, o, no, mem, 0, cs).mem, Parts(d, o, no, mem, 0, cs).idx);
  }

  // ----- Sent messages arrive -----

  lemma {:induction false} SentIsFrame(d: Der, w: Beyond, m: Message)
    requires d.Lawful() && m.Valid() && |Encode(d, m)| + HEADER <= MAX_MSG_SIZE
    ensures IsFrame(FrameOf(d, m))
    ensures Decode(d, w, FrameOf(d, m)[HEADER..]).Got? && Decode(d, w, FrameOf(d, m)[HEADER..]).value == Normal(m)
  {
    hide Decode, Encode, Normal;
    var e := Encode(d, m);
    Be16RoundTrip(|e| + HEADER);
    assert FrameOf(d, m)[..HEADER] == Be16(|e| + HEADER);
    assert FrameOf(d, m)[HEADER..] == e;
    assert Fits(d, m);
    RoundTrip(d, w, m);
  }

  ghost function FramesOf(d: Der, ms: seq<Message>): (fs: seq<seq<byte>>)
    requires forall k :: 0 <= k < |ms| ==> Sendable(d, ms[k])
    ensures |fs| == |ms|
  {
    if ms == [] then [] else assert Sendable(d, ms[0]); [FrameOf(d, ms[0])] + FramesOf(d, ms[1..])
  }

  lemma {:induction false} SentAreFrames(d: Der, o: nat -> Beyond, no: nat, ms: seq<Message>)
    requires d.Lawful() && forall k :: 0 <= k < |ms| ==> Sendable(d, ms[k])
    ensures AreFrames(FramesOf(d, ms))
    ensures forall k :: 0 <= k < |ms| ==>
              Results(d, o, no, FramesOf(d, ms))[k].Got? && Results(d, o, no, FramesOf(d, ms))[k].value == Normal(ms[k])
    decreases |ms|
  {
    hide Decode, FrameOf, Normal;
    if ms != [] {
      assert Sendable(d, ms[0]);
      SentIsFrame(d, o(no), ms[0]);
      SentAreFrames(d, o, no + 1, ms[1..]);
      assert FramesOf(d, ms)[1..] == FramesOf(d, ms[1..]);
      var rs := Results(d, o, no, FramesOf(d, ms));
      assert rs == [rs[0]] + Results(d, o, no + 1, FramesOf(d, ms[1..]));
      forall k | 0 <= k < |ms|
        ensures rs[k].Got? && rs[k].value == Normal(ms[k])
      {
        if k > 0 {
          assert rs[k] == Results(d, o, no + 1, FramesOf(d, ms[1..]))[k - 1];
        }
      }
    }
  }

  /** Messages sent one after the other arrive in order, however the stream is cut up. */
  lemma {:induction false} SentMessagesArrive(d: Der, o: nat -> Beyond, no: nat, mem: seq<byte>, ms: seq<Message>,
    cs: seq<seq<byte>>)
    requires |mem| == MAX_MSG_SIZE && d.Lawful() && forall k :: 0 <= k < |ms| ==> Sendable(d, ms[k])
    requires ValidChunks(d, o, no, mem, 0, cs) && Concat(cs) == Concat(FramesOf(d, ms))
    ensures var rs := Parts(d, o, no, mem, 0, cs).results;
            |rs| == |ms| && forall k :: 0 <= k < |ms| ==> rs[k].Got? && rs[k].value == Normal(ms[k])
  {
    hide Decode, Deliver, FrameOf, Normal, Synced, Overlay, Parts, ValidChunks, FramesOf;
    var fs := FramesOf(d, ms);
    SentAreFrames(d, o, no, ms);
    assert Concat(fs)[0..] == Concat(fs);
    SyncedAfresh(mem, fs);
    ChunksInStep(d, o, no, mem, mem, 0, fs, cs);
    AllCompleted(fs);
    assert fs[..|fs|] == fs;
  }
}
