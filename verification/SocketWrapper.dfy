// Length-prefixed frames over a byte stream: the sender, the blocking reader and the incremental reader.

module SocketWrapper {
  import opened Bytes
  import opened BufferIO
  import opened Messages
  import MessageIO

  /** A connected stream socket: what the peer has sent and this side has not yet read, and what this side sent. */
  class Socket {
    var incoming: seq<byte>
    var outgoing: seq<byte>

    constructor (incoming: seq<byte>)
      ensures this.incoming == incoming && this.outgoing == []
    {
      this.incoming := incoming;
      this.outgoing := [];
    }

    /** read: some of what is there, at least one byte unless the stream has ended or nothing is asked for. */
    method ReadSome(want: nat) returns (s: seq<byte>)
      modifies this`incoming
      ensures old(incoming) == s + incoming && |s| <= want
      ensures s == [] <==> old(incoming) == [] || want == 0
    {
      if incoming == [] || want == 0 {
        return [];
      }
      var n :| 1 <= n <= want && n <= |incoming|;
      s := incoming[..n];
      incoming := incoming[n..];
    }

    /** recv with MSG_WAITALL: as much as is asked for unless the stream ends before. */
    method ReadAll(want: nat) returns (s: seq<byte>)
      modifies this`incoming
      ensures old(incoming) == s + incoming && |s| == Min(want, |old(incoming)|)
    {
      var n := Min(want, |incoming|);
      s := incoming[..n];
      incoming := incoming[n..];
    }

    /** send: a prefix of the bytes is taken over. */
    method Send(s: seq<byte>) returns (n: nat)
      modifies this`outgoing
      ensures n <= |s| && outgoing == old(outgoing) + s[..n]
    {
      n :| 0 <= n <= |s|;
      outgoing := outgoing + s[..n];
    }
  }

  /** What one call of a reader ends with: no message yet, a complete frame with what its reader made of it,
      the end of the stream, or a length field above the maximum. */
  datatype Received = Nothing | Frame(result: Read<Message>) | ConnectionLost | TooBig

  function Overlay(mem: seq<byte>, at: nat, s: seq<byte>): (r: seq<byte>)
    requires at + |s| <= |mem|
    ensures |r| == |mem|
    ensures r[..at + |s|] == mem[..at] + s
  {
    mem[..at] + s + mem[at + |s|..]
  }

  const HEADER := 2

  /** How many bytes the incremental reader asks for. */
  function Want(mem: seq<byte>, idx: nat): int
    requires |mem| == MAX_MSG_SIZE
  {
    if idx < HEADER then HEADER - idx else OfBe16(mem[..HEADER]) - idx
  }

  /** The reader may be called: a length field that is complete is in range and not passed. */
  predicate Ready(mem: seq<byte>, idx: nat) {
    |mem| == MAX_MSG_SIZE && (idx < HEADER || idx <= OfBe16(mem[..HEADER]) <= MAX_MSG_SIZE)
  }

  datatype Part = Part(mem: seq<byte>, idx: nat, received: Received)

  /** The incremental reader as a function of its buffer and the bytes that the socket gave it; `w` is what lies
      beyond the message, where its parser goes on there. */
  function Deliver(d: Der, w: Beyond, mem: seq<byte>, idx: nat, chunk: seq<byte>): (p: Part)
    requires Ready(mem, idx) && |chunk| <= Want(mem, idx)
    ensures |p.mem| == MAX_MSG_SIZE
  {
    var mem' := Overlay(mem, idx, chunk);
    var idx' := idx + |chunk|;
    var len := OfBe16(mem'[..HEADER]);
    if chunk == [] then Part(mem, idx, ConnectionLost)
    else if idx' < HEADER then Part(mem', idx', Nothing)
    else if len > MAX_MSG_SIZE then Part(mem', idx', TooBig)
    else if idx' != len then Part(mem', idx', Nothing)
    else
      var r := Decode(d, w, mem'[HEADER..len]);
      Part(mem', if r.Thrown? then idx' else 0, Frame(r)) // an exception leaves the index where it is
  }

  /** A message whose frame has at most the maximum size. */
  predicate Sendable(d: Der, m: Message) {
    m.Valid() && |Encode(d, m)| + HEADER <= MAX_MSG_SIZE
  }

  /** The bytes of a message as sent: their number, itself included, and the message. */
  function FrameOf(d: Der, m: Message): (f: seq<byte>)
    requires m.Valid() && |Encode(d, m)| + HEADER <= MAX_MSG_SIZE
    ensures |f| == |Encode(d, m)| + HEADER
  {
    Be16(|Encode(d, m)| + HEADER) + Encode(d, m)
  }

  class SocketWrapper {
    const socket: Socket
    const der: Der
    const bufferIn: array<byte>
    const bufferOut: array<byte>
    var bufIdx: nat

    ghost predicate Valid()
      reads this
    {
      bufferIn.Length == MAX_MSG_SIZE && bufferOut.Length == MAX_MSG_SIZE && bufferIn != bufferOut
    }

    constructor (socket: Socket, der: Der)
      ensures Valid() && fresh(bufferIn) && fresh(bufferOut)
      ensures this.socket == socket && this.der == der && bufIdx == 0
    {
      this.socket := socket;
      this.der := der;
      bufferIn := new byte[MAX_MSG_SIZE];
      bufferOut := new byte[MAX_MSG_SIZE];
      bufIdx := 0;
    }

    method Store(at: nat, s: seq<byte>)
      requires Valid() && at + |s| <= MAX_MSG_SIZE
      modifies bufferIn
      ensures bufferIn[..] == Overlay(old(bufferIn[..]), at, s)
    {
      var n := WriteBuf(bufferIn, at, |s|, s);
    }

    method ReadPartMsg(w: Beyond) returns (m: Received, ghost chunk: seq<byte>)
      requires Valid() && Ready(bufferIn[..], bufIdx)
      modifies this`bufIdx, bufferIn, socket`incoming
      ensures old(socket.incoming) == chunk + socket.incoming && |chunk| <= Want(old(bufferIn[..]), old(bufIdx))
      ensures chunk == [] <==> old(socket.incoming) == [] || Want(old(bufferIn[..]), old(bufIdx)) == 0
      ensures Part(bufferIn[..], bufIdx, m) == Deliver(der, w, old(bufferIn[..]), old(bufIdx), chunk)
    {
      var want;
      if bufIdx < HEADER {
        want := HEADER - bufIdx;
      } else {
        var len := OfBe16(bufferIn[..HEADER]);
        want := len - bufIdx;
      }
      assert bufferIn[..HEADER] == bufferIn[..][..HEADER];
      var s := socket.ReadSome(want);
      chunk := s;
      if |s| == 0 {
        return ConnectionLost, chunk;
      }
      Store(bufIdx, s);
      bufIdx := bufIdx + |s|;
      if bufIdx < HEADER {
        return Nothing, chunk;
      }
      assert bufferIn[..HEADER] == bufferIn[..][..HEADER];
      var len := OfBe16(bufferIn[..HEADER]);
      if len > MAX_MSG_SIZE {
        return TooBig, chunk;
      }
      if bufIdx != len {
        return Nothing, chunk;
      }
      var r := MessageIO.ReadMessage(der, w, bufferIn, HEADER, len - HEADER);
      assert bufferIn[HEADER..HEADER + (len - HEADER)] == bufferIn[..][HEADER..len];
      if !r.Thrown? {
        bufIdx := 0;
      }
      return Frame(r), chunk;
    }

    /** Blocks until a whole frame is there. The length field is 2 at least. */
    method ReceiveAnyMsg(w: Beyond) returns (m: Received)
      requires Valid() && (|socket.incoming| >= HEADER ==> OfBe16(socket.incoming[..HEADER]) >= HEADER)
      modifies bufferIn, socket`incoming
      ensures (bufferIn[..], socket.incoming, m) == Receive(der, w, old(bufferIn[..]), old(socket.incoming))
    {
      var s := socket.ReadAll(HEADER);
      Store(0, s);
      if |s| == 0 {
        assert bufferIn[..] == old(bufferIn[..]);
        return ConnectionLost;
      }
      if |s| != HEADER {
        assert old(socket.incoming) == s;
        return Nothing;
      }
      assert bufferIn[..HEADER] == bufferIn[..][..HEADER] == s;
      assert s == old(socket.incoming)[..HEADER];
      var len := OfBe16(bufferIn[..HEADER]);
      if len > MAX_MSG_SIZE {
        return TooBig;
      }
      var t := socket.ReadAll(len - HEADER);
      Store(HEADER, t);
      assert old(socket.incoming)[..HEADER + |t|] == s + t;
      assert bufferIn[..] == Overlay(old(bufferIn[..]), 0, s + t);
      assert old(socket.incoming) == s + t + socket.incoming;
      if HEADER + |t| != len {
        assert old(socket.incoming)[HEADER + |t|..] == socket.incoming;
        return Nothing;
      }
      var r := MessageIO.ReadMessage(der, w, bufferIn, HEADER, len - HEADER);
      assert bufferIn[HEADER..HEADER + (len - HEADER)] == (s + t)[HEADER..len];
      assert old(socket.incoming)[len..] == socket.incoming;
      return Frame(r);
    }

    /** Sends one frame; 0 when all its bytes were taken over. */
    method SendMsg(msg: Message) returns (ret: int)
      requires Valid() && msg.Valid() && |Encode(der, msg)| + HEADER <= MAX_MSG_SIZE
      modifies bufferOut, socket`outgoing
      ensures ret == 0 ==> socket.outgoing == old(socket.outgoing) + FrameOf(der, msg)
      ensures ret != 0 ==>
                exists n :: 0 <= n < |FrameOf(der, msg)| &&
                    socket.outgoing == old(socket.outgoing) + FrameOf(der, msg)[..n]
    {
      hide Encode, Wrote, Be16;
      ghost var b0 := bufferOut[..];
      var msglen := MessageIO.Write(der, msg, bufferOut, HEADER);
      ghost var b1 := bufferOut[..];
      var pktlen := msglen + HEADER;
      var n := WriteUInt16(bufferOut, 0, HEADER, pktlen);
      HeaderThenBody(b0, b1, bufferOut[..], Be16(pktlen), Encode(der, msg));
      var packet := bufferOut[..pktlen];
      assert packet == bufferOut[..][..pktlen] == FrameOf(der, msg);
      var len := socket.Send(packet);
      assert packet[..|packet|] == packet;
      return if len != pktlen then 1 else 0;
    }
  }

  lemma {:induction false} HeaderThenBody(b0: seq<byte>, b1: seq<byte>, b2: seq<byte>, head: seq<byte>, body: seq<byte>)
    requires Wrote(b0, b1, |head|, body) && Wrote(b1, b2, 0, head)
    ensures |head| + |body| <= |b2| && b2[..|head| + |body|] == head + body
  {
    assert b1[|head|..|head| + |body|] == body;
    assert b2 == head + b1[|head|..];
  }

  /** The blocking reader as a function of its buffer and of what the stream still holds. */
  function Receive(d: Der, w: Beyond, mem: seq<byte>, stream: seq<byte>): (seq<byte>, seq<byte>, Received)
    requires |mem| == MAX_MSG_SIZE && (|stream| >= HEADER ==> OfBe16(stream[..HEADER]) >= HEADER)
  {
    if |stream| == 0 then (mem, stream, ConnectionLost)
    else if |stream| < HEADER then (Overlay(mem, 0, stream), [], Nothing)
    else
      var len := OfBe16(stream[..HEADER]);
      if len > MAX_MSG_SIZE then (Overlay(mem, 0, stream[..HEADER]), stream[HEADER..], TooBig)
      else
        var n := Min(len, |stream|);
        (Overlay(mem, 0, stream[..n]), stream[n..],
         if n != len then Nothing else Frame(Decode(d, w, stream[HEADER..len])))
  }
}
