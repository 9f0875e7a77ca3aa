// Bounded writing into and reading from byte buffers.

module BufferIO {
  import opened Bytes

  const MAX_USERNAME_LENGTH := 16

  // ----- Writing -----

  /** `s` now stands at position `at`, and nothing else changed. */
  ghost predicate Wrote(before: seq<byte>, after: seq<byte>, at: nat, s: seq<byte>) {
    at + |s| <= |before| && after == before[..at] + s + before[at + |s|..]
  }

  lemma {:induction false} WroteBoth(a: seq<byte>, b: seq<byte>, c: seq<byte>, at: nat, s: seq<byte>, t: seq<byte>)
    requires Wrote(a, b, at, s) && Wrote(b, c, at + |s|, t)
    ensures Wrote(a, c, at, s + t)
  {
    assert b[..at + |s|] == a[..at] + s;
    assert b[at + |s| + |t|..] == a[at + |s| + |t|..];
  }

  lemma {:induction false} WroteExactly(before: seq<byte>, after: seq<byte>, at: nat, s: seq<byte>)
    requires at + |s| <= |before| == |after|
    requires forall j :: 0 <= j < |s| ==> after[at + j] == s[j]
    requires forall j :: 0 <= j < |before| && !(at <= j < at + |s|) ==> after[j] == before[j]
    ensures Wrote(before, after, at, s)
  {
    forall j | at <= j < at + |s|
      ensures after[j] == s[j - at]
    {
      assert after[at + (j - at)] == s[j - at];
    }
  }

  /** Copies the bytes if they fit into `room`; every writer of a fixed-size field does this with its own bytes. */
  method WriteBuf(buf: array<byte>, at: nat, room: int, val: seq<byte>) returns (ret: int)
    requires |val| <= room ==> at + |val| <= buf.Length
    modifies buf
    ensures ret == if |val| <= room then |val| else -1
    ensures ret >= 0 ==> Wrote(old(buf[..]), buf[..], at, val)
    ensures ret < 0 ==> buf[..] == old(buf[..])
  {
    if room < |val| {
      return -1;
    }
    var k := 0;
    while k < |val|
      invariant 0 <= k <= |val|
      invariant forall j :: 0 <= j < k ==> buf[at + j] == val[j]
      invariant forall j :: 0 <= j < buf.Length && !(at <= j < at + k) ==> buf[j] == old(buf[j])
    {
      buf[at + k] := val[k];
      k := k + 1;
    }
    WroteExactly(old(buf[..]), buf[..], at, val);
    return |val|;
  }

  method WriteUInt8(buf: array<byte>, at: nat, room: int, val: byte) returns (ret: int)
    requires 1 <= room ==> at < buf.Length
    modifies buf
    ensures ret == if 1 <= room then 1 else -1
    ensures ret >= 0 ==> Wrote(old(buf[..]), buf[..], at, [val])
    ensures ret < 0 ==> buf[..] == old(buf[..])
  {
    if room < 1 {
      return -1;
    }
    buf[at] := val;
    return 1;
  }

  method WriteBool(buf: array<byte>, at: nat, room: int, val: bool) returns (ret: int)
    requires 1 <= room ==> at < buf.Length
    modifies buf
    ensures ret == if 1 <= room then 1 else -1
    ensures ret >= 0 ==> Wrote(old(buf[..]), buf[..], at, [if val then 1 else 0])
    ensures ret < 0 ==> buf[..] == old(buf[..])
  {
    if room < 1 {
      return -1;
    }
    buf[at] := if val then 1 else 0;
    return 1;
  }

  method WriteUInt16(buf: array<byte>, at: nat, room: int, val: uint16) returns (ret: int)
    requires 2 <= room ==> at + 2 <= buf.Length
    modifies buf
    ensures ret == if 2 <= room then 2 else -1
    ensures ret >= 0 ==> Wrote(old(buf[..]), buf[..], at, Be16(val))
    ensures ret < 0 ==> buf[..] == old(buf[..])
  {
    if room < 2 {
      return -1;
    }
    buf[at], buf[at + 1] := val / 0x100, val % 0x100;
    return 2;
  }

  method WriteUInt32(buf: array<byte>, at: nat, room: int, val: uint32) returns (ret: int)
    requires 4 <= room ==> at + 4 <= buf.Length
    modifies buf
    ensures ret == if 4 <= room then 4 else -1
    ensures ret >= 0 ==> Wrote(old(buf[..]), buf[..], at, Be32(val))
    ensures ret < 0 ==> buf[..] == old(buf[..])
  {
    if room < 4 {
      return -1;
    }
    var s := Be32(val);
    buf[at], buf[at + 1], buf[at + 2], buf[at + 3] := s[0], s[1], s[2], s[3];
    return 4;
  }

  /** What a username field keeps of a string. */
  function Name(s: seq<byte>): (n: seq<byte>)
    ensures |n| <= MAX_USERNAME_LENGTH && n <= s && 0 !in n
  {
    var p := CPrefix(s);
    p[..Min(|p|, MAX_USERNAME_LENGTH)]
  }

  /** A username field: the name padded with NULs, at least one. */
  function NameField(s: seq<byte>): (f: seq<byte>)
    ensures |f| == MAX_USERNAME_LENGTH + 1
  {
    Name(s) + Zeros(MAX_USERNAME_LENGTH - |Name(s)| + 1)
  }

  method WriteUsername(buf: array<byte>, at: nat, room: int, s: seq<byte>) returns (ret: int)
    requires MAX_USERNAME_LENGTH + 1 <= room ==> at + MAX_USERNAME_LENGTH + 1 <= buf.Length
    modifies buf
    ensures ret == if MAX_USERNAME_LENGTH + 1 <= room then MAX_USERNAME_LENGTH + 1 else -1
    ensures ret >= 0 ==> Wrote(old(buf[..]), buf[..], at, NameField(s))
    ensures ret < 0 ==> buf[..] == old(buf[..])
  {
    if room < MAX_USERNAME_LENGTH + 1 {
      return -1;
    }
    var name := Name(s);
    var n := WriteBuf(buf, at, |name|, name);
    ghost var was := buf[..];
    var z := WriteBuf(buf, at + |name|, MAX_USERNAME_LENGTH - |name| + 1, Zeros(MAX_USERNAME_LENGTH - |name| + 1));
    WroteBoth(old(buf[..]), was, buf[..], at, name, Zeros(MAX_USERNAME_LENGTH - |name| + 1));
    return MAX_USERNAME_LENGTH + 1;
  }

  // ----- Reading -----

  /** What reading a field can do: a value and the next index, too few bytes, an error thrown by the
      cryptographic library, or a read past the message because the remaining length wrapped around. */
  datatype Read<+T> = Got(value: T, next: nat) | Malformed | Thrown | Overrun {
    predicate IsFailure() {
      !Got?
    }

    function PropagateFailure<U>(): Read<U>
      requires !Got?
    {
      match this
      case Malformed => Malformed
      case Thrown => Thrown
      case Overrun => Overrun
    }

    function Extract(): (T, nat)
      requires Got?
    {
      (value, next)
    }
  }

  /** A field of `n` bytes at index `i` of a message; beyond the end the unsigned remaining length is huge. */
  function ReadBytes(msg: seq<byte>, i: nat, n: nat): (r: Read<seq<byte>>)
    ensures r.Got? ==> |r.value| == n && r.next == i + n
  {
    if i + n <= |msg| then Got(msg[i..i + n], i + n)
    else if n == 0 then Got([], i)
    else if i <= |msg| then Malformed
    else Overrun
  }

  function ReadUInt8(msg: seq<byte>, i: nat): Read<byte> {
    var (s, next) :- ReadBytes(msg, i, 1);
    Got(s[0], next)
  }

  function ReadBool(msg: seq<byte>, i: nat): Read<bool> {
    var (s, next) :- ReadBytes(msg, i, 1);
    Got(s[0] != 0, next)
  }

  function ReadUInt16(msg: seq<byte>, i: nat): Read<uint16> {
    var (s, next) :- ReadBytes(msg, i, 2);
    Got(OfBe16(s), next)
  }

  function ReadUInt32(msg: seq<byte>, i: nat): Read<uint32> {
    var (s, next) :- ReadBytes(msg, i, 4);
    Got(OfBe32(s), next)
  }

  /** A name field never fails: its last byte is not looked at, and the index moves on by 17 whatever is left.
      At the end and beyond it the name comes from `past`, what memory holds there. */
  function ReadName(past: seq<byte>, msg: seq<byte>, i: nat): (seq<byte>, nat) {
    (if i < |msg| then Name(msg[i..|msg| - 1]) else Name(past), i + MAX_USERNAME_LENGTH + 1)
  }

  // ----- What was written is read back -----

  lemma {:induction false} BytesBack(pre: seq<byte>, s: seq<byte>, post: seq<byte>)
    ensures ReadBytes(pre + s + post, |pre|, |s|) == Got(s, |pre| + |s|)
  {
    assert (pre + s + post)[|pre|..|pre| + |s|] == s;
  }

  lemma {:induction false} UInt8Back(pre: seq<byte>, n: byte, post: seq<byte>)
    ensures ReadUInt8(pre + [n] + post, |pre|) == Got(n, |pre| + 1)
  {
    BytesBack(pre, [n], post);
  }

  lemma {:induction false} BoolBack(pre: seq<byte>, b: bool, post: seq<byte>)
    ensures ReadBool(pre + [if b then 1 else 0] + post, |pre|) == Got(b, |pre| + 1)
  {
    BytesBack(pre, [if b then 1 else 0], post);
  }

  lemma {:induction false} UInt16Back(pre: seq<byte>, n: uint16, post: seq<byte>)
    ensures ReadUInt16(pre + Be16(n) + post, |pre|) == Got(n, |pre| + 2)
  {
    BytesBack(pre, Be16(n), post);
    Be16RoundTrip(n);
  }

  lemma {:induction false} UInt32Back(pre: seq<byte>, n: uint32, post: seq<byte>)
    ensures ReadUInt32(pre + Be32(n) + post, |pre|) == Got(n, |pre| + 4)
  {
    BytesBack(pre, Be32(n), post);
    Be32RoundTrip(n);
  }

  /** A name field gives back the name, wherever it stands in the message. */
  lemma {:induction false} NameBack(past: seq<byte>, pre: seq<byte>, s: seq<byte>, post: seq<byte>)
    ensures ReadName(past, pre + NameField(s) + post, |pre|) == (Name(s), |pre| + MAX_USERNAME_LENGTH + 1)
  {
    hide CPrefix;
    var msg := pre + NameField(s) + post;
    var rest := msg[|pre|..|msg| - 1];
    var n := Name(s);
    forall k | 0 <= k < MAX_USERNAME_LENGTH
      ensures rest[k] == NameField(s)[k]
    {
      assert rest[k] == msg[|pre| + k];
    }
    assert rest[..|n|] == n;
    if |n| < MAX_USERNAME_LENGTH {
      assert rest[|n|] == 0;
      CPrefixUnique(rest, n);
      assert n[..|n|] == n;
    } else {
      LongName(rest, n);
    }
  }

  lemma {:induction false} LongName(rest: seq<byte>, n: seq<byte>)
    requires n <= rest && 0 !in n && |n| == MAX_USERNAME_LENGTH
    ensures Name(rest) == n
  {
    NoNulIsKept(rest, n);
  }

  lemma {:induction false} NoNulIsKept(s: seq<byte>, n: seq<byte>)
    requires n <= s && 0 !in n
    ensures n <= CPrefix(s)
  {
    if n != [] {
      NoNulIsKept(s[1..], n[1..]);
      assert CPrefix(s) == [s[0]] + CPrefix(s[1..]);
    }
  }
}
