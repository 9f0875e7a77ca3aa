// The cryptographic library as functions of which only the functional laws are known,
// and the per-record initialisation vector.

module Crypto {
  import opened Bytes
  import opened Messages

  const IV_SIZE := 12
  const KEY_SIZE := 16
  const MAX_KEY_BYTES := 256
  const MAX_SIGNATURE := 4096

  datatype Secret = Secret(id: nat)

  datatype SignKey = SignKey(id: nat)

  datatype VerifyKey = VerifyKey(id: nat)

  datatype Crypto = Crypto(
    der: Der,
    // key, iv, aad, plaintext -> ciphertext, tag
    seal: (seq<byte>, seq<byte>, seq<byte>, seq<byte>) -> (seq<byte>, seq<byte>),
    open: (seq<byte>, seq<byte>, seq<byte>, seq<byte>, seq<byte>) -> Option<seq<byte>>, // key, iv, aad, ciphertext, tag
    hkdf: (seq<byte>, seq<byte>, nat) -> seq<byte>, // secret, info, length
    pub: Secret -> PublicKey,
    dh: (Secret, PublicKey) -> Option<seq<byte>>, // none: the library throws
    sign: (seq<byte>, SignKey) -> seq<byte>,
    verify: (seq<byte>, seq<byte>, VerifyKey) -> bool,
    verifyKey: SignKey -> VerifyKey,
    certKey: Cert -> VerifyKey,
    certName: Cert -> seq<byte>,
    trusted: Cert -> bool)
  {
    ghost predicate CipherLaws() {
      && (forall k, iv, aad, p :: open(k, iv, aad, seal(k, iv, aad, p).0, seal(k, iv, aad, p).1) == Some(p))
      && (forall k, iv, aad, p :: |seal(k, iv, aad, p).0| == |p| && |seal(k, iv, aad, p).1| == TAG_SIZE)
      && (forall k, iv, aad, ct, tag {:trigger open(k, iv, aad, ct, tag)} ::
           open(k, iv, aad, ct, tag).Some? ==> |open(k, iv, aad, ct, tag).value| == |ct|)
    }

    ghost predicate KeyLaws() {
      && (forall a, b :: dh(a, pub(b)).Some? && dh(a, pub(b)) == dh(b, pub(a)))
      && (forall s, info, n :: |hkdf(s, info, n)| == n)
      && (forall a :: 0 < |der.keyBytes(pub(a))| <= MAX_KEY_BYTES)
    }

    ghost predicate SignLaws() {
      && (forall m, k :: verify(m, sign(m, k), verifyKey(k)))
      && (forall m, k :: 0 < |sign(m, k)| <= MAX_SIGNATURE)
    }

    ghost predicate Lawful() {
      der.Lawful() && CipherLaws() && KeyLaws() && SignLaws()
    }
  }

  function PlainDer(): Der {
    Der((k: PublicKey) => Zeros(k.id + 1), s => if s == [] then None else Some(PublicKey(|s| - 1)),
        (k: Cert) => Zeros(k.id), s => Some(Cert(|s|)))
  }

  /** A library without any secrecy. */
  function Plain(): Crypto {
    Crypto(PlainDer(),
      (k, iv, aad, p) => (p, Zeros(TAG_SIZE)), (k, iv, aad, ct, tag) => Some(ct), (s, info, n) => Zeros(n),
      s => PublicKey(0), (a, b) => Some([]), (m, k) => [0], (m, ds, k) => true, (k: SignKey) => VerifyKey(k.id),
      (x: Cert) => VerifyKey(x.id), x => [], x => true)
  }

  lemma {:induction false} PlainDerLawful()
    ensures PlainDer().Lawful()
  {
  }

  /** The laws can all hold together. */
  lemma {:induction false} LawsAreConsistent()
    ensures exists c: Crypto :: c.Lawful()
  {
    var c := Plain();
    PlainDerLawful();
    assert c.CipherLaws() && c.SignLaws();
    assert c.KeyLaws() by {
      assert forall a :: |c.der.keyBytes(c.pub(a))| == 1;
    }
    assert c.Lawful();
  }

  // ----- Host byte order -----

  /** The order in which this machine stores the bytes of an integer. */
  datatype Host = LittleEndian | BigEndian

  function LowFirst(n: nat, k: nat): (s: seq<byte>)
    ensures |s| == k
  {
    if k == 0 then [] else [n % 0x100] + LowFirst(n / 0x100, k - 1)
  }

  function Reverse(s: seq<byte>): (r: seq<byte>)
    ensures |r| == |s| && forall k :: 0 <= k < |s| ==> r[k] == s[|s| - 1 - k]
  {
    seq(|s|, k requires 0 <= k < |s| => s[|s| - 1 - k])
  }

  function HostBytes(host: Host, n: nat, k: nat): (s: seq<byte>)
    ensures |s| == k
  {
    if host.LittleEndian? then LowFirst(n, k) else Reverse(LowFirst(n, k))
  }

  function Pow256(k: nat): nat {
    if k == 0 then 1 else 0x100 * Pow256(k - 1)
  }

  lemma {:induction false} LowFirstInjective(n: nat, m: nat, k: nat)
    requires n < Pow256(k) && m < Pow256(k) && LowFirst(n, k) == LowFirst(m, k)
    ensures n == m
  {
    if k > 0 {
      var a, b := LowFirst(n, k), LowFirst(m, k);
      assert a[0] == b[0] && a[1..] == b[1..];
      assert a[1..] == LowFirst(n / 0x100, k - 1) && b[1..] == LowFirst(m / 0x100, k - 1);
      LowFirstInjective(n / 0x100, m / 0x100, k - 1);
    }
  }

  lemma {:induction false} HostBytesInjective(host: Host, n: nat, m: nat, k: nat)
    requires n < Pow256(k) && m < Pow256(k) && HostBytes(host, n, k) == HostBytes(host, m, k)
    ensures n == m
  {
    if host.BigEndian? {
      var a, b := LowFirst(n, k), LowFirst(m, k);
      forall j | 0 <= j < k
        ensures a[j] == b[j]
      {
        assert Reverse(a)[k - 1 - j] == Reverse(b)[k - 1 - j];
      }
      assert a == b;
    }
    LowFirstInjective(n, m, k);
  }

  // ----- The initialisation vector of a record -----

  const SEQ_BYTES := 8
  const SEQ_MOD: nat := 0x1_0000_0000_0000_0000

  function Pow2(k: nat): (p: nat)
    ensures p > 0
  {
    if k == 0 then 1 else 2 * Pow2(k - 1)
  }

  /** Exclusive or of the lowest `k` bits. */
  function XorBits(a: nat, b: nat, k: nat): (r: nat)
    ensures r < Pow2(k)
  {
    if k == 0 then 0 else 2 * XorBits(a / 2, b / 2, k - 1) + (if a % 2 == b % 2 then 0 else 1)
  }

  lemma {:induction false} XorBitsTwice(a: nat, b: nat, k: nat)
    requires b < Pow2(k)
    ensures XorBits(a, XorBits(a, b, k), k) == b
  {
    if k > 0 {
      var r := XorBits(a, b, k);
      assert r / 2 == XorBits(a / 2, b / 2, k - 1);
      XorBitsTwice(a / 2, b / 2, k - 1);
    }
  }

  lemma {:induction false} ByteBits()
    ensures Pow2(8) == 0x100
  {
    assert Pow2(4) == 16;
  }

  function Xor(a: byte, b: byte): byte {
    ByteBits();
    XorBits(a, b, 8)
  }

  lemma {:induction false} XorTwice(a: byte, b: byte)
    ensures Xor(a, Xor(a, b)) == b
  {
    ByteBits();
    XorBitsTwice(a, b, 8);
  }

  /** The sequence number is mixed into the first eight bytes only. */
  function RecordIv(host: Host, seqNum: nat, ivStatic: seq<byte>): (iv: seq<byte>)
    requires |ivStatic| == IV_SIZE
    ensures |iv| == IV_SIZE
  {
    seq(IV_SIZE, i requires 0 <= i < IV_SIZE =>
      if i < SEQ_BYTES then Xor(ivStatic[i], HostBytes(host, seqNum, SEQ_BYTES)[i]) else ivStatic[i])
  }

  // ----- Bits and bytes of what was computed -----

  function Bit(n: nat, k: nat): nat {
    if k == 0 then n % 2 else Bit(n / 2, k - 1)
  }

  function ByteOf(n: nat, k: nat): (r: nat)
    ensures r < 256
  {
    if k == 0 then n % 256 else ByteOf(n / 256, k - 1)
  }

  lemma {:induction false} XorBitsBit(a: nat, b: nat, n: nat, k: nat)
    requires k < n
    ensures Bit(XorBits(a, b, n), k) == if Bit(a, k) == Bit(b, k) then 0 else 1
  {
    var r := XorBits(a, b, n);
    assert r / 2 == XorBits(a / 2, b / 2, n - 1);
    if k > 0 {
      XorBitsBit(a / 2, b / 2, n - 1, k - 1);
    }
  }

  /** Xor is bit by bit. */
  lemma {:induction false} XorBit(a: byte, b: byte, k: nat)
    requires k < 8
    ensures Bit(Xor(a, b), k) == if Bit(a, k) == Bit(b, k) then 0 else 1
  {
    XorBitsBit(a, b, 8, k);
  }

  lemma {:induction false} LowFirstByte(n: nat, k: nat, i: nat)
    requires i < k
    ensures LowFirst(n, k)[i] == ByteOf(n, i)
  {
    if i > 0 {
      LowFirstByte(n / 0x100, k - 1, i - 1);
    }
  }

  /** Which byte of an integer stands where in memory. */
  lemma {:induction false} HostByte(host: Host, n: nat, k: nat, i: nat)
    requires i < k
    ensures HostBytes(host, n, k)[i] == ByteOf(n, if host.LittleEndian? then i else k - 1 - i)
  {
    hide LowFirst, ByteOf, Reverse;
    if host.LittleEndian? {
      LowFirstByte(n, k, i);
    } else {
      LowFirstByte(n, k, k - 1 - i);
    }
  }

  /** Each byte of the vector of a record: the first eight are the static ones xor the bytes of the sequence number in
      the order of the host, the last four the static ones. */
  lemma {:induction false} IvByte(host: Host, n: nat, ivStatic: seq<byte>, i: nat)
    requires |ivStatic| == 12 && i < 12
    ensures RecordIv(host, n, ivStatic)[i] ==
            if i < 8 then Xor(ivStatic[i], ByteOf(n, if host.LittleEndian? then i else 7 - i)) else ivStatic[i]
  {
    hide HostBytes, ByteOf, Xor;
    if i < 8 {
      HostByte(host, n, 8, i);
    }
  }

  lemma {:induction false} SeqModIsPow()
    ensures Pow256(SEQ_BYTES) == SEQ_MOD
  {
    assert Pow256(1) == 0x100;
    assert Pow256(2) == 0x1_0000;
    assert Pow256(4) == 0x1_0000_0000;
    assert Pow256(6) == 0x1_0000_0000_0000;
  }

  /** For a fixed static part the vector determines the sequence number. */
  lemma {:induction false} RecordIvInjective(host: Host, n: nat, m: nat, ivStatic: seq<byte>)
    requires |ivStatic| == IV_SIZE && n < SEQ_MOD && m < SEQ_MOD
    requires RecordIv(host, n, ivStatic) == RecordIv(host, m, ivStatic)
    ensures n == m
  {
    var a, b := HostBytes(host, n, SEQ_BYTES), HostBytes(host, m, SEQ_BYTES);
    forall i | 0 <= i < SEQ_BYTES
      ensures a[i] == b[i]
    {
      assert RecordIv(host, n, ivStatic)[i] == RecordIv(host, m, ivStatic)[i];
      XorTwice(ivStatic[i], a[i]);
      XorTwice(ivStatic[i], b[i]);
    }
    assert a == b;
    SeqModIsPow();
    HostBytesInjective(host, n, m, SEQ_BYTES);
  }

  /** Machines of different byte order derive different vectors from the second record on. */
  lemma {:induction false} ByteOrderMatters(ivStatic: seq<byte>)
    requires |ivStatic| == IV_SIZE
    ensures RecordIv(LittleEndian, 0, ivStatic) == RecordIv(BigEndian, 0, ivStatic)
    ensures RecordIv(LittleEndian, 1, ivStatic) != RecordIv(BigEndian, 1, ivStatic)
  {
    LowZeros(SEQ_BYTES);
    LowZeros(SEQ_BYTES - 1);
    var one := LowFirst(1, SEQ_BYTES);
    assert one == [1] + LowFirst(0, SEQ_BYTES - 1);
    var s := ivStatic[0];
    assert Reverse(one)[0] == one[7] == 0;
    XorTwice(s, 1);
    XorTwice(s, 0);
    assert RecordIv(LittleEndian, 1, ivStatic)[0] != RecordIv(BigEndian, 1, ivStatic)[0];
    assert Reverse(LowFirst(0, SEQ_BYTES)) == LowFirst(0, SEQ_BYTES);
  }

  lemma {:induction false} LowZeros(k: nat)
    ensures LowFirst(0, k) == seq(k, _ => 0)
  {
    if k > 0 {
      LowZeros(k - 1);
    }
  }

  /** Fills `iv` from the static part, byte by byte. */
  method UpdateIV(host: Host, seqNum: nat, ivStatic: array<byte>, iv: array<byte>)
    requires ivStatic.Length == IV_SIZE && iv.Length == IV_SIZE && iv != ivStatic
    modifies iv
    ensures iv[..] == RecordIv(host, seqNum, ivStatic[..])
  {
    var seqBytes := HostBytes(host, seqNum, SEQ_BYTES);
    for i := 0 to IV_SIZE
      invariant forall k :: 0 <= k < i ==> iv[k] == RecordIv(host, seqNum, ivStatic[..])[k]
    {
      if i < SEQ_BYTES {
        iv[i] := Xor(ivStatic[i], seqBytes[i]);
      } else {
        iv[i] := ivStatic[i];
      }
    }
  }
}
