// Bytes, network byte order, NUL-terminated strings.

module Bytes {
  type byte = b: int | 0 <= b < 256
  type uint16 = n: int | 0 <= n < 0x1_0000
  type uint32 = n: int | 0 <= n < 0x1_0000_0000

  datatype Option<T> = None | Some(value: T)

  function Be16(n: uint16): (s: seq<byte>)
    ensures |s| == 2
  {
    [n / 0x100, n % 0x100]
  }

  function OfBe16(s: seq<byte>): uint16
    requires |s| == 2
  {
    (s[0] as int) * 0x100 + s[1]
  }

  function Be32(n: uint32): (s: seq<byte>)
    ensures |s| == 4
  {
    Be16(n / 0x1_0000) + Be16(n % 0x1_0000)
  }

  function OfBe32(s: seq<byte>): uint32
    requires |s| == 4
  {
    (OfBe16(s[..2]) as int) * 0x1_0000 + OfBe16(s[2..])
  }

  lemma {:induction false} Be16RoundTrip(n: uint16)
    ensures OfBe16(Be16(n)) == n
  {
  }

  lemma {:induction false} Be32RoundTrip(n: uint32)
    ensures OfBe32(Be32(n)) == n
  {
    assert Be32(n)[..2] == Be16(n / 0x1_0000) && Be32(n)[2..] == Be16(n % 0x1_0000);
  }

  function Zeros(n: nat): (s: seq<byte>)
    ensures |s| == n && forall k :: 0 <= k < n ==> s[k] == 0
  {
    seq(n, k => 0)
  }

  /** The part of a string that C's string functions see: everything before the first NUL. */
  function CPrefix(s: seq<byte>): (p: seq<byte>)
    ensures p <= s && 0 !in p
    ensures p == s || s[|p|] == 0
  {
    if s == [] || s[0] == 0 then [] else [s[0]] + CPrefix(s[1..])
  }

  /** What is before the first NUL does not depend on what follows it. */
  lemma {:induction false} CPrefixUnique(s: seq<byte>, p: seq<byte>)
    requires p <= s && 0 !in p && (p == s || s[|p|] == 0)
    ensures CPrefix(s) == p
  {
    if s != [] && s[0] != 0 {
      assert p != [] && p[0] == s[0];
      CPrefixUnique(s[1..], p[1..]);
    }
  }

  function Min(a: int, b: int): int {
    if a < b then a else b
  }
}
