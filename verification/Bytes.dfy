/** Bytes and the fixed-width integers of the image containers. */
module Bytes {
  type byte = b: int | 0 <= b < 256

  /** Big-endian 16-bit length (struct format ">H"). */
  function BE16(s: seq<byte>): (n: nat)
    requires |s| == 2
    ensures n < 0x1_0000
  {
    s[0] as int * 0x100 + s[1]
  }

  /** Big-endian 32-bit length (struct format ">I"). */
  function BE32(s: seq<byte>): (n: nat)
    requires |s| == 4
    ensures n < 0x1_0000_0000
  {
    BE16(s[..2]) * 0x1_0000 + BE16(s[2..])
  }

  /** Little-endian 32-bit length (struct format "<I"). */
  function LE32(s: seq<byte>): (n: nat)
    requires |s| == 4
    ensures n < 0x1_0000_0000
  {
    BE32([s[3], s[2], s[1], s[0]])
  }

  function ToBE16(n: nat): (s: seq<byte>)
    requires n < 0x1_0000
    ensures |s| == 2 && BE16(s) == n
  {
    [n / 0x100, n % 0x100]
  }

  function ToBE32(n: nat): (s: seq<byte>)
    requires n < 0x1_0000_0000
    ensures |s| == 4 && BE32(s) == n
  {
    var s := ToBE16(n / 0x1_0000) + ToBE16(n % 0x1_0000);
    assert s[..2] == ToBE16(n / 0x1_0000) && s[2..] == ToBE16(n % 0x1_0000);
    s
  }

  /** The readings, byte by byte. */
  lemma {:induction false} ByteOrder(a: byte, b: byte, c: byte, d: byte)
    ensures BE16([a, b]) == 256 * a + b
    ensures BE32([a, b, c, d]) == 16777216 * a + 65536 * b + 256 * c + d
    ensures LE32([a, b, c, d]) == a + 256 * b + 65536 * c + 16777216 * d
  {
    assert [a, b, c, d][..2] == [a, b] && [a, b, c, d][2..] == [c, d];
    assert [d, c, b, a][..2] == [d, c] && [d, c, b, a][2..] == [b, a];
  }

  /** Four bytes and the number they stand for, least significant byte first. */
  lemma {:induction false} FourBytes(n: nat)
    ensures n % 256 + 256 * (n / 256 % 256) + 65536 * (n / 65536 % 256) + 16777216 * (n / 16777216) == n
  {
    assert n / 65536 == n / 256 / 256 && n / 16777216 == n / 65536 / 256;
  }

  lemma {:induction false} FourBytesOf(a: byte, b: byte, c: byte, d: byte)
    ensures var n := a + 256 * b + 65536 * c + 16777216 * d;
            n % 256 == a && n / 256 % 256 == b && n / 65536 % 256 == c && n / 16777216 == d
  {
    var n := a + 256 * b + 65536 * c + 16777216 * d;
    assert n / 256 == b + 256 * c + 65536 * d;
    assert n / 65536 == c + 256 * d;
  }

  /** And the writings. */
  lemma {:induction false} BytesInOrder(n: nat)
    requires n < 4294967296
    ensures ToBE32(n) == [n / 16777216, n / 65536 % 256, n / 256 % 256, n % 256]
  {
    var t: seq<byte> := [n / 16777216, n / 65536 % 256, n / 256 % 256, n % 256];
    ByteOrder(t[0], t[1], t[2], t[3]);
    FourBytes(n);
    assert BE32(t) == n;
    BE32Injective(ToBE32(n), t);
  }

  lemma {:induction false} TwoBytesInOrder(n: nat)
    requires n < 65536
    ensures ToBE16(n) == [n / 256, n % 256]
  {
    var s := ToBE16(n);
    ByteOrder(s[0], s[1], 0, 0);
    assert s == [s[0], s[1]];
  }

  /** A 32-bit length has one encoding only. */
  lemma {:induction false} BE32Injective(s: seq<byte>, t: seq<byte>)
    requires |s| == |t| == 4
    requires BE32(s) == BE32(t)
    ensures s == t
  {
    assert BE16(s[..2]) == BE16(t[..2]) && BE16(s[2..]) == BE16(t[2..]);
  }

  function Repeat(b: byte, n: nat): (s: seq<byte>)
    ensures |s| == n
    ensures forall i :: 0 <= i < n ==> s[i] == b
  {
    if n == 0 then [] else [b] + Repeat(b, n - 1)
  }
}
