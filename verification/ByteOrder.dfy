/** Little-endian integers, as `my_byteorder.h` stores them. */
module ByteOrder {

  type Byte = x: int | 0 <= x < 256

  /** `int4store` */
  function Bytes4(n: nat): (r: seq<Byte>)
    ensures |r| == 4
    ensures n < 0x1_0000_0000 ==> Value4(r) == n
  {
    var n1 := n / 256;
    var n2 := n1 / 256;
    var n3 := n2 / 256;
    assert n < 0x1_0000_0000 ==> n3 < 256;
    [n % 256, n1 % 256, n2 % 256, n3 % 256]
  }

  /** `int2store` */
  function Bytes2(n: nat): (r: seq<Byte>)
    ensures |r| == 2
    ensures n < 0x1_0000 ==> Value2(r[0], r[1]) == n
  {
    [n % 256, n / 256 % 256]
  }

  /** `uint2korr` */
  function Value2(lo: Byte, hi: Byte): nat {
    lo as int + 256 * (hi as int)
  }

  /** The low byte comes first. */
  lemma LowByteFirst(n: nat)
    requires n < 0x1_0000
    ensures Value2(n % 256, n / 256) == n && Bytes2(n) == [n % 256, n / 256]
    ensures Bytes4(0x04030201) == [1, 2, 3, 4] && Value4([1, 2, 3, 4]) == 0x04030201
  {
    assert n / 256 % 256 == n / 256;
  }

  /** `uint4korr` */
  function Value4(s: seq<Byte>): nat
    requires |s| == 4
  {
    s[0] as int + 256 * (s[1] as int) + 65536 * (s[2] as int) + 16777216 * (s[3] as int)
  }
}
