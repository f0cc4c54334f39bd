/** Bytes, 32-bit words and their big-endian form. */
module Bytes {
  type byte = b: int | 0 <= b < 0x100

  type u32 = n: int | 0 <= n < 0x1_0000_0000

  const U32_MAX: u32 := 0xFFFF_FFFF

  /** Rust's `n as u32` for a length: the low 32 bits. */
  function Truncate(n: nat): u32 {
    n % 0x1_0000_0000
  }

  /** `u32::to_be_bytes`. */
  function ToBe(n: u32): (s: seq<byte>) {
    [n / 0x100_0000, n / 0x1_0000 % 0x100, n / 0x100 % 0x100, n % 0x100]
  }

  /** `u32::from_be_bytes`. */
  function FromBe(s: seq<byte>): u32
    requires |s| == 4
  {
    s[0] as int * 0x100_0000 + s[1] as int * 0x1_0000 + s[2] as int * 0x100 + s[3] as int
  }

  lemma FromBeParts(s: seq<byte>)
    requires |s| == 4
    ensures var m := FromBe(s);
            && m / 0x100 == s[0] as int * 0x1_0000 + s[1] as int * 0x100 + s[2] as int
            && m / 0x1_0000 == s[0] as int * 0x100 + s[1] as int && m / 0x100_0000 == s[0] as int
  {
  }

  lemma BeKept(s: seq<byte>)
    requires |s| == 4
    ensures ToBe(FromBe(s)) == s
  {
    FromBeParts(s);
  }

  lemma BeBack(n: u32)
    ensures FromBe(ToBe(n)) == n
  {
    assert n / 0x1_0000 == n / 0x100_0000 * 0x100 + n / 0x1_0000 % 0x100;
    assert n / 0x100 == n / 0x1_0000 * 0x100 + n / 0x100 % 0x100;
  }

  /** The two word conversions are inverse to each other. */
  lemma BeRoundTrip(n: u32, s: seq<byte>)
    ensures FromBe(ToBe(n)) == n
    ensures |s| == 4 ==> ToBe(FromBe(s)) == s
  {
    BeBack(n);
    if |s| == 4 {
      BeKept(s);
    }
  }
}
