/** CRC-32C as the `crc32c` crate presents it: a register fed one byte at a time,
    complemented on the way in and out. The register's update is left open, so
    everything proved holds whatever the polynomial is. */
module Crc32c {
  import opened Bytes

  /** One byte into the register. */
  const STEP: (u32, byte) -> u32

  function Feed(crc: u32, b: Buf): u32
    decreases |b|
  {
    if b == [] then crc else Feed(STEP(crc, b[0]), b[1..])
  }

  /** `crc32c_append(crc, b)`. */
  function Append(crc: u32, b: Buf): u32 {
    TWO32 - 1 - Feed(TWO32 - 1 - crc, b)
  }

  /** `crc32c(b)`. */
  function Crc(b: Buf): u32 { Append(0, b) }

  lemma {:induction false} FeedConcat(crc: u32, a: Buf, b: Buf)
    ensures Feed(crc, a + b) == Feed(Feed(crc, a), b)
    decreases |a|
  {
    if a == [] {
      assert a + b == b;
    } else {
      assert (a + b)[1..] == a[1..] + b;
      FeedConcat(STEP(crc, a[0]), a[1..], b);
    }
  }

  /** Nothing more leaves a checksum as it is, and one byte more puts its complement through
      the register. */
  lemma AppendByte(crc: u32, b: Buf, x: byte)
    ensures Append(crc, []) == crc
    ensures Append(crc, b + [x]) == 0xFFFF_FFFF - STEP(0xFFFF_FFFF - Append(crc, b), x)
  {
    FeedConcat(TWO32 - 1 - crc, b, [x]);
    assert [x][1..] == [];
  }

  /** Checksumming in pieces is checksumming the concatenation. */
  lemma AppendConcat(crc: u32, a: Buf, b: Buf)
    ensures Append(Append(crc, a), b) == Append(crc, a + b)
  {
    FeedConcat(TWO32 - 1 - crc, a, b);
  }
}
