/** Fixed-width unsigned integers of the BPF program (u8, u16, u32, u64) and the
    byte-order helpers `ntohs`/`ntohl` as they behave on a little-endian host.

    A header field read through a C struct pointer is a little-endian load of the
    bytes in memory; the bytes themselves are in network (big-endian) order. */
module Bytes {

  const POW64: int := 0x1_0000_0000_0000_0000

  type u8 = x: int | 0 <= x < 0x100
  type u16 = x: int | 0 <= x < 0x1_0000
  type u32 = x: int | 0 <= x < 0x1_0000_0000
  type u64 = x: int | 0 <= x < 0x1_0000_0000_0000_0000

  /** A 16-bit load on a little-endian host: the byte at the lower address is the low byte. */
  function LoadLE16(b: seq<u8>, off: nat): (r: u16)
    requires off + 2 <= |b|
    ensures r % 0x100 == b[off] && r / 0x100 == b[off + 1]
  {
    var lo: int, hi: int := b[off], b[off + 1];
    Digit(lo, hi);
    lo + 0x100 * hi
  }

  /** A 32-bit load on a little-endian host. */
  function LoadLE32(b: seq<u8>, off: nat): u32
    requires off + 4 <= |b|
  {
    var b0: int, b1: int, b2: int, b3: int := b[off], b[off + 1], b[off + 2], b[off + 3];
    b0 + 0x100 * (b1 + 0x100 * (b2 + 0x100 * b3))
  }

  /** The number two bytes denote in network (big-endian) order. */
  function ReadBE16(b: seq<u8>, off: nat): u16
    requires off + 2 <= |b|
  {
    var hi: int, lo: int := b[off], b[off + 1];
    0x100 * hi + lo
  }

  /** The number four bytes denote in network (big-endian) order. */
  function ReadBE32(b: seq<u8>, off: nat): u32
    requires off + 4 <= |b|
  {
    var b0: int, b1: int, b2: int, b3: int := b[off], b[off + 1], b[off + 2], b[off + 3];
    b3 + 0x100 * (b2 + 0x100 * (b1 + 0x100 * b0))
  }

  /** `ntohs` on a little-endian host: the two bytes of the value change places. */
  function Ntohs(x: u16): (r: u16)
    ensures r % 0x100 == x / 0x100 && r / 0x100 == x % 0x100
  {
    Digit(x / 0x100, x % 0x100);
    (x % 0x100) * 0x100 + x / 0x100
  }

  /** `ntohl` on a little-endian host: the four bytes of the value are reversed. */
  function Ntohl(x: u32): u32
  {
    var b0, x1 := x % 0x100, x / 0x100;
    var b1, x2 := x1 % 0x100, x1 / 0x100;
    var b2, b3 := x2 % 0x100, x2 / 0x100;
    b3 + 0x100 * (b2 + 0x100 * (b1 + 0x100 * b0))
  }

  /** Splitting a number into its low byte and the rest. */
  lemma Digit(lo: int, hi: int)
    requires 0 <= lo < 0x100 && 0 <= hi
    ensures (lo + 0x100 * hi) % 0x100 == lo
    ensures (lo + 0x100 * hi) / 0x100 == hi
  {
  }

  /** ntohs applied to a raw 16-bit header load yields the header's network-order value. */
  lemma NtohsOfLoad(b: seq<u8>, off: nat)
    requires off + 2 <= |b|
    ensures Ntohs(LoadLE16(b, off)) == ReadBE16(b, off)
  {
    Digit(b[off], b[off + 1]);
  }

  /** ntohl applied to a raw 32-bit header load yields the header's network-order value. */
  lemma NtohlOfLoad(b: seq<u8>, off: nat)
    requires off + 4 <= |b|
    ensures Ntohl(LoadLE32(b, off)) == ReadBE32(b, off)
  {
    var b3: int := b[off + 3];
    var x2 := b[off + 2] as int + 0x100 * b3;
    var x1 := b[off + 1] as int + 0x100 * x2;
    Digit(b[off], x1);
    Digit(b[off + 1], x2);
    Digit(b[off + 2], b[off + 3]);
  }

  /** Swapping the bytes twice gives the value back: ntohs is its own inverse. */
  lemma NtohsInvolutive(x: u16)
    ensures Ntohs(Ntohs(x)) == x
  {
    Digit(x / 0x100, x % 0x100);
  }

  /** Reversing the bytes twice gives the value back: ntohl is its own inverse. */
  lemma NtohlInvolutive(x: u32)
    ensures Ntohl(Ntohl(x)) == x
  {
    var b0, x1 := x % 0x100, x / 0x100;
    var b1, x2 := x1 % 0x100, x1 / 0x100;
    var b2, b3 := x2 % 0x100, x2 / 0x100;
    var y2 := b1 + 0x100 * b0;
    var y1 := b2 + 0x100 * y2;
    Digit(b3, y1);
    Digit(b2, y2);
    Digit(b1, b0);
  }

  // ---------------------------------------------------------------------------
  // Arithmetic helpers shared by the modules that work modulo a power of two

  lemma MulAtLeast(d: int, m: int)
    requires d >= 1 && m > 0
    ensures d * m >= m
  {
    assert d * m == (d - 1) * m + m;
  }

  /** Quotient and remainder are unique. */
  lemma DivModUnique(x: int, m: int, q: int, r: int)
    requires m > 0 && 0 <= r < m && x == q * m + r
    ensures x / m == q && x % m == r
  {
    var q', r' := x / m, x % m;
    assert x == q' * m + r';
    assert (q' - q) * m == r - r' by {
      assert (q' - q) * m == q' * m - q * m;
    }
    if q' > q {
      MulAtLeast(q' - q, m);
    } else if q' < q {
      MulAtLeast(q - q', m);
    }
  }

  /** A 16-bit load from a suffix of `b` is the load at the shifted offset of `b`. */
  lemma LoadLE16OfSuffix(b: seq<u8>, o: nat, off: nat)
    requires o + off + 2 <= |b|
    ensures LoadLE16(b[o..], off) == LoadLE16(b, o + off)
  {
    assert b[o..][off] == b[o + off] && b[o..][off + 1] == b[o + off + 1];
  }

  /** A 32-bit load from a suffix of `b` is the load at the shifted offset of `b`. */
  lemma LoadLE32OfSuffix(b: seq<u8>, o: nat, off: nat)
    requires o + off + 4 <= |b|
    ensures LoadLE32(b[o..], off) == LoadLE32(b, o + off)
  {
    assert b[o..][off] == b[o + off] && b[o..][off + 1] == b[o + off + 1];
    assert b[o..][off + 2] == b[o + off + 2] && b[o..][off + 3] == b[o + off + 3];
  }
}
