/** The filter chain the handlers run before touching the store: the port checks
    (`--port`, `--dport`, `--sport`) and, in stage 1 only, timestamp sampling
    (`--sample`). */
module Filters {
  import opened Bytes
  import opened Wrappers
  import opened Packet

  /** Exponents `s` for which the substituted sampling test is defined C: it shifts a
      u64 by `64 - s` (needs `s >= 1`) and computes `(0x01 << s) - 1` in a 32-bit
      `int` (needs `s <= 30`). */
  type SampleBits = s: int | 1 <= s <= 30 witness 1

  /** The command-line filters; `None` is an absent flag. */
  datatype Options = Options(port: Option<u16>, sport: Option<u16>, dport: Option<u16>, sample: Option<SampleBits>)

  /** The port checks, run in the order port, dport, sport; all configured ones must pass. */
  predicate PortsPass(o: Options, t: PacketTuple)
  {
    && (o.port.Some? ==> t.sport == o.port.value || t.dport == o.port.value)
    && (o.dport.Some? ==> t.dport == o.dport.value)
    && (o.sport.Some? ==> t.sport == o.sport.value)
  }

  function Pow2(n: nat): (r: nat)
    ensures r >= 1
  {
    if n == 0 then 1 else 2 * Pow2(n - 1)
  }

  /** C's `x << k` on a u64, for `k < 64`: the bits shifted out are lost. */
  function Shl64(x: u64, k: nat): u64
    requires k < 64
  {
    (x * Pow2(k)) % POW64
  }

  /** C's `x >> k` on a u64. */
  function Shr64(x: u64, k: nat): (r: u64)
    ensures r * Pow2(k) <= x < r * Pow2(k) + Pow2(k)
  {
    DivAtMost(x, Pow2(k));
    x / Pow2(k)
  }

  /** Dividing a natural number by a positive one does not make it larger. */
  lemma DivAtMost(x: nat, d: int)
    requires d >= 1
    ensures 0 <= x / d <= x
  {
    var q := x / d;
    assert x == q * d + x % d;
    if q >= 1 {
      MulAtLeast(d, q);
      assert d * q == q * d;
    }
  }

  /** The substituted test `(time << (64-s) >> (64-s)) == ((0x01 << s) - 1)`. */
  predicate SampleAccepts(time: u64, s: SampleBits)
  {
    Shr64(Shl64(time, 64 - s), 64 - s) == Pow2(s) - 1
  }

  /** Whether stage 1 goes on past the sampling check at time `time`. */
  predicate Sampled(o: Options, time: u64)
  {
    o.sample.Some? ==> SampleAccepts(time, o.sample.value)
  }

  // ---------------------------------------------------------------------------
  // Arithmetic helpers

  lemma {:induction false} Pow2Add(a: nat, b: nat)
    ensures Pow2(a + b) == Pow2(a) * Pow2(b)
  {
    if a > 0 {
      Pow2Add(a - 1, b);
    }
  }

  lemma Pow2Is64()
    ensures Pow2(64) == POW64
  {
    assert Pow2(2) == 4;
    Pow2Add(2, 2);
    assert Pow2(4) == 16;
    Pow2Add(4, 4);
    assert Pow2(8) == 0x100;
    Pow2Add(8, 8);
    assert Pow2(16) == 0x1_0000;
    Pow2Add(16, 16);
    assert Pow2(32) == 0x1_0000_0000;
    Pow2Add(32, 32);
  }

  /** Two numbers less than `m` apart with the same remainder modulo `m` are equal. */
  lemma CloseWithSameRemainder(x: int, y: int, m: int)
    requires m > 0 && x % m == y % m && x <= y < x + m
    ensures x == y
  {
    var qx, qy := x / m, y / m;
    assert x == qx * m + x % m;
    assert y == qy * m + y % m;
    assert y - x == (qy - qx) * m;
    if qy > qx {
      MulAtLeast(qy - qx, m);
    } else if qy < qx {
      MulAtLeast(qx - qy, m);
    }
  }

  // ---------------------------------------------------------------------------
  // What the sampling test means

  lemma MulLe(a: int, b: int, k: int)
    requires a <= b && k >= 0
    ensures a * k <= b * k
  {
    assert b * k - a * k == (b - a) * k;
  }

  /** Multiplying by `k` moves the remainder modulo `m` into the low part of `m * k`. */
  lemma ScaledSplit(x: int, m: int, k: int, p: int)
    requires x >= 0 && m > 0 && k > 0 && m * k == p
    ensures x * k == (x / m) * p + (x % m) * k
    ensures 0 <= (x % m) * k < p
  {
    var q, r := x / m, x % m;
    calc {
      x * k;
      (q * m + r) * k;
      q * m * k + r * k;
      { assert q * m * k == q * (m * k); }
      q * p + r * k;
    }
    MulLe(r, m - 1, k);
    assert (m - 1) * k == p - k;
  }

  /** Shifting left and then right by `64 - s` keeps the low `s` bits of the value. */
  lemma ShiftsKeepLowBits(time: u64, s: nat)
    requires 1 <= s < 64
    ensures Shr64(Shl64(time, 64 - s), 64 - s) == time % Pow2(s)
  {
    var m, k := Pow2(s), Pow2(64 - s);
    Pow2Add(s, 64 - s);
    Pow2Is64();
    ScaledSplit(time, m, k, POW64);
    var r := time % m;
    DivModUnique(time * k, POW64, time / m, r * k);
    assert Shl64(time, 64 - s) == r * k;
    DivModUnique(r * k, k, r, 0);
  }

  /** With `--sample s`, stage 1 proceeds exactly when the low `s` bits of the
      timestamp are all ones. */
  lemma SampleAcceptsIffLowBitsSet(time: u64, s: SampleBits)
    ensures SampleAccepts(time, s) <==> time % Pow2(s) == Pow2(s) - 1
  {
    ShiftsKeepLowBits(time, s);
  }

  /** Every window of `2^s` consecutive timestamps holds an accepted one. */
  lemma SomeSampleInEveryWindow(base: u64, s: SampleBits) returns (t: u64)
    requires base + Pow2(s) <= POW64
    ensures base <= t < base + Pow2(s) && SampleAccepts(t, s)
  {
    var m := Pow2(s);
    var q, r := base / m, base % m;
    t := base + (m - 1 - r);
    assert t == q * m + (m - 1);
    DivModUnique(t, m, q, m - 1);
    SampleAcceptsIffLowBitsSet(t, s);
  }

  /** No window of `2^s` consecutive timestamps holds two accepted ones: with
      `SomeSampleInEveryWindow`, one timestamp in `2^s` is accepted. */
  lemma AtMostOneSamplePerWindow(t1: u64, t2: u64, s: SampleBits)
    requires SampleAccepts(t1, s) && SampleAccepts(t2, s)
    requires t1 <= t2 < t1 + Pow2(s)
    ensures t1 == t2
  {
    var m := Pow2(s);
    SampleAcceptsIffLowBitsSet(t1, s);
    SampleAcceptsIffLowBitsSet(t2, s);
    CloseWithSameRemainder(t1, t2, m);
  }
}
