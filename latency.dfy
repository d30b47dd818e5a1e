/** `struct ktime_info` (the four stage timestamps of one packet), `struct data_t` (the
    record stage 4 emits) and the arithmetic between them: u64 subtraction, which wraps
    modulo 2^64, and the nanosecond-to-microsecond division used for display. */
module Latency {
  import opened Bytes
  import opened Packet

  datatype KTimeInfo = KTimeInfo(macTime: u64, ipTime: u64, tcpTime: u64, appTime: u64)

  datatype Data = Data(totalTime: u64, macTime: u64, ipTime: u64, tcpTime: u64,
                       saddr: u32, daddr: u32, sport: u16, dport: u16, seqNo: u32, ackNo: u32)

  /** `struct ktime_info zero = {}`: the value a new entry starts from. */
  const ZERO_INFO: KTimeInfo := KTimeInfo(0, 0, 0, 0)

  /** u64 subtraction `a - b`: the result is the difference modulo 2^64. */
  function Sub64(a: u64, b: u64): (r: u64)
    ensures (b + r) % POW64 == a
    ensures b <= a ==> r == a - b
    ensures a < b ==> r == POW64 - (b - a)
  {
    (a - b) % POW64
  }

  /** The record stage 4 builds from the entry of key `t` (whose `appTime` is already
      stamped) and the raw acknowledgment field `rawAck` read from the TCP header. */
  function MakeData(info: KTimeInfo, t: PacketTuple, rawAck: u32): (d: Data)
    ensures (d.macTime + d.ipTime + d.tcpTime) % POW64 == d.totalTime
    ensures (info.macTime + d.totalTime) % POW64 == info.appTime
    ensures (info.macTime + d.macTime) % POW64 == info.ipTime
    ensures (info.ipTime + d.ipTime) % POW64 == info.tcpTime
    ensures (info.tcpTime + d.tcpTime) % POW64 == info.appTime
    ensures d.saddr == t.saddr && d.daddr == t.daddr && d.sport == t.sport
    ensures d.dport == t.dport && d.seqNo == t.seqNo && d.ackNo == rawAck
  {
    var total := Sub64(info.appTime, info.macTime);
    var mac := Sub64(info.ipTime, info.macTime);
    var ip := Sub64(info.tcpTime, info.ipTime);
    var tcp := Sub64(info.appTime, info.tcpTime);
    Sub64Chain(info.macTime, info.ipTime, info.tcpTime, info.appTime);
    Data(total, mac, ip, tcp, t.saddr, t.daddr, t.sport, t.dport, t.seqNo, rawAck)
  }

  /** The three stage differences add up to the total difference modulo 2^64. */
  lemma Sub64Chain(m: u64, i: u64, t: u64, a: u64)
    ensures (Sub64(i, m) + Sub64(t, i) + Sub64(a, t)) % POW64 == Sub64(a, m)
  {
    SumOfDeltas(m, i, t, a, Sub64(i, m), Sub64(t, i), Sub64(a, t), Sub64(a, m));
  }

  /** Differences modulo 2^64 add up modulo 2^64. */
  lemma SumOfDeltas(m: u64, i: u64, t: u64, a: u64, dm: u64, di: u64, dt: u64, total: u64)
    requires (m + dm) % POW64 == i && (i + di) % POW64 == t && (t + dt) % POW64 == a
    requires (m + total) % POW64 == a
    ensures (dm + di + dt) % POW64 == total
  {
    var k1, k2, k3, k4 := (m + dm) / POW64, (i + di) / POW64, (t + dt) / POW64, (m + total) / POW64;
    assert m + dm == k1 * POW64 + i;
    assert i + di == k2 * POW64 + t;
    assert t + dt == k3 * POW64 + a;
    assert m + total == k4 * POW64 + a;
    var k := k1 + k2 + k3 - k4;
    assert k1 * POW64 + k2 * POW64 + k3 * POW64 - k4 * POW64 == k * POW64;
    assert dm + di + dt == k * POW64 + total;
    DivModUnique(dm + di + dt, POW64, k, total);
  }

  /** When the four stamps are in causal order, no delta wraps and the three stage
      times add up to the total exactly. */
  lemma StageTimesAddUp(info: KTimeInfo, t: PacketTuple, rawAck: u32)
    requires info.macTime <= info.ipTime <= info.tcpTime <= info.appTime
    ensures var d := MakeData(info, t, rawAck);
      && d.totalTime == info.appTime - info.macTime
      && d.macTime == info.ipTime - info.macTime
      && d.ipTime == info.tcpTime - info.ipTime
      && d.tcpTime == info.appTime - info.tcpTime
      && d.macTime + d.ipTime + d.tcpTime == d.totalTime
  {
  }

  /** A stage that was never stamped keeps the zero of initialisation: the delta into
      it wraps to 2^64 minus the previous stamp, and the delta out of it is the next
      stamp itself. */
  lemma UnstampedIpWraps(info: KTimeInfo, t: PacketTuple, rawAck: u32)
    requires info.ipTime == 0 < info.macTime
    ensures MakeData(info, t, rawAck).macTime == POW64 - info.macTime
    ensures MakeData(info, t, rawAck).ipTime == info.tcpTime
  {
  }

  /** The same for the TCP stage. */
  lemma UnstampedTcpWraps(info: KTimeInfo, t: PacketTuple, rawAck: u32)
    requires info.tcpTime == 0 < info.ipTime
    ensures MakeData(info, t, rawAck).ipTime == POW64 - info.ipTime
    ensures MakeData(info, t, rawAck).tcpTime == info.appTime
  {
  }

  /** `"%d" % (ns/1000)`: nanoseconds to whole microseconds, truncated. */
  function Micros(ns: u64): (us: nat)
    ensures us * 1000 <= ns < us * 1000 + 1000
  {
    ns / 1000
  }

  /** The four time columns of an output line, in microseconds: TOTAL, MAC, IP, TCP. */
  function TimeColumns(d: Data): (cols: seq<nat>)
    ensures |cols| == 4
    ensures cols[0] * 1000 <= d.totalTime < cols[0] * 1000 + 1000
    ensures cols[1] * 1000 <= d.macTime < cols[1] * 1000 + 1000
    ensures cols[2] * 1000 <= d.ipTime < cols[2] * 1000 + 1000
    ensures cols[3] * 1000 <= d.tcpTime < cols[3] * 1000 + 1000
  {
    [Micros(d.totalTime), Micros(d.macTime), Micros(d.ipTime), Micros(d.tcpTime)]
  }
}
