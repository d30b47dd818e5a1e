/** The correlation store `in_timestamps` and what each of the four handlers does to it,
    as functions of the store before the call. The class in module Probe runs the same
    steps in place and is proved to end in the state these functions give.

    The store is a hash map with a fixed number of entries (`capacity`); inserting a new
    key into a full map fails, and the handler then returns without a trace. */
module Correlation {
  import opened Bytes
  import opened Wrappers
  import opened Packet
  import opened Filters
  import opened Latency

  type Store = map<PacketTuple, KTimeInfo>

  // ---------------------------------------------------------------------------
  // Store operations

  /** `in_timestamps.lookup_or_init(&k, &zero)` followed by `tinfo->mac_time = time`. */
  function StampMac(s: Store, capacity: nat, k: PacketTuple, now: u64): (r: Store)
    ensures k in s ==>
      && r.Keys == s.Keys && r[k].macTime == now
      && r[k].ipTime == s[k].ipTime && r[k].tcpTime == s[k].tcpTime && r[k].appTime == s[k].appTime
    ensures k !in s && |s| < capacity ==> r.Keys == s.Keys + {k} && r[k] == KTimeInfo(now, 0, 0, 0)
    ensures k !in s && |s| >= capacity ==> r == s
    ensures forall k' :: k' in s && k' != k ==> k' in r && r[k'] == s[k']
    ensures |s| <= capacity ==> |r| <= capacity
  {
    if k in s then s[k := s[k].(macTime := now)]
    else if |s| < capacity then s[k := ZERO_INFO.(macTime := now)]
    else s
  }

  /** `in_timestamps.lookup(&k)` followed, on a hit, by `tinfo->ip_time = now`. */
  function StampIp(s: Store, k: PacketTuple, now: u64): (r: Store)
    ensures r.Keys == s.Keys
    ensures k !in s ==> r == s
    ensures k in s ==>
      && r[k].ipTime == now
      && r[k].macTime == s[k].macTime && r[k].tcpTime == s[k].tcpTime && r[k].appTime == s[k].appTime
    ensures forall k' :: k' in s && k' != k ==> r[k'] == s[k']
  {
    if k in s then s[k := s[k].(ipTime := now)] else s
  }

  /** `in_timestamps.lookup(&k)` followed, on a hit, by `tinfo->tcp_time = now`. */
  function StampTcp(s: Store, k: PacketTuple, now: u64): (r: Store)
    ensures r.Keys == s.Keys
    ensures k !in s ==> r == s
    ensures k in s ==>
      && r[k].tcpTime == now
      && r[k].macTime == s[k].macTime && r[k].ipTime == s[k].ipTime && r[k].appTime == s[k].appTime
    ensures forall k' :: k' in s && k' != k ==> r[k'] == s[k']
  {
    if k in s then s[k := s[k].(tcpTime := now)] else s
  }

  /** Stage 4 on the store: on a hit, stamp `app_time`, build the record from the
      stamped entry, and delete the key. */
  function Finish(s: Store, k: PacketTuple, now: u64, rawAck: u32): (r: (Store, Option<Data>))
    ensures k !in s ==> r.0 == s && r.1 == None
    ensures k in s ==>
      && r.0.Keys == s.Keys - {k}
      && r.1 == Some(MakeData(s[k].(appTime := now), k, rawAck))
    ensures forall k' :: k' in s && k' != k ==> k' in r.0 && r.0[k'] == s[k']
  {
    if k in s then (s - {k}, Some(MakeData(s[k].(appTime := now), k, rawAck))) else (s, None)
  }

  // ---------------------------------------------------------------------------
  // The four handlers

  /** `trace_eth_type_trans`: for an IPv4 frame that the sampling and port checks let
      through, stamp `mac_time` of the frame's key, creating the entry if there is room. */
  function EthTypeTrans(s: Store, o: Options, capacity: nat, frame: seq<u8>, now: u64): (r: Store)
    requires |frame| >= FRAME_READ_LEN
    ensures !(IsIPv4(frame) && Sampled(o, now) && PortsPass(o, FrameTuple(frame))) ==> r == s
    ensures r.Keys <= s.Keys + {FrameTuple(frame)}
    ensures forall k :: k in s && k != FrameTuple(frame) ==> k in r && r[k] == s[k]
    ensures FrameTuple(frame) in r && FrameTuple(frame) !in s ==> r[FrameTuple(frame)] == KTimeInfo(now, 0, 0, 0)
    ensures IsIPv4(frame) && Sampled(o, now) && PortsPass(o, FrameTuple(frame)) ==> var k := FrameTuple(frame);
      && (k in s ==> r == s[k := s[k].(macTime := now)])
      && (k !in s && |s| < capacity ==> r == s[k := KTimeInfo(now, 0, 0, 0)])
      && (k !in s && |s| >= capacity ==> r == s)
    ensures |s| <= capacity ==> |r| <= capacity
  {
    if IsIPv4(frame) && Sampled(o, now) && PortsPass(o, FrameTuple(frame))
    then StampMac(s, capacity, FrameTuple(frame), now)
    else s
  }

  /** Whether a handler of stages 2 to 4 reaches the store lookup: `skb` is not NULL and
      the port checks pass. */
  predicate LooksUp(o: Options, skb: Option<Skb>)
    requires skb.Some? ==> Readable(skb.value)
  {
    skb.Some? && PortsPass(o, HeaderTuple(skb.value.ip, skb.value.tcp))
  }

  /** `trace_ip_rcv`: stamp `ip_time` of an existing entry; never creates one. */
  function IpRcv(s: Store, o: Options, skb: Option<Skb>, now: u64): (r: Store)
    requires skb.Some? ==> Readable(skb.value)
    ensures r.Keys == s.Keys
    ensures !LooksUp(o, skb) ==> r == s
    ensures LooksUp(o, skb) ==> var k := HeaderTuple(skb.value.ip, skb.value.tcp);
      && (forall k' :: k' in s && k' != k ==> r[k'] == s[k'])
      && (k in s ==> r[k] == s[k].(ipTime := now))
  {
    if LooksUp(o, skb) then StampIp(s, HeaderTuple(skb.value.ip, skb.value.tcp), now) else s
  }

  /** `trace_tcp_v4_rcv`: stamp `tcp_time` of an existing entry; never creates one. */
  function TcpV4Rcv(s: Store, o: Options, skb: Option<Skb>, now: u64): (r: Store)
    requires skb.Some? ==> Readable(skb.value)
    ensures r.Keys == s.Keys
    ensures !LooksUp(o, skb) ==> r == s
    ensures LooksUp(o, skb) ==> var k := HeaderTuple(skb.value.ip, skb.value.tcp);
      && (forall k' :: k' in s && k' != k ==> r[k'] == s[k'])
      && (k in s ==> r[k] == s[k].(tcpTime := now))
  {
    if LooksUp(o, skb) then StampTcp(s, HeaderTuple(skb.value.ip, skb.value.tcp), now) else s
  }

  /** `trace_skb_copy_datagram_iter`: on a hit, emit one record and delete the key;
      otherwise change nothing. The record's `ackNo` is the raw `tcp->ack_seq`. */
  function SkbCopyDatagramIter(s: Store, events: seq<Data>, o: Options, skb: Option<Skb>, now: u64)
    : (r: (Store, seq<Data>))
    requires skb.Some? ==> Readable(skb.value)
    ensures r.0.Keys <= s.Keys
    ensures !LooksUp(o, skb) || HeaderTuple(skb.value.ip, skb.value.tcp) !in s ==> r == (s, events)
    ensures LooksUp(o, skb) ==> var k := HeaderTuple(skb.value.ip, skb.value.tcp);
      && k !in r.0
      && (forall k' :: k' in s && k' != k ==> k' in r.0 && r.0[k'] == s[k'])
      && (k in s ==> r.1 == events + [MakeData(s[k].(appTime := now), k, LoadLE32(skb.value.tcp, 8))])
  {
    if !LooksUp(o, skb) then (s, events)
    else
      var k := HeaderTuple(skb.value.ip, skb.value.tcp);
      var (s', out) := Finish(s, k, now, LoadLE32(skb.value.tcp, 8));
      (s', if out.Some? then events + [out.value] else events)
  }

  // ---------------------------------------------------------------------------
  // One packet through the four handlers

  /** Stages 1 to 3 on a packet whose key is not yet tracked and that stage 1 admits
      while the store has room: a fresh entry holding the three stamps. */
  lemma FirstThreeStages(s: Store, o: Options, capacity: nat,
                         eth: seq<u8>, ip: seq<u8>, tcp: seq<u8>, m: u64, i: u64, t: u64)
    requires |eth| == IP_OFFSET && |ip| == IP_READ_LEN && |tcp| >= TCP_READ_LEN
    requires IsIPv4(eth + ip + tcp) && Sampled(o, m) && PortsPass(o, HeaderTuple(ip, tcp))
    requires HeaderTuple(ip, tcp) !in s && |s| < capacity
    ensures var skb := Some(Skb(ip, tcp));
      var s1 := EthTypeTrans(s, o, capacity, eth + ip + tcp, m);
      var s2 := IpRcv(s1, o, skb, i);
      TcpV4Rcv(s2, o, skb, t) == s[HeaderTuple(ip, tcp) := KTimeInfo(m, i, t, 0)]
  {
    var k, skb := HeaderTuple(ip, tcp), Some(Skb(ip, tcp));
    SameKeyAtEveryStage(eth, ip, tcp);
    var s1 := EthTypeTrans(s, o, capacity, eth + ip + tcp, m);
    assert s1 == s[k := KTimeInfo(m, 0, 0, 0)];
    IpStageOnEntry(s, o, skb, KTimeInfo(m, 0, 0, 0), i);
    TcpStageOnEntry(s, o, skb, KTimeInfo(m, i, 0, 0), t);
  }

  /** Stage 2 on a packet whose key holds the entry `v`. */
  lemma IpStageOnEntry(s: Store, o: Options, skb: Option<Skb>, v: KTimeInfo, now: u64)
    requires skb.Some? && Readable(skb.value) && PortsPass(o, HeaderTuple(skb.value.ip, skb.value.tcp))
    ensures var k := HeaderTuple(skb.value.ip, skb.value.tcp);
      IpRcv(s[k := v], o, skb, now) == s[k := v.(ipTime := now)]
  {
    var k := HeaderTuple(skb.value.ip, skb.value.tcp);
    assert LooksUp(o, skb);
    assert s[k := v][k := v.(ipTime := now)] == s[k := v.(ipTime := now)];
  }

  /** Stage 3 on a packet whose key holds the entry `v`. */
  lemma TcpStageOnEntry(s: Store, o: Options, skb: Option<Skb>, v: KTimeInfo, now: u64)
    requires skb.Some? && Readable(skb.value) && PortsPass(o, HeaderTuple(skb.value.ip, skb.value.tcp))
    ensures var k := HeaderTuple(skb.value.ip, skb.value.tcp);
      TcpV4Rcv(s[k := v], o, skb, now) == s[k := v.(tcpTime := now)]
  {
    var k := HeaderTuple(skb.value.ip, skb.value.tcp);
    assert LooksUp(o, skb);
    assert s[k := v][k := v.(tcpTime := now)] == s[k := v.(tcpTime := now)];
  }

  /** A packet whose key is not yet tracked, that passes the filters at stage 1 while the
      store has room, and that is then seen by stages 2, 3 and 4 at times `i`, `t`, `a`
      yields exactly one record with the four u64 deltas, and leaves the store as it
      found it. When the stamps are in causal order the stage times add up to the total. */
  lemma OnePacketOneRecord(s: Store, events: seq<Data>, o: Options, capacity: nat,
                           eth: seq<u8>, ip: seq<u8>, tcp: seq<u8>, m: u64, i: u64, t: u64, a: u64)
    requires |eth| == IP_OFFSET && |ip| == IP_READ_LEN && |tcp| >= TCP_READ_LEN
    requires IsIPv4(eth + ip + tcp) && Sampled(o, m) && PortsPass(o, HeaderTuple(ip, tcp))
    requires HeaderTuple(ip, tcp) !in s && |s| < capacity
    ensures var k, skb := HeaderTuple(ip, tcp), Some(Skb(ip, tcp));
      var s1 := EthTypeTrans(s, o, capacity, eth + ip + tcp, m);
      var s2 := IpRcv(s1, o, skb, i);
      var s3 := TcpV4Rcv(s2, o, skb, t);
      var r := SkbCopyDatagramIter(s3, events, o, skb, a);
      && r.0 == s
      && r.1 == events + [Data(Sub64(a, m), Sub64(i, m), Sub64(t, i), Sub64(a, t),
                               k.saddr, k.daddr, k.sport, k.dport, k.seqNo, LoadLE32(tcp, 8))]
      && (m <= i <= t <= a ==> r.1[|events|].macTime + r.1[|events|].ipTime + r.1[|events|].tcpTime
                               == r.1[|events|].totalTime)
  {
    var k, skb := HeaderTuple(ip, tcp), Some(Skb(ip, tcp));
    FirstThreeStages(s, o, capacity, eth, ip, tcp, m, i, t);
    var s3 := s[k := KTimeInfo(m, i, t, 0)];
    FinalStage(s, s3, events, o, skb, k, m, i, t, a);
    if m <= i <= t <= a {
      StageTimesAddUp(KTimeInfo(m, i, t, a), k, LoadLE32(tcp, 8));
    }
  }

  /** Stage 4 on the entry left by stages 1 to 3. */
  lemma FinalStage(s: Store, s3: Store, events: seq<Data>, o: Options, skb: Option<Skb>, k: PacketTuple,
                   m: u64, i: u64, t: u64, a: u64)
    requires skb.Some? && Readable(skb.value) && k == HeaderTuple(skb.value.ip, skb.value.tcp)
    requires PortsPass(o, k) && k !in s && s3 == s[k := KTimeInfo(m, i, t, 0)]
    ensures var r := SkbCopyDatagramIter(s3, events, o, skb, a);
      && r.0 == s
      && r.1 == events + [MakeData(KTimeInfo(m, i, t, a), k, LoadLE32(skb.value.tcp, 8))]
  {
    assert LooksUp(o, skb);
    assert s3 - {k} == s;
  }

  /** A datagram that stage 3 never sees (one that is not TCP, which the handlers do not
      check) but that stage 4 copies to the application still completes its entry: the
      record is built with the `tcp_time` of initialisation, 0. */
  lemma StageThreeSkipped(s: Store, events: seq<Data>, o: Options, capacity: nat,
                          eth: seq<u8>, ip: seq<u8>, l4: seq<u8>, m: u64, i: u64, a: u64)
    requires |eth| == IP_OFFSET && |ip| == IP_READ_LEN && |l4| >= TCP_READ_LEN
    requires IsIPv4(eth + ip + l4) && Sampled(o, m) && PortsPass(o, HeaderTuple(ip, l4))
    requires HeaderTuple(ip, l4) !in s && |s| < capacity
    ensures var k, skb := HeaderTuple(ip, l4), Some(Skb(ip, l4));
      var s1 := EthTypeTrans(s, o, capacity, eth + ip + l4, m);
      var s2 := IpRcv(s1, o, skb, i);
      var r := SkbCopyDatagramIter(s2, events, o, skb, a);
      && r.0 == s
      && r.1 == events + [MakeData(KTimeInfo(m, i, 0, a), k, LoadLE32(l4, 8))]
  {
    var k, skb := HeaderTuple(ip, l4), Some(Skb(ip, l4));
    SameKeyAtEveryStage(eth, ip, l4);
    var s1 := EthTypeTrans(s, o, capacity, eth + ip + l4, m);
    assert s1 == s[k := KTimeInfo(m, 0, 0, 0)];
    IpStageOnEntry(s, o, skb, KTimeInfo(m, 0, 0, 0), i);
    FinalStage(s, s[k := KTimeInfo(m, i, 0, 0)], events, o, skb, k, m, i, 0, a);
  }

  /** A packet that stage 1 turns away (not IPv4, not sampled, a port check fails, or the
      store is full) and whose key was not tracked leaves no entry and no record, even
      though stages 2, 3 and 4 see it later. */
  lemma UntrackedPacketLeavesNoTrace(s: Store, events: seq<Data>, o: Options, capacity: nat,
                                     eth: seq<u8>, ip: seq<u8>, tcp: seq<u8>, m: u64, i: u64, t: u64, a: u64)
    requires |eth| == IP_OFFSET && |ip| == IP_READ_LEN && |tcp| >= TCP_READ_LEN
    requires HeaderTuple(ip, tcp) !in s && |s| <= capacity
    requires !(IsIPv4(eth + ip + tcp) && Sampled(o, m) && PortsPass(o, HeaderTuple(ip, tcp)) && |s| < capacity)
    ensures var skb := Some(Skb(ip, tcp));
      var s1 := EthTypeTrans(s, o, capacity, eth + ip + tcp, m);
      var s2 := IpRcv(s1, o, skb, i);
      var s3 := TcpV4Rcv(s2, o, skb, t);
      SkbCopyDatagramIter(s3, events, o, skb, a) == (s, events)
  {
    var k, skb := HeaderTuple(ip, tcp), Some(Skb(ip, tcp));
    SameKeyAtEveryStage(eth, ip, tcp);
    var s1 := EthTypeTrans(s, o, capacity, eth + ip + tcp, m);
    assert s1 == s;
  }

  /** The frame of the worked example: 10.0.0.1:5205 -> 10.0.0.2:443, seq 100, ack 0. */
  const EXAMPLE_ETH: seq<u8> := [0, 0, 0, 0, 0, 0, 0, 0, 0, 0, 0, 0, 0x08, 0x00]
  const EXAMPLE_IP: seq<u8> := [0x45, 0, 0, 40, 0, 0, 0, 0, 64, 6, 0, 0, 10, 0, 0, 1, 10, 0, 0, 2]
  const EXAMPLE_TCP: seq<u8> := [0x14, 0x55, 0x01, 0xBB, 0, 0, 0, 100, 0, 0, 0, 0]

  lemma ExampleHeaders()
    ensures |EXAMPLE_ETH| == IP_OFFSET && |EXAMPLE_IP| == IP_READ_LEN && |EXAMPLE_TCP| == TCP_READ_LEN
    ensures IsIPv4(EXAMPLE_ETH + EXAMPLE_IP + EXAMPLE_TCP)
    ensures HeaderTuple(EXAMPLE_IP, EXAMPLE_TCP).sport == 5205
    ensures HeaderTuple(EXAMPLE_IP, EXAMPLE_TCP).dport == 443
    ensures HeaderTuple(EXAMPLE_IP, EXAMPLE_TCP).seqNo == 100
    ensures HeaderTuple(EXAMPLE_IP, EXAMPLE_TCP).saddr == 0x0100_000A
    ensures HeaderTuple(EXAMPLE_IP, EXAMPLE_TCP).daddr == 0x0200_000A
    ensures LoadLE32(EXAMPLE_TCP, 8) == 0
  {
    var frame := EXAMPLE_ETH + EXAMPLE_IP + EXAMPLE_TCP;
    assert frame[12] == 0x08 && frame[13] == 0x00;
    IsIPv4IsEtherTypeIp(frame);
  }

  /** The worked example: 10.0.0.1:5205 -> 10.0.0.2:443, seq 100, ack 0, no filters,
      stamped at 1000, 1500, 2000 and 3000 ns, gives a record with total 2000 ns and stage
      times 500, 500 and 1000 ns, shown as 2, 0, 0 and 1 microseconds. */
  lemma WorkedExample(capacity: nat)
    requires capacity >= 1
    ensures var o, skb := Options(None, None, None, None), Some(Skb(EXAMPLE_IP, EXAMPLE_TCP));
      var s1 := EthTypeTrans(map[], o, capacity, EXAMPLE_ETH + EXAMPLE_IP + EXAMPLE_TCP, 1000);
      var s2 := IpRcv(s1, o, skb, 1500);
      var s3 := TcpV4Rcv(s2, o, skb, 2000);
      var r := SkbCopyDatagramIter(s3, [], o, skb, 3000);
      && r.0 == map[]
      && |r.1| == 1
      && r.1[0].saddr == 0x0100_000A && r.1[0].daddr == 0x0200_000A
      && r.1[0].sport == 5205 && r.1[0].dport == 443 && r.1[0].seqNo == 100 && r.1[0].ackNo == 0
      && r.1[0].totalTime == 2000 && r.1[0].macTime == 500 && r.1[0].ipTime == 500 && r.1[0].tcpTime == 1000
      && TimeColumns(r.1[0]) == [2, 0, 0, 1]
  {
    ExampleHeaders();
    OnePacketOneRecord(map[], [], Options(None, None, None, None), capacity,
                       EXAMPLE_ETH, EXAMPLE_IP, EXAMPLE_TCP, 1000, 1500, 2000, 3000);
  }
}
