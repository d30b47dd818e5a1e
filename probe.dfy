/** The loaded BPF program: the hash map `in_timestamps`, the perf channel
    `timestamp_events` (modelled as the sequence of records submitted so far) and the
    four kprobe handlers, which update the map in place. The clock value
    `bpf_ktime_get_ns()` is the parameter `now`. */
module Probe {
  import opened Bytes
  import opened Wrappers
  import opened Packet
  import opened Filters
  import opened Latency
  import opened Correlation

  class InProbe {
    /** The filters compiled into the program text. */
    const options: Options
    /** The number of entries the hash map can hold. */
    const capacity: nat
    var timestamps: Store
    var events: seq<Data>

    ghost predicate Valid()
      reads this
    {
      |timestamps| <= capacity
    }

    constructor (options: Options, capacity: nat)
      ensures Valid()
      ensures this.options == options && this.capacity == capacity
      ensures timestamps == map[] && events == []
    {
      this.options := options;
      this.capacity := capacity;
      timestamps := map[];
      events := [];
    }

    /** `trace_eth_type_trans`. */
    method TraceEthTypeTrans(frame: seq<u8>, now: u64)
      requires Valid() && |frame| >= FRAME_READ_LEN
      modifies this`timestamps
      ensures Valid()
      ensures timestamps == EthTypeTrans(old(timestamps), options, capacity, frame, now)
    {
      var protocol := EthProto(frame);
      if protocol == 8 {
        var time := now;
        if options.sample.Some? && !SampleAccepts(time, options.sample.value) {
          return;
        }
        var tuple := FrameTuple(frame);
        if !PortsPass(options, tuple) {
          return;
        }
        if tuple !in timestamps {
          if |timestamps| >= capacity {
            return;
          }
          timestamps := timestamps[tuple := ZERO_INFO];
        }
        timestamps := timestamps[tuple := timestamps[tuple].(macTime := time)];
      }
    }

    /** `trace_ip_rcv`. */
    method TraceIpRcv(skb: Option<Skb>, now: u64)
      requires Valid() && (skb.Some? ==> Readable(skb.value))
      modifies this`timestamps
      ensures Valid()
      ensures timestamps == IpRcv(old(timestamps), options, skb, now)
    {
      if skb.None? {
        return;
      }
      var tuple := HeaderTuple(skb.value.ip, skb.value.tcp);
      if !PortsPass(options, tuple) {
        return;
      }
      if tuple !in timestamps {
        return;
      }
      timestamps := timestamps[tuple := timestamps[tuple].(ipTime := now)];
    }

    /** `trace_tcp_v4_rcv`. */
    method TraceTcpV4Rcv(skb: Option<Skb>, now: u64)
      requires Valid() && (skb.Some? ==> Readable(skb.value))
      modifies this`timestamps
      ensures Valid()
      ensures timestamps == TcpV4Rcv(old(timestamps), options, skb, now)
    {
      if skb.None? {
        return;
      }
      var tuple := HeaderTuple(skb.value.ip, skb.value.tcp);
      if !PortsPass(options, tuple) {
        return;
      }
      if tuple !in timestamps {
        return;
      }
      timestamps := timestamps[tuple := timestamps[tuple].(tcpTime := now)];
    }

    /** `trace_skb_copy_datagram_iter`: stamp, build the record, delete, submit. */
    method TraceSkbCopyDatagramIter(skb: Option<Skb>, now: u64)
      requires Valid() && (skb.Some? ==> Readable(skb.value))
      modifies this`timestamps, this`events
      ensures Valid()
      ensures (timestamps, events) == SkbCopyDatagramIter(old(timestamps), old(events), options, skb, now)
    {
      if skb.None? {
        return;
      }
      var tuple := HeaderTuple(skb.value.ip, skb.value.tcp);
      if !PortsPass(options, tuple) {
        return;
      }
      var ack := LoadLE32(skb.value.tcp, 8);
      if tuple !in timestamps {
        return;
      }
      ghost var before := timestamps;
      timestamps := timestamps[tuple := timestamps[tuple].(appTime := now)];
      var tinfo := timestamps[tuple];
      var data := MakeData(tinfo, tuple, ack);
      timestamps := timestamps - {tuple};
      events := events + [data];
      assert timestamps == before - {tuple};
      assert Finish(before, tuple, now, ack) == (timestamps, Some(data));
    }
  }

  /** The worked example run on the handlers themselves: their contracts alone give the
      record a caller sees. */
  method WorkedExampleOnProbe(capacity: nat) returns (shown: seq<nat>)
    requires capacity >= 1
    ensures shown == [2, 0, 0, 1]
  {
    var skb := Some(Skb(EXAMPLE_IP, EXAMPLE_TCP));
    var o := Options(None, None, None, None);
    var probe := new InProbe(o, capacity);
    WorkedExample(capacity);
    ExampleHeaders();
    probe.TraceEthTypeTrans(EXAMPLE_ETH + EXAMPLE_IP + EXAMPLE_TCP, 1000);
    ghost var s1 := probe.timestamps;
    probe.TraceIpRcv(skb, 1500);
    ghost var s2 := probe.timestamps;
    probe.TraceTcpV4Rcv(skb, 2000);
    ghost var s3 := probe.timestamps;
    probe.TraceSkbCopyDatagramIter(skb, 3000);
    ghost var r := SkbCopyDatagramIter(s3, [], o, skb, 3000);
    assert s3 == TcpV4Rcv(IpRcv(EthTypeTrans(map[], o, capacity, EXAMPLE_ETH + EXAMPLE_IP + EXAMPLE_TCP, 1000), o, skb, 1500), o, skb, 2000);
    assert |r.1| == 1 && TimeColumns(r.1[0]) == [2, 0, 0, 1];
    assert probe.events == r.1;
    shown := TimeColumns(probe.events[0]);
  }
}
