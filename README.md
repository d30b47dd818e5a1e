# tcpin: per-stage latency of incoming TCP segments

`tcpin.py` loads a BPF program with four kprobe handlers on the receive path of
the kernel: `eth_type_trans` (stage 1, MAC), `ip_rcv` (stage 2, IP),
`tcp_v4_rcv` (stage 3, TCP) and `skb_copy_datagram_iter` (stage 4, the copy
to the application). Each handler derives a key, `struct packet_tuple`, from
the packet's IP and TCP headers: addresses, ports, sequence and
acknowledgment number. It stamps the time of its stage into the
`in_timestamps` hash map under that key. Stage 4 turns the four stamps into
a record of u64 deltas (`struct data_t`), deletes the key and submits the
record, which the Python side prints in microseconds. Before loading, the
Python side substitutes the placeholders `FILTER_PORT`, `FILTER_DPORT`,
`FILTER_SPORT` and `SAMPLING` in the program text with guard statements built
from the `--port`, `--dport`, `--sport` and `--sample` options.

The project models that core:

- `Bytes` holds the u8 to u64 integers, raw header loads on a little-endian
  host, and `ntohs`/`ntohl`.
- `Packet` holds the key and how stage 1 (from the frame) and stages 2 to 4
  (from the located headers) derive it.
- `Filters` holds the port checks and the sampling test with C's u64
  shifts.
- `Template` models the substitution chain over a token sequence:
  - `str.replace` replaces every occurrence;
  - the chain as written and a corrected chain;
  - what the guards in the substituted text do.
- `Latency` holds `ktime_info`, `data_t`, the u64 deltas that wrap modulo
  2^64, and the nanosecond-to-microsecond display.
- `Correlation` gives each handler's effect on the store as a function of
  the store before the call, plus lemmas about a packet passing through all
  four stages.
- `Probe` is the loaded program as a class:
  - its fields are the map and the event channel;
  - the four handlers are methods that update them in place;
  - each method is proved to end in the state the `Correlation` function
    gives.

The host is taken to be little-endian. Only there does stage 1's test
`h_proto == 8` select IPv4 frames, and only there do `ntohs`/`ntohl` swap
bytes.

## Model

| member | source | states |
|---|---|---|
| Bytes.NtohsOfLoad | tcpin.py:118-121 | `ntohs` of the raw 16-bit port load is the port's network-order (big-endian) value |
| Bytes.NtohlOfLoad | tcpin.py:130-133 | `ntohl` of the raw 32-bit sequence/acknowledgment load is the field's network-order value |
| Bytes.NtohsInvolutive | tcpin.py:120-121 | `ntohs` is its own inverse |
| Bytes.NtohlInvolutive | tcpin.py:132-133 | `ntohl` is its own inverse |
| Bytes.LoadLE16 | tcpin.py:104 | a 16-bit field read through a struct pointer on a little-endian host: the byte at the lower address is the low byte of the value |
| Bytes.LoadLE32 | tcpin.py:114-115 | a 32-bit field read through a struct pointer on a little-endian host: byte `off` is the lowest byte and byte `off + 3` the highest |
| Bytes.Ntohs | tcpin.py:120-121 | `ntohs` on a little-endian host: the low byte of the result is the high byte of the argument and the other way round |
| Bytes.Ntohl | tcpin.py:132-133 | `ntohl` on a little-endian host: the four bytes of the value in reverse order (its contract is `Bytes.NtohlOfLoad` and `Bytes.NtohlInvolutive`) |
| Packet.IsIPv4IsEtherTypeIp | tcpin.py:103-106 | the test `h_proto == 8` holds exactly when the EtherType on the wire is 0x0800, i.e. frame bytes 12 and 13 are 0x08 and 0x00 |
| Packet.EthProto | tcpin.py:103-104 | `eth->h_proto`: the raw 16-bit load of frame bytes 12 and 13 |
| Packet.IsIPv4 | tcpin.py:106 | stage 1's test `protocol == 8`, characterised by `Packet.IsIPv4IsEtherTypeIp` |
| Packet.HeaderTuple | tcpin.py:153-172 | the key of stages 2 to 4: addresses are the raw loads of IP bytes 12 and 16; ports, seq and ack are the big-endian values of TCP bytes 0, 2, 4 and 8 |
| Packet.FrameTuple | tcpin.py:111-133 | stage 1's key, read at fixed offsets of the frame, is the key of the headers found at offsets 14 and 34 |
| Packet.SameKeyAtEveryStage | tcpin.py:111-133 | for an Ethernet header, an IPv4 header without options and a TCP header, stage 1 and stages 2 to 4 derive the same key |
| Packet.RawAckIsSwappedKeyAck | tcpin.py:241-260 | the `ack` copied into the record is the raw `tcp->ack_seq`, which is the key's acknowledgment number with its bytes reversed |
| Filters.PortsPass | tcpin.py:126-128 | the three filter sites with the guards substituted: `--port p` passes when sport or dport is `p`, `--dport` and `--sport` each demand equality, all configured checks must pass (shown equal to the substituted guards by `Template.GuardsMeanOptions`) |
| Filters.Shl64 | tcpin.py:289 | C's `<<` on a u64 with a shift below 64: the bits shifted past bit 63 are lost |
| Filters.Shr64 | tcpin.py:289 | C's `>>` on a u64: the quotient by `2^k`, rounded down |
| Filters.SampleAccepts | tcpin.py:289 | the substituted sampling test `(time << (64-s) >> (64-s)) == ((0x01 << s) - 1)`, characterised by `Filters.SampleAcceptsIffLowBitsSet` |
| Filters.Sampled | tcpin.py:108-109 | stage 1 goes past the `SAMPLING` site: always without `--sample`, by `Filters.SampleAccepts` with it |
| Filters.ShiftsKeepLowBits | tcpin.py:288-289 | u64 `time << (64-s) >> (64-s)` is `time mod 2^s` |
| Filters.SampleAcceptsIffLowBitsSet | tcpin.py:108-109 | with `--sample s`, stage 1 proceeds exactly when the low `s` bits of the timestamp are all ones |
| Filters.SomeSampleInEveryWindow | tcpin.py:288-289 | every window of `2^s` consecutive timestamps holds one that sampling accepts |
| Filters.AtMostOneSamplePerWindow | tcpin.py:288-289 | no window of `2^s` consecutive timestamps holds two accepted ones |
| Template.Replace | tcpin.py:271-291 | `str.replace`: when the replacement does not contain the placeholder, no occurrence of it remains |
| Template.ReplaceInstantiated | tcpin.py:271-291 | one `replace` on a text whose placeholders have been filled is the same one-pass instantiation with that placeholder's fill replaced |
| Template.BpfText | tcpin.py:39-268 | the program text before substitution: `SAMPLING` once, in stage 1 after the clock is read, and `FILTER_PORT`, `FILTER_DPORT`, `FILTER_SPORT` in that order in each of the four handlers |
| Template.Guards | tcpin.py:271-291 | what the corrected chain puts in place of each placeholder: the guard of its option with the option's value, or nothing |
| Template.AsWrittenFill | tcpin.py:271-291 | what the chain as written puts in place of each placeholder: without `--port`, `FILTER_PORT` itself and, whatever `--sport` says, nothing for `FILTER_SPORT` |
| Template.ReplaceStep | tcpin.py:272-273 | one statement `bpf_text = bpf_text.replace(slot, repl)` takes the text instantiated with a fill to the text instantiated with that fill retargeted |
| Template.SubstituteAsWritten | tcpin.py:271-291 | the chain as written yields the one-pass instantiation where, without `--port`, `FILTER_PORT` stays and `FILTER_SPORT` is erased |
| Template.Substitute | tcpin.py:271-291 | the corrected chain yields the one-pass instantiation with each placeholder replaced by the guard of its option, or erased |
| Template.SubstitutedText | tcpin.py:109-239 | after substitution, the sampling fill stands once in stage 1 and the guards port, dport, sport stand in that order in each of the four handlers |
| Template.TokenOfSubstitutedText | tcpin.py:109-239 | a token is in the substituted text exactly when it is fixed code, part of the sampling fill or one of the port guards |
| Template.SubstitutionComplete | tcpin.py:271-291 | with the corrected chain no placeholder remains for any options, and each guard is in the text exactly when its option is given with that value |
| Template.AsWrittenPortQuirk | tcpin.py:271-281 | as written: with `--port` the text equals the corrected one; without it `FILTER_PORT` remains (the C does not compile) and no `--sport` guard is ever inserted |
| Template.GuardsMeanOptions | tcpin.py:272-289 | the guards at a handler's filter site let it run on exactly when the configured port checks all pass (port: sport or dport equals; dport; sport), and the sampling guard exactly when sampling accepts |
| Template.Compiles | tcpin.py:126-128 | the substituted text is accepted by the C compiler only if no placeholder is left: a placeholder that stays is an undeclared identifier at a filter site |
| Template.GuardPasses | tcpin.py:272-289 | the run-time meaning of each inserted guard `if (cond) { return 0; }`: the handler goes on exactly when `cond` is false; fixed code is no guard |
| Template.RunsThrough | tcpin.py:272-289 | a handler runs past a stretch of substituted text exactly when it runs past every guard in it |
| Latency.Sub64 | tcpin.py:251-254 | u64 subtraction: the difference modulo 2^64, exact when there is no underflow, `2^64 - (b - a)` when there is |
| Latency.MakeData | tcpin.py:250-260 | the record's deltas, added to the earlier stamp modulo 2^64, give the later stamp; the stage deltas sum to the total modulo 2^64; addresses, ports and seq come from the key; `ack` is the raw field |
| Latency.Sub64Chain | tcpin.py:251-254 | the MAC, IP and TCP deltas add up to the total delta modulo 2^64, whatever the order of the stamps |
| Latency.StageTimesAddUp | tcpin.py:251-254 | with stamps in causal order no delta wraps and the three stage times add up to the total exactly |
| Latency.UnstampedIpWraps | tcpin.py:251-254 | an IP stamp left at the zero of initialisation (line 135) makes the MAC delta wrap to `2^64 - mac_time`, and the IP delta is the TCP stamp itself |
| Latency.UnstampedTcpWraps | tcpin.py:251-254 | the same for a missing TCP stamp |
| Latency.Micros | tcpin.py:315-318 | the printed microseconds are the nanoseconds divided by 1000, truncated |
| Latency.TimeColumns | tcpin.py:315-318 | the four printed columns (TOTAL, MAC, IP, TCP) are each delta in whole microseconds |
| Latency.ZERO_INFO | tcpin.py:135 | `struct ktime_info zero = {}`: the entry a new key starts from, all four stamps 0 |
| Correlation.StampMac | tcpin.py:135-138 | `lookup_or_init` then `mac_time = time`: an existing entry changes only `mac_time`; an absent one is added as `(now, 0, 0, 0)` if there is room; a full map is unchanged; no other key changes; the size bound is kept |
| Correlation.StampIp | tcpin.py:174-177 | `lookup` then `ip_time = now`: never creates an entry; a miss changes nothing; a hit changes only that key's `ip_time` |
| Correlation.StampTcp | tcpin.py:210-213 | `lookup` then `tcp_time = now`, with the same frame condition |
| Correlation.Finish | tcpin.py:246-262 | on a hit the key is deleted and the record is built from the entry with `app_time = now`; on a miss nothing changes; no other key changes |
| Correlation.EthTypeTrans | tcpin.py:101-142 | stage 1: a frame that is not IPv4, is not sampled or fails a port check leaves the store unchanged; an admitted frame whose key is present gets `mac_time = now` with the other three stamps kept; an absent key is inserted as `(now, 0, 0, 0)` when the map has room and the store is unchanged when it is full; no other key changes; the capacity bound is kept |
| Correlation.IpRcv | tcpin.py:145-180 | stage 2: a NULL `skb` or a failed port check leaves the store unchanged; otherwise only the key's `ip_time` changes, and only if the key is present |
| Correlation.TcpV4Rcv | tcpin.py:182-216 | stage 3: the same, for `tcp_time` |
| Correlation.LooksUp | tcpin.py:147-167 | stages 2 to 4 reach the map lookup exactly when `skb` is not NULL and the port checks at their filter site (lines 165-167, and 201-203 and 237-239 in stages 3 and 4) pass on the key |
| Correlation.IpStageOnEntry | tcpin.py:174-177 | stage 2 on a packet whose key holds entry `v` replaces it by `v` with `ip_time = now`, and changes nothing else |
| Correlation.TcpStageOnEntry | tcpin.py:210-213 | stage 3 on a packet whose key holds entry `v` replaces it by `v` with `tcp_time = now`, and changes nothing else |
| Correlation.SkbCopyDatagramIter | tcpin.py:218-266 | stage 4: on a miss neither store nor output changes; on a hit the key is gone, exactly one record is appended and no other key changes |
| Correlation.FirstThreeStages | tcpin.py:101-216 | an untracked packet admitted by stage 1 leaves, after stages 2 and 3, a fresh entry holding the three stamps |
| Correlation.FinalStage | tcpin.py:246-263 | stage 4 on that entry restores the store and emits the record of the four stamps |
| Correlation.OnePacketOneRecord | tcpin.py:101-266 | one packet through the four stages yields exactly one record with the four u64 deltas and the key's fields and leaves the store as it found it; in causal order the stage times sum to the total |
| Correlation.UntrackedPacketLeavesNoTrace | tcpin.py:101-266 | a packet stage 1 turns away (not IPv4, not sampled, filtered, or map full) leaves no entry and no record, although stages 2 to 4 see it |
| Correlation.StageThreeSkipped | tcpin.py:101-266 | an admitted datagram that stage 3 never sees but stage 4 copies still yields exactly one record, built with the zero `tcp_time` of initialisation, and leaves the store as it found it |
| Correlation.ExampleHeaders | tcpin.py:103-133 | the worked example's frame is IPv4 and its key has ports 5205 and 443, seq 100 and raw ack 0 |
| Correlation.WorkedExample | tcpin.py:101-318 | a concrete packet stamped at 1000, 1500, 2000 and 3000 ns gives one record with deltas 2000, 500, 500 and 1000 ns, printed as 2, 0, 0 and 1 µs, and empties the store |
| Probe.InProbe.constructor | tcpin.py:85-86 | the map and the event channel start empty |
| Probe.InProbe.TraceEthTypeTrans | tcpin.py:101-142 | the handler updates the map in place to `Correlation.EthTypeTrans` of the old map and keeps the capacity bound |
| Probe.InProbe.TraceIpRcv | tcpin.py:145-180 | the handler updates the map in place to `Correlation.IpRcv` of the old map |
| Probe.InProbe.TraceTcpV4Rcv | tcpin.py:182-216 | the handler updates the map in place to `Correlation.TcpV4Rcv` of the old map |
| Probe.InProbe.TraceSkbCopyDatagramIter | tcpin.py:218-266 | the handler stamps, builds the record, deletes the key and appends to the event channel, ending in `Correlation.SkbCopyDatagramIter` of the old state |
| Probe.WorkedExampleOnProbe | tcpin.py:308-318 | running the four handler methods on the worked example prints the columns 2, 0, 0 and 1 |

## Left out

- Compiling the program and attaching the kprobes, with the "kernel function not found" exit (tcpin.py:322-342): a foreign library and kernel I/O.
- Perf-buffer polling, the interrupt loop ending in `SIGKILL`, and records lost by `perf_submit`. Emission is appending to a sequence that never drops.
- Locating the headers through `skb->head` plus the network and transport header offsets (tcpin.py:88-98). Stages 2 to 4 take the header bytes as inputs.
- Concurrent execution of the handlers on several CPUs. The handlers are sequential calls on one store.
- `bpf_ktime_get_ns()`: the clock is the parameter `now`.
- `argparse` (tcpin.py:23-36) and the ctypes decoding of `Data_t` (tcpin.py:293-305). Options arrive already parsed, and records are `Data` values.
- `inet_ntop` rendering of addresses and the column padding in `print_event` (tcpin.py:310-314, 345).
- The map's default number of entries, a BCC default not visible in the file: it is the parameter `capacity`.
- Latency.Micros: the division is exact integer division. Python 3's `/` goes through a float, and the printed value can then differ for deltas above 2^53 ns.
- Filters.SampleBits: sampling exponents outside 1 to 30 are not modelled. There the substituted C shifts by 64 or more, or overflows the `int` of `(0x01 << s) - 1`.
- Filters.Options: port values are u16. Values outside that range, and strings that are not numbers, are pasted into the C text as they are and are not modelled.
- Stage 1 reads the TCP header at the fixed offset 34, which assumes an IPv4 header without options. `Packet.SameKeyAtEveryStage` is stated for such headers. With IP options, stage 1 keys a different tuple and the packet is not correlated; the model computes those keys but proves nothing about them.
- The IP protocol field: no handler checks that the IP protocol is TCP, and the model does not read it. Other IPv4 frames get entries that stage 3 never stamps. Stage 4 completes such an entry when the datagram is copied through `skb_copy_datagram_iter`. The record then carries the zero `tcp_time` (see `Correlation.StageThreeSkipped` and `Latency.UnstampedTcpWraps`). Otherwise the entry stays until the map fills, as nothing evicts it.

## Findings

| source | as written | input that shows it | evidently intended | confidence | as-written member | corrected member |
|---|---|---|---|---|---|---|
| tcpin.py:274-275 | without `--port`, the `else` branch erases `FILTER_SPORT`; `FILTER_PORT` is never replaced, so it stays in the C text (which then does not compile), and the `--sport` branch finds no placeholder left, so no sport guard is ever inserted | any options without `--port`, e.g. `--sport 5205` alone | the `else` branch erases `FILTER_PORT`, so that every placeholder gets the guard of its option or is erased | high, not executed | Template.SubstituteAsWritten, Template.AsWrittenPortQuirk | Template.Substitute, Template.SubstitutionComplete |

The handlers in `Correlation` and `Probe` run the filters of the corrected
substitution: `Template.GuardsMeanOptions` connects those guards to
`Filters.PortsPass` and `Filters.Sampled`.
