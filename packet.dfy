/** `struct packet_tuple`, the key that correlates one TCP segment across the four
    handlers, and how each handler derives it from header bytes.

    Stage 1 (`trace_eth_type_trans`) reads the frame at fixed offsets: the IP header
    at byte 14 and the TCP header at byte 34. Stages 2 to 4 receive the IP and TCP
    headers that the socket buffer points at; here those are given as byte sequences. */
module Packet {
  import opened Bytes

  datatype PacketTuple = PacketTuple(saddr: u32, daddr: u32, sport: u16, dport: u16, seqNo: u32, ackNo: u32)

  /** The headers stages 2 to 4 locate through `skb`: the IP header and the TCP header. */
  datatype Skb = Skb(ip: seq<u8>, tcp: seq<u8>)

  /** Offset of the IP header in the frame (the Ethernet header length). */
  const IP_OFFSET: nat := 14
  /** Offset stage 1 assumes for the TCP header: an IPv4 header without options. */
  const TCP_OFFSET: nat := 34
  /** Bytes of `struct iphdr` that are read: `saddr` at 12 and `daddr` at 16. */
  const IP_READ_LEN: nat := 20
  /** Bytes of `struct tcphdr` that are read: `source` at 0, `dest` at 2, `seq` at 4, `ack_seq` at 8. */
  const TCP_READ_LEN: nat := 12
  /** Bytes of the frame stage 1 reads: up to the end of the TCP acknowledgment number. */
  const FRAME_READ_LEN: nat := 46

  /** The header bytes the handler dereferences are there to be read. */
  predicate Readable(skb: Skb)
  {
    |skb.ip| >= IP_READ_LEN && |skb.tcp| >= TCP_READ_LEN
  }

  /** `eth->h_proto`: a raw 16-bit load of frame bytes 12 and 13. */
  function EthProto(frame: seq<u8>): u16
    requires |frame| >= IP_OFFSET
  {
    LoadLE16(frame, 12)
  }

  /** Stage 1's test `protocol == 8`. */
  predicate IsIPv4(frame: seq<u8>)
    requires |frame| >= IP_OFFSET
  {
    EthProto(frame) == 8
  }

  /** On a little-endian host the test `h_proto == 8` holds exactly for the Ethernet
      type 0x0800 (IPv4) on the wire: bytes 12 and 13 are 0x08 and 0x00. */
  lemma IsIPv4IsEtherTypeIp(frame: seq<u8>)
    requires |frame| >= IP_OFFSET
    ensures IsIPv4(frame) <==> ReadBE16(frame, 12) == 0x0800
    ensures IsIPv4(frame) <==> frame[12] == 0x08 && frame[13] == 0x00
  {
    NtohsOfLoad(frame, 12);
    Digit(frame[12], frame[13]);
  }

  /** The tuple stages 2 to 4 build: addresses as raw loads (network order kept),
      ports through `ntohs`, sequence and acknowledgment numbers through `ntohl`. */
  function HeaderTuple(ip: seq<u8>, tcp: seq<u8>): (t: PacketTuple)
    requires |ip| >= IP_READ_LEN && |tcp| >= TCP_READ_LEN
    ensures t.saddr == LoadLE32(ip, 12) && t.daddr == LoadLE32(ip, 16)
    ensures t.sport == ReadBE16(tcp, 0) && t.dport == ReadBE16(tcp, 2)
    ensures t.seqNo == ReadBE32(tcp, 4) && t.ackNo == ReadBE32(tcp, 8)
  {
    NtohsOfLoad(tcp, 0);
    NtohsOfLoad(tcp, 2);
    NtohlOfLoad(tcp, 4);
    NtohlOfLoad(tcp, 8);
    PacketTuple(LoadLE32(ip, 12), LoadLE32(ip, 16),
                Ntohs(LoadLE16(tcp, 0)), Ntohs(LoadLE16(tcp, 2)),
                Ntohl(LoadLE32(tcp, 4)), Ntohl(LoadLE32(tcp, 8)))
  }

  /** The tuple stage 1 builds from the frame, reading at fixed offsets from its start.
      It is the tuple of the headers found at offsets 14 and 34. */
  function FrameTuple(frame: seq<u8>): (t: PacketTuple)
    requires |frame| >= FRAME_READ_LEN
    ensures t == HeaderTuple(frame[IP_OFFSET..], frame[TCP_OFFSET..])
  {
    LoadLE32OfSuffix(frame, IP_OFFSET, 12);
    LoadLE32OfSuffix(frame, IP_OFFSET, 16);
    LoadLE16OfSuffix(frame, TCP_OFFSET, 0);
    LoadLE16OfSuffix(frame, TCP_OFFSET, 2);
    LoadLE32OfSuffix(frame, TCP_OFFSET, 4);
    LoadLE32OfSuffix(frame, TCP_OFFSET, 8);
    PacketTuple(LoadLE32(frame, IP_OFFSET + 12), LoadLE32(frame, IP_OFFSET + 16),
                Ntohs(LoadLE16(frame, TCP_OFFSET)), Ntohs(LoadLE16(frame, TCP_OFFSET + 2)),
                Ntohl(LoadLE32(frame, TCP_OFFSET + 4)), Ntohl(LoadLE32(frame, TCP_OFFSET + 8)))
  }

  /** The correlation invariant: for a frame made of an Ethernet header, an IPv4 header
      without options and a TCP header, stage 1 derives the same key as stages 2 to 4
      derive from the IP and TCP headers of the same packet. */
  lemma SameKeyAtEveryStage(eth: seq<u8>, ip: seq<u8>, tcp: seq<u8>)
    requires |eth| == IP_OFFSET && |ip| == IP_READ_LEN && |tcp| >= TCP_READ_LEN
    ensures FrameTuple(eth + ip + tcp) == HeaderTuple(ip, tcp)
  {
    var frame := eth + ip + tcp;
    assert frame[IP_OFFSET..][..IP_READ_LEN] == ip;
    assert frame[TCP_OFFSET..] == tcp;
  }

  /** The acknowledgment number stage 4 copies into the record is the raw load
      `tcp->ack_seq`, which is the key's `ackNo` with its bytes reversed. */
  lemma RawAckIsSwappedKeyAck(ip: seq<u8>, tcp: seq<u8>)
    requires |ip| >= IP_READ_LEN && |tcp| >= TCP_READ_LEN
    ensures LoadLE32(tcp, 8) == Ntohl(HeaderTuple(ip, tcp).ackNo)
  {
    NtohlInvolutive(LoadLE32(tcp, 8));
  }
}
