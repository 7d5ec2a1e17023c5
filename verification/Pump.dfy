/**
 The user-space packet pump behind the utun device: what it answers, and that
 everything it emits verifies at the receiver (RFC 791, RFC 768, RFC 792, and
 section 3.1 of RFC 9293).
 */
module Pump {
  import opened Common
  import opened Buffers
  import opened Checksums

  const DISH: Ip4 := [192, 168, 100, 1]
  const DONGLE: Ip4 := [192, 168, 100, 2]

  const PROTO_ICMP: Byte := 1
  const PROTO_TCP: Byte := 6
  const PROTO_UDP: Byte := 17

  /** The read buffer holds 4096 bytes, 4 of which are the address family. */
  const MAX_PACKET := 4092

  /** A body sent back over TCP: at most what one read of 8192 bytes returns. */
  type Body = s: seq<Byte> | |s| <= 8192 witness []

  type Port = n: int | 0 <= n < TWO_16
  type Seq32 = n: int | 0 <= n < TWO_32

  // ---- What a receiver checks -------------------------------------------------------

  function HeaderLength(p: seq<Byte>): nat
    requires |p| >= 1
  {
    p[0] as int % 16 * 4
  }

  predicate HeaderVerifies(p: seq<Byte>) {
    |p| >= 1 && HeaderLength(p) <= |p| && Verifies(p[..HeaderLength(p)])
  }

  predicate SegmentVerifies(p: seq<Byte>, hl: nat)
    requires 20 <= |p| && hl <= |p|
  {
    if p[9] == PROTO_ICMP then Verifies(p[hl..])
    else Verifies(PseudoHeader(p[12..16], p[16..20], p[9], |p| - hl) + p[hl..])
  }

  /** Header and payload verify, the length fields are the real lengths, and UDP never says "no checksum". */
  predicate WellFormed(p: seq<Byte>) {
    && |p| >= 28 && p[0] == 0x45 && HeaderVerifies(p) && SegmentVerifies(p, 20)
    && FromBE16(p[2..4]) == |p|
    && (p[9] == PROTO_UDP ==> FromBE16(p[24..26]) == |p| - 20 && p[26..28] != [0, 0])
  }

  // ---- IPv4 header ------------------------------------------------------------------------

  /** A header without options whose checksum is still zero. */
  function Ipv4Header(total: nat, id: Port, protocol: Byte, src: Ip4, dst: Ip4): (r: seq<Byte>)
    ensures |r| == 20
  {
    [0x45, 0x00] + BE16(total % TWO_16) + BE16(id) + [0x40, 0x00, 64, protocol] + [0, 0] + src + dst
  }

  /** The identification, "don't fragment", and a time to live of 64. */
  predicate Unfragmented(p: seq<Byte>, id: Port) {
    |p| >= 20 && p[4..9] == BE16(id) + [0x40, 0x00, 64]
  }

  /** What the builders need to know about a finished header. */
  predicate HeaderFor(h: seq<Byte>, total: nat, id: Port, protocol: Byte, src: Ip4, dst: Ip4) {
    && |h| == 20 && Verifies(h) && h[0] == 0x45 && h[9] == protocol
    && h[2..4] == BE16(total % TWO_16) && Unfragmented(h, id) && h[12..16] == src && h[16..20] == dst
  }

  /** Don't fragment, TTL, protocol, and a checksum that stays zero for now. */
  method FillFlags(pkt: array<Byte>, protocol: Byte)
    requires pkt.Length >= 20 && pkt[10] == pkt[11] == 0
    modifies pkt
    ensures pkt[..12] == old(pkt[..6]) + [0x40, 0x00, 64, protocol] + [0, 0]
    ensures forall i :: 12 <= i < pkt.Length ==> pkt[i] == old(pkt[i])
  {
    pkt[6] := 0x40;
    pkt[7] := 0x00;
    pkt[8] := 64;
    pkt[9] := protocol;
  }

  method FillIpv4Fields(pkt: array<Byte>, id: Port, protocol: Byte, src: Ip4, dst: Ip4)
    requires pkt.Length >= 20 && forall i :: 0 <= i < pkt.Length ==> pkt[i] == 0
    modifies pkt
    ensures forall i :: 20 <= i < pkt.Length ==> pkt[i] == old(pkt[i])
    ensures pkt[..20] == Ipv4Header(pkt.Length, id, protocol, src, dst)
  {
    ghost var total := BE16(pkt.Length % TWO_16);
    pkt[0] := 0x45;
    pkt[1] := 0x00;
    assert pkt[..2] == [0x45, 0x00];
    Put(pkt, 2, BE16(pkt.Length % TWO_16));
    Put(pkt, 4, BE16(id));
    ghost var first := [0x45, 0x00] + total + BE16(id);
    assert pkt[..6] == first;
    FillFlags(pkt, protocol);
    Put(pkt, 12, src);
    Put(pkt, 16, dst);
  }

  /** The checksum, stored in bytes 10 and 11 of a header that holds zeros there, makes it verify. */
  lemma SealedHeader(total: nat, id: Port, protocol: Byte, src: Ip4, dst: Ip4)
    ensures var h := Ipv4Header(total, id, protocol, src, dst);
            HeaderFor(Overwrite(h, 10, BE16(0xffff - Fold(Sum(h)))), total, id, protocol, src, dst)
  {
    var h := Ipv4Header(total, id, protocol, src, dst);
    assert h[2..4] == BE16(total % TWO_16) && h[12..16] == src && h[16..20] == dst;
    assert h[4..9] == BE16(id) + [0x40, 0x00, 64];
    StoredChecksumVerifies(h, 10);
    var r := Overwrite(h, 10, BE16(0xffff - Fold(Sum(h))));
    assert r[2..4] == h[2..4] && r[4..9] == h[4..9] && r[12..16] == h[12..16] && r[16..20] == h[16..20];
  }

  /** The header every builder writes: no options, don't fragment, TTL 64, then the checksum. */
  method FillIpv4(pkt: array<Byte>, id: Port, protocol: Byte, src: Ip4, dst: Ip4)
    requires pkt.Length >= 20 && forall i :: 0 <= i < pkt.Length ==> pkt[i] == 0
    modifies pkt
    ensures pkt[20..] == old(pkt[20..])
    ensures HeaderFor(pkt[..20], pkt.Length, id, protocol, src, dst)
  {
    FillIpv4Fields(pkt, id, protocol, src, dst);
    assert pkt[20..] == old(pkt[20..]);
    ghost var header := pkt[..20];
    var c := Checksum(pkt[..20]);
    SealedHeader(pkt.Length, id, protocol, src, dst);
    Put(pkt, 10, BE16(c));
    assert pkt[..20] == Overwrite(header, 10, BE16(c));
  }

  // ---- Builders -----------------------------------------------------------------------------

  /** A TCP header without options whose checksum is still zero. */
  function TcpHeader(srcPort: Port, dstPort: Port, seqNo: Seq32, ackNo: Seq32, flags: Byte): (r: seq<Byte>)
    ensures |r| == 20
  {
    BE16(srcPort) + BE16(dstPort) + BE32(seqNo) + BE32(ackNo) + [0x50, flags] + BE16(65535) + [0, 0, 0, 0]
  }

  function UdpHeader(srcPort: Port, dstPort: Port, length: nat): (r: seq<Byte>)
    ensures |r| == 8
  {
    BE16(srcPort) + BE16(dstPort) + BE16(length % TWO_16) + [0, 0]
  }

  lemma {:induction false} TcpHeaderParts(srcPort: Port, dstPort: Port, seqNo: Seq32, ackNo: Seq32, flags: Byte)
    ensures var h := TcpHeader(srcPort, dstPort, seqNo, ackNo, flags);
            && h[..4] == BE16(srcPort) + BE16(dstPort)
            && h[4..16] == BE32(seqNo) + BE32(ackNo) + [0x50, flags] + BE16(65535)
            && h[16] == h[17] == 0
  {
  }

  method FillNumbers(pkt: array<Byte>, srcPort: Port, dstPort: Port, seqNo: Seq32, ackNo: Seq32)
    requires pkt.Length >= 40
    modifies pkt
    ensures pkt[..32] == old(pkt[..20]) + (BE16(srcPort) + BE16(dstPort) + BE32(seqNo) + BE32(ackNo))
    ensures forall i :: 32 <= i < pkt.Length ==> pkt[i] == old(pkt[i])
  {
    ghost var header := pkt[..20];
    Put(pkt, 20, BE16(srcPort));
    Put(pkt, 22, BE16(dstPort));
    Put(pkt, 24, BE32(seqNo));
    Put(pkt, 28, BE32(ackNo));
    assert pkt[..32] == header + BE16(srcPort) + BE16(dstPort) + BE32(seqNo) + BE32(ackNo);
  }

  method FillTcp(pkt: array<Byte>, srcPort: Port, dstPort: Port, seqNo: Seq32, ackNo: Seq32, flags: Byte, payload: seq<Byte>)
    requires pkt.Length == 40 + |payload| && forall i :: 20 <= i < pkt.Length ==> pkt[i] == 0
    modifies pkt
    ensures pkt[..] == old(pkt[..20]) + (TcpHeader(srcPort, dstPort, seqNo, ackNo, flags) + payload)
  {
    ghost var header := pkt[..20];
    FillNumbers(pkt, srcPort, dstPort, seqNo, ackNo);
    ghost var numbers := BE16(srcPort) + BE16(dstPort) + BE32(seqNo) + BE32(ackNo);
    pkt[32] := 0x50;
    pkt[33] := flags;
    assert pkt[..34] == header + numbers + [0x50, flags];
    Put(pkt, 34, BE16(65535));
    ghost var soFar := pkt[..36];
    assert pkt[..40] == soFar + [0, 0, 0, 0];
    Put(pkt, 40, payload);
    assert pkt[..] == pkt[..40 + |payload|];
    Regroup(header, numbers, [0x50, flags], BE16(65535), [0, 0, 0, 0], payload);
  }

  lemma Regroup(a: seq<Byte>, b: seq<Byte>, c: seq<Byte>, d: seq<Byte>, e: seq<Byte>, f: seq<Byte>)
    ensures a + b + c + d + e + f == a + (b + c + d + e + f)
  {
  }

  method FillUdp(pkt: array<Byte>, srcPort: Port, dstPort: Port, payload: seq<Byte>)
    requires pkt.Length == 28 + |payload| && forall i :: 20 <= i < pkt.Length ==> pkt[i] == 0
    modifies pkt
    ensures pkt[..] == old(pkt[..20]) + (UdpHeader(srcPort, dstPort, 8 + |payload|) + payload)
  {
    ghost var header := pkt[..20];
    Put(pkt, 20, BE16(srcPort));
    Put(pkt, 22, BE16(dstPort));
    Put(pkt, 24, BE16((8 + |payload|) % TWO_16));
    assert pkt[..26] == header + BE16(srcPort) + BE16(dstPort) + BE16((8 + |payload|) % TWO_16);
    ghost var soFar := pkt[..26];
    assert pkt[..28] == soFar + [0, 0];
    Put(pkt, 28, payload);
    assert pkt[..] == pkt[..28 + |payload|];
  }

  /** `p` carries the reply: addressed back to the sender, ports swapped, the given payload behind the two headers. */
  predicate Reply(p: seq<Byte>, client: Ip4, server: Ip4, protocol: Byte, id: Port, ports: seq<Byte>, payload: seq<Byte>) {
    var hl := if protocol == PROTO_TCP then 40 else 28;
    && |p| == hl + |payload| && p[9] == protocol && Unfragmented(p, id) && p[12..16] == server && p[16..20] == client
    && p[20..24] == ports && p[hl..] == payload
  }

  /** A verified header in front of a segment that received its own checksum makes a verified packet. */
  lemma Assemble(p: seq<Byte>, header: seq<Byte>, segment: seq<Byte>, at: nat, c: nat,
                 id: Port, protocol: Byte, src: Ip4, dst: Ip4)
    requires HeaderFor(header, 20 + |segment|, id, protocol, src, dst)
    requires protocol == PROTO_TCP || protocol == PROTO_UDP
    requires at % 2 == 0 && at + 2 <= |segment| && segment[at] == segment[at + 1] == 0 && c <= 0xffff
    requires p == header + Overwrite(segment, at, BE16(c))
    requires var folded := Fold(Sum(PseudoHeader(src, dst, protocol, |segment|)) + Sum(segment));
             c == 0xffff - folded || (folded == 0xffff && c == 0xffff)
    ensures HeaderVerifies(p) && SegmentVerifies(p, 20)
  {
    StoredSegmentChecksumVerifies(PseudoHeader(src, dst, protocol, |segment|), segment, at, c);
    assert p[..20] == header && p[20..] == Overwrite(segment, at, BE16(c));
    HeaderFields(p, header);
  }

  /** The fields of the header survive whatever is written behind it. */
  lemma HeaderFields(p: seq<Byte>, header: seq<Byte>)
    requires |p| >= 20 && p[..20] == header
    ensures p[0] == header[0] && p[9] == header[9]
    ensures p[2..4] == header[2..4] && p[4..9] == header[4..9] && p[12..16] == header[12..16] && p[16..20] == header[16..20]
  {
    assert forall i :: 0 <= i < 20 ==> p[i] == header[i];
  }

  lemma TcpParts(p: seq<Byte>, header: seq<Byte>, tcp: seq<Byte>, payload: seq<Byte>, c: nat)
    requires |header| == 20 && |tcp| == 20 && c <= 0xffff && p == header + Overwrite(tcp + payload, 16, BE16(c))
    ensures p[..20] == header && p[20..24] == tcp[..4] && p[24..36] == tcp[4..16] && p[40..] == payload
  {
  }

  lemma UdpParts(p: seq<Byte>, header: seq<Byte>, udp: seq<Byte>, payload: seq<Byte>, c: nat)
    requires |header| == 20 && |udp| == 8 && c <= 0xffff && p == header + Overwrite(udp + payload, 6, BE16(c))
    ensures p[..20] == header && p[20..24] == udp[..4] && p[24..26] == udp[4..6] && p[26..28] == BE16(c) && p[28..] == payload
  {
  }

  /** What a finished TCP packet says, given its header. */
  lemma TcpReply(p: seq<Byte>, header: seq<Byte>, tcp: seq<Byte>, payload: seq<Byte>, c: nat, id: Port, src: Ip4, dst: Ip4)
    requires |tcp| == 20 && c <= 0xffff
    requires HeaderFor(header, 40 + |payload|, id, PROTO_TCP, src, dst)
    requires p == header + Overwrite(tcp + payload, 16, BE16(c))
    ensures Reply(p, dst, src, PROTO_TCP, id, tcp[..4], payload) && p[24..36] == tcp[4..16]
  {
    TcpParts(p, header, tcp, payload, c);
    HeaderFields(p, header);
  }

  lemma UdpReply(p: seq<Byte>, header: seq<Byte>, udp: seq<Byte>, payload: seq<Byte>, c: nat, id: Port, src: Ip4, dst: Ip4)
    requires |udp| == 8 && c <= 0xffff
    requires HeaderFor(header, 28 + |payload|, id, PROTO_UDP, src, dst)
    requires p == header + Overwrite(udp + payload, 6, BE16(c))
    ensures Reply(p, dst, src, PROTO_UDP, id, udp[..4], payload)
  {
    UdpParts(p, header, udp, payload, c);
    HeaderFields(p, header);
  }

  /** The length field and the first byte of a packet with this header. */
  lemma {:induction false} LengthField(p: seq<Byte>, header: seq<Byte>, id: Port, protocol: Byte, src: Ip4, dst: Ip4)
    requires 20 <= |p| <= 0xffff && p[..20] == header && HeaderFor(header, |p|, id, protocol, src, dst)
    ensures FromBE16(p[2..4]) == |p| && p[0] == 0x45 && p[9] == protocol
  {
    HeaderFields(p, header);
    var n := |p|;
    assert n % TWO_16 == n;
    Be16RoundTrip(n);
  }

  /** A finished TCP packet verifies, given its verified header and the checksum computed for its segment. */
  lemma {:induction false} TcpWellFormed(p: seq<Byte>, header: seq<Byte>, tcp: seq<Byte>, payload: seq<Byte>, c: nat, id: Port, src: Ip4, dst: Ip4)
    requires |tcp| == 20 && c <= 0xffff && tcp[16] == tcp[17] == 0 && |payload| <= 0xffff - 40
    requires HeaderFor(header, 40 + |payload|, id, PROTO_TCP, src, dst)
    requires p == header + Overwrite(tcp + payload, 16, BE16(c))
    requires c == 0xffff - Fold(Sum(PseudoHeader(src, dst, PROTO_TCP, 20 + |payload|)) + Sum(tcp + payload))
    ensures WellFormed(p)
  {
    var segment := tcp + payload;
    assert |segment| == 20 + |payload| && segment[16] == segment[17] == 0;
    assert p[..20] == header && |p| == 40 + |payload|;
    LengthField(p, header, id, PROTO_TCP, src, dst);
    assert HeaderVerifies(p) && SegmentVerifies(p, 20) by {
      Assemble(p, header, segment, 16, c, id, PROTO_TCP, src, dst);
    }
  }

  lemma {:induction false} UdpWellFormed(p: seq<Byte>, header: seq<Byte>, udp: seq<Byte>, payload: seq<Byte>, c: nat, id: Port, src: Ip4, dst: Ip4)
    requires |udp| == 8 && 0 < c <= 0xffff && udp[6] == udp[7] == 0 && |payload| <= 0xffff - 28
    requires HeaderFor(header, 28 + |payload|, id, PROTO_UDP, src, dst)
    requires udp[4..6] == BE16((8 + |payload|) % TWO_16)
    requires p == header + Overwrite(udp + payload, 6, BE16(c))
    requires var folded := Fold(Sum(PseudoHeader(src, dst, PROTO_UDP, 8 + |payload|)) + Sum(udp + payload));
             c == if folded == 0xffff then 0xffff else 0xffff - folded
    ensures WellFormed(p)
  {
    var segment := udp + payload;
    assert |segment| == 8 + |payload| && segment[6] == segment[7] == 0;
    assert p[..20] == header && |p| == 28 + |payload|;
    LengthField(p, header, id, PROTO_UDP, src, dst);
    assert FromBE16(p[24..26]) == |p| - 20 && p[26..28] != [0, 0] by {
      UdpParts(p, header, udp, payload, c);
      Be16RoundTrip(8 + |payload|);
      Be16RoundTrip(c);
    }
    assert HeaderVerifies(p) && SegmentVerifies(p, 20) by {
      Assemble(p, header, segment, 6, c, id, PROTO_UDP, src, dst);
    }
  }

  /** One TCP reply packet; the kinds differ in identification, flags, numbers and payload. */
  method BuildTcp(client: Ip4, server: Ip4, clientPort: Port, serverPort: Port,
                  id: Port, seqNo: Seq32, ackNo: Seq32, flags: Byte, payload: seq<Byte>)
    returns (pkt: seq<Byte>)
    ensures Reply(pkt, client, server, PROTO_TCP, id, BE16(serverPort) + BE16(clientPort), payload)
    ensures pkt[24..36] == BE32(seqNo) + BE32(ackNo) + [0x50, flags] + BE16(65535)
    ensures |payload| <= 0xffff - 40 ==> WellFormed(pkt)
  {
    var buf := new Byte[40 + |payload|](_ => 0);
    FillIpv4(buf, id, PROTO_TCP, server, client);
    ghost var header := buf[..20];
    FillTcp(buf, serverPort, clientPort, seqNo, ackNo, flags, payload);
    ghost var tcp := TcpHeader(serverPort, clientPort, seqNo, ackNo, flags);
    assert buf[20..] == tcp + payload;
    assert Overwrite(tcp + payload, 16, [0, 0]) == tcp + payload;
    var c := TcpChecksum(server, client, buf[20..]);
    Put(buf, 36, BE16(c));
    pkt := buf[..];
    assert pkt == header + Overwrite(tcp + payload, 16, BE16(c));
    TcpHeaderParts(serverPort, clientPort, seqNo, ackNo, flags);
    TcpReply(pkt, header, tcp, payload, c, id, server, client);
    if |payload| <= 0xffff - 40 { TcpWellFormed(pkt, header, tcp, payload, c, id, server, client); }
  }

  method BuildUdp(client: Ip4, server: Ip4, clientPort: Port, serverPort: Port, payload: seq<Byte>)
    returns (pkt: seq<Byte>)
    ensures Reply(pkt, client, server, PROTO_UDP, 0x1237, BE16(serverPort) + BE16(clientPort), payload)
    ensures |payload| <= 0xffff - 28 ==> WellFormed(pkt)
  {
    var buf := new Byte[28 + |payload|](_ => 0);
    FillIpv4(buf, 0x1237, PROTO_UDP, server, client);
    ghost var header := buf[..20];
    FillUdp(buf, serverPort, clientPort, payload);
    ghost var udp := UdpHeader(serverPort, clientPort, 8 + |payload|);
    assert buf[20..] == udp + payload;
    assert Overwrite(udp + payload, 6, [0, 0]) == udp + payload;
    var c := UdpChecksum(server, client, buf[20..]);
    Put(buf, 26, BE16(c));
    pkt := buf[..];
    assert pkt == header + Overwrite(udp + payload, 6, BE16(c));
    assert udp[..4] == BE16(serverPort) + BE16(clientPort);
    UdpReply(pkt, header, udp, payload, c, 0x1237, server, client);
    if |payload| <= 0xffff - 28 { UdpWellFormed(pkt, header, udp, payload, c, 0x1237, server, client); }
  }

  // ---- Echo reply ------------------------------------------------------------------------------

  /** An IPv4 packet as the pump takes it: at least 20 bytes, with the header it claims inside them. */
  predicate Readable(p: seq<Byte>) {
    20 <= |p| && p[0] as int / 16 == 4 && HeaderLength(p) <= |p|
  }

  predicate IsEchoRequest(p: seq<Byte>) {
    && Readable(p) && p[9] == PROTO_ICMP && |p| >= HeaderLength(p) + 8
    && p[HeaderLength(p)] == 8 && p[HeaderLength(p) + 1] == 0
    && (p[16..20] == DISH || p[16..20] == DONGLE)
  }

  /** Source and destination swapped, the header checksum cleared. */
  function Swapped(p: seq<Byte>): (r: seq<Byte>)
    requires |p| >= 20
    ensures |r| == |p|
    ensures forall i :: 0 <= i < |p| ==>
              r[i] == if 12 <= i < 16 then p[i + 4] else if 16 <= i < 20 then p[i - 4] else if 10 <= i < 12 then 0 else p[i]
  {
    p[..10] + [0, 0] + p[16..20] + p[12..16] + p[20..]
  }

  /** The header checksum stored, summed over as many bytes as the header claims to have. */
  function EchoHeader(p: seq<Byte>): (r: seq<Byte>)
    requires Readable(p)
    ensures |r| == |p|
  {
    Overwrite(Swapped(p), 10, BE16(0xffff - Fold(Sum(Swapped(p)[..HeaderLength(p)]))))
  }

  /** Type, code and checksum of the message behind a header of `hl` bytes rewritten. */
  function EchoMessage(p: seq<Byte>, hl: nat): (r: seq<Byte>)
    requires hl + 4 <= |p|
    ensures |r| == |p| && r[..hl] == p[..hl]
  {
    var message := Overwrite(p[hl..], 0, [0, 0, 0, 0]);
    p[..hl] + Overwrite(message, 2, BE16(0xffff - Fold(Sum(message))))
  }

  function EchoReply(p: seq<Byte>): (r: seq<Byte>)
    requires IsEchoRequest(p)
    ensures |r| == |p|
  {
    EchoMessage(EchoHeader(p), HeaderLength(p))
  }

  method SwapAddresses(buf: array<Byte>, p: seq<Byte>)
    requires |p| >= 20 && buf[..] == p
    modifies buf
    ensures buf[..] == Swapped(p)
  {
    Put(buf, 12, p[16..20]);
    Put(buf, 16, p[12..16]);
    buf[10] := 0;
    buf[11] := 0;
    forall i | 0 <= i < |p| ensures buf[i] == Swapped(p)[i] {
      assert 12 <= i < 20 || buf[i] == if 10 <= i < 12 then 0 else p[i];
    }
  }

  method WriteEchoHeader(buf: array<Byte>, p: seq<Byte>)
    requires Readable(p) && |p| <= MAX_PACKET && buf[..] == p
    modifies buf
    ensures buf[..] == EchoHeader(p)
  {
    var hl := HeaderLength(p);
    SwapAddresses(buf, p);
    assert buf[..hl] == Swapped(p)[..hl];
    var c := Checksum(buf[..hl]);
    Put(buf, 10, BE16(c));
  }

  method ClearTypeAndChecksum(buf: array<Byte>, hl: nat)
    requires hl + 4 <= buf.Length
    modifies buf
    ensures buf[..hl] == old(buf[..hl]) && buf[hl..] == Overwrite(old(buf[hl..]), 0, [0, 0, 0, 0])
  {
    buf[hl] := 0;
    buf[hl + 1] := 0;
    buf[hl + 2] := 0;
    buf[hl + 3] := 0;
  }

  method StoreBehind(buf: array<Byte>, hl: nat, at: nat, t: seq<Byte>)
    requires hl + at + |t| <= buf.Length
    modifies buf
    ensures buf[..] == old(buf[..hl]) + Overwrite(old(buf[hl..]), at, t)
  {
    Put(buf, hl + at, t);
  }

  method WriteEchoMessage(buf: array<Byte>, hl: nat)
    requires hl + 4 <= buf.Length <= MAX_PACKET
    modifies buf
    ensures buf[..] == EchoMessage(old(buf[..]), hl)
  {
    ghost var p := buf[..];
    assert buf[hl..] == p[hl..] && buf[..hl] == p[..hl];
    ClearTypeAndChecksum(buf, hl);
    var c := Checksum(buf[hl..]);
    StoreBehind(buf, hl, 2, BE16(c));
  }

  method BuildEchoReply(p: seq<Byte>) returns (reply: seq<Byte>)
    requires IsEchoRequest(p) && |p| <= MAX_PACKET
    ensures reply == EchoReply(p)
  {
    var buf := new Byte[|p|](i requires 0 <= i < |p| => p[i]);
    assert buf[..] == p;
    WriteEchoHeader(buf, p);
    WriteEchoMessage(buf, HeaderLength(p));
    reply := buf[..];
  }

  /** The message of every echo reply verifies, and it is the reply to that request. */
  lemma EchoMessageVerifies(p: seq<Byte>)
    requires IsEchoRequest(p)
    ensures var r, hl := EchoReply(p), HeaderLength(p);
            && Verifies(r[hl..]) && r[hl..hl + 2] == [0, 0] && r[..hl] == EchoHeader(p)[..hl]
            && r[hl + 4..] == EchoHeader(p)[hl + 4..]
  {
    var h, hl := EchoHeader(p), HeaderLength(p);
    var message := Overwrite(h[hl..], 0, [0, 0, 0, 0]);
    var finished := Overwrite(message, 2, BE16(0xffff - Fold(Sum(message))));
    StoredChecksumVerifies(message, 2);
    assert EchoReply(p)[hl..] == finished;
    assert EchoReply(p)[hl..hl + 2] == finished[..2];
    assert EchoReply(p)[hl + 4..] == finished[4..];
  }

  lemma EchoHeaderVerifies(p: seq<Byte>)
    requires IsEchoRequest(p) && HeaderLength(p) >= 12
    ensures HeaderVerifies(EchoReply(p)) && HeaderLength(EchoReply(p)) == HeaderLength(p) && EchoReply(p)[9] == PROTO_ICMP
  {
    var hl := HeaderLength(p);
    var header := Swapped(p)[..hl];
    StoredChecksumVerifies(header, 10);
    EchoMessageVerifies(p);
    var r := EchoReply(p);
    assert EchoHeader(p)[..hl] == Overwrite(header, 10, BE16(0xffff - Fold(Sum(header))));
    assert r[..hl][0] == r[0] && r[..hl][9] == r[9];
  }

  /** With a real header (no shorter than 20 bytes) the reply returns the data to the sender and keeps its length fields. */
  lemma {:induction false} EchoReturnsData(p: seq<Byte>)
    requires IsEchoRequest(p) && HeaderLength(p) >= 20
    ensures var r := EchoReply(p);
            && r[HeaderLength(p) + 4..] == p[HeaderLength(p) + 4..]
            && r[12..16] == p[16..20] && r[16..20] == p[12..16] && r[2..4] == p[2..4]
  {
    hide Fold, Sum, EchoMessage;
    EchoMessageVerifies(p);
    var hl, r, h := HeaderLength(p), EchoReply(p), EchoHeader(p);
    assert h[hl + 4..] == p[hl + 4..];
    assert forall i :: 0 <= i < hl ==> r[i] == r[..hl][i] == h[..hl][i] == h[i];
  }

  /**
   The header length is taken from the packet without a lower bound.  The reply's header verifies unless that
   length is 4: then the sum covers four bytes that hold no checksum field, and they must have verified already.
   (A header of 0 or 8 bytes cannot be an echo request, because its type or code byte would have to equal the
   version or protocol byte.)
   */
  lemma EchoHeaderVerifiesIff(p: seq<Byte>)
    requires IsEchoRequest(p)
    ensures HeaderVerifies(EchoReply(p)) <==> HeaderLength(p) != 4 || Verifies(p[..4])
  {
    if HeaderLength(p) != 4 {
      EchoHeaderVerifies(p);
    } else {
      var r := EchoReply(p);
      EchoMessageVerifies(p);
      assert r[..4] == EchoHeader(p)[..4] == p[..4];
      assert r[0] == r[..4][0] == p[0];
    }
  }

  /** Such a request: its four bytes do not verify. */
  lemma ShortHeaderFails() returns (p: seq<Byte>)
    ensures IsEchoRequest(p) && HeaderLength(p) == 4 && !HeaderVerifies(EchoReply(p))
  {
    p := [0x41, 0, 0, 0, 8, 0, 0, 0, 0, PROTO_ICMP, 0, 0, 10, 0, 0, 1] + DISH;
    assert p[16..20] == DISH;
    EchoHeaderVerifiesIff(p);
    assert p[..4] == [0x41, 0, 0, 0];
    assert SumFrom(p[..4], 2) == 0;
  }

  /** For a given header length, all echo replies have a verifying header if and only if that length is not 4. */
  lemma EchoHeaderVerifiesExactly(hl: nat)
    requires hl % 4 == 0 && hl <= 60
    ensures (forall p :: IsEchoRequest(p) && HeaderLength(p) == hl ==> HeaderVerifies(EchoReply(p))) <==> hl != 4
  {
    if hl != 4 {
      forall p | IsEchoRequest(p) && HeaderLength(p) == hl ensures HeaderVerifies(EchoReply(p)) {
        EchoHeaderVerifies(p);
      }
    } else {
      var p := ShortHeaderFails();
    }
  }

  // ---- The pump ----------------------------------------------------------------------------------

  /** What the world outside answers while one packet is handled. */
  datatype World = World(
    proxied: Option<Body>,      // bytes read from the real terminal, if it answers
    grpcWeb: Option<Body>,      // the gRPC-Web answer, if the request is one
    fallback: Body,             // the fixed answer to other requests on port 9200
    portal: Body,               // the fixed answer on every other port
    ntpTime: seq<Byte>,         // the eight bytes of the transmit timestamp
    writeOk: bool)              // whether the utun device takes the frames

  /** What the pump decides to send, before any byte is laid out. */
  datatype Intent =
    | TcpOut(id: Port, seqNo: Seq32, ackNo: Seq32, flags: Byte, payload: seq<Byte>)
    | UdpOut(payload: seq<Byte>)
    | EchoOut

  const DNS_ANSWER: seq<Byte> :=
    [0xc0, 0x0c, 0x00, 0x01, 0x00, 0x01, 0x00, 0x00, 0x00, 0x3c, 0x00, 0x04, 192, 168, 100, 1]

  predicate ToUs(p: seq<Byte>)
    requires |p| >= 20
  {
    p[16..20] == DISH || p[16..20] == DONGLE
  }

  function DnsResponse(query: seq<Byte>): seq<Byte>
    requires |query| >= 12
  {
    Overwrite(Overwrite(query, 2, [0x81, 0x80]), 6, [0x00, 0x01]) + DNS_ANSWER
  }

  function NtpResponse(request: seq<Byte>, now: seq<Byte>): seq<Byte>
    requires |request| >= 48 && |now| == 8
  {
    [0x24, 2, 6, 0xEC] + [0, 0, 0, 0, 0, 0, 0, 0, 0, 0, 0, 0, 0, 0, 0, 0, 0, 0, 0, 0] + request[40..48]
    + [0, 0, 0, 0, 0, 0, 0, 0] + now
  }

  function TcpIntents(p: seq<Byte>, w: World): seq<Intent>
    requires Readable(p)
  {
    var hl := HeaderLength(p);
    if |p| < hl + 20 || !ToUs(p) then []
    else
      var clientSeq := FromBE32(p[hl + 4..hl + 8]);
      var flags := p[hl + 13] as int;
      var syn, ack, fin := flags / 2 % 2 == 1, flags / 16 % 2 == 1, flags % 2 == 1;
      var dataOffset := p[hl + 12] as int / 16 * 4;
      var payload := if |p| - hl > dataOffset then p[hl + dataOffset..] else [];
      if syn && !ack then [TcpOut(0x1234, 2000000, (clientSeq + 1) % TWO_32, 0x12, [])]
      else if payload != [] then
        var body :=
          if FromBE16(p[hl + 2..hl + 4]) != 9200 then w.portal
          else if w.proxied.Some? then w.proxied.value
          else if w.grpcWeb.Some? then w.grpcWeb.value
          else w.fallback;
        var ackNo := (clientSeq + |payload|) % TWO_32;
        [TcpOut(0x1235, 2000001, ackNo, 0x18, body),
         TcpOut(0x1237, (2000001 + |body|) % TWO_32, ackNo, 0x11, [])]
      else if fin then [TcpOut(0x1236, 2000001, (clientSeq + 1) % TWO_32, 0x10, [])]
      else []
  }

  function UdpIntents(p: seq<Byte>, w: World): seq<Intent>
    requires Readable(p) && |w.ntpTime| == 8
  {
    var hl := HeaderLength(p);
    if |p| < hl + 8 then []
    else
      var udpLen := FromBE16(p[hl + 4..hl + 6]);
      if |p| - hl < udpLen || udpLen < 8 then []
      else
        var dstPort := FromBE16(p[hl + 2..hl + 4]);
        var payload := p[hl + 8..hl + udpLen];
        if dstPort == 53 && |payload| >= 12 then [UdpOut(DnsResponse(payload))]
        else if dstPort == 123 && |payload| >= 48 then [UdpOut(NtpResponse(payload, w.ntpTime))]
        else if ToUs(p) then [UdpOut(payload)]
        else []
  }

  function Intents(p: seq<Byte>, w: World): seq<Intent>
    requires Readable(p) && |w.ntpTime| == 8
  {
    if p[9] == PROTO_TCP then TcpIntents(p, w)
    else if p[9] == PROTO_UDP then UdpIntents(p, w)
    else if IsEchoRequest(p) then [EchoOut]
    else []
  }

  /** The frame carries `intent` as the answer to the packet `p`, behind the address-family prefix. */
  predicate Realizes(frame: seq<Byte>, intent: Intent, p: seq<Byte>) {
    && Readable(p) && |frame| >= 24 && frame[..4] == [0, 0, 0, 2]
    && var hl := HeaderLength(p);
       match intent
       case EchoOut => IsEchoRequest(p) && frame[4..] == EchoReply(p)
       case UdpOut(payload) =>
         && |p| >= hl + 4 && WellFormed(frame[4..])
         && Reply(frame[4..], p[12..16], p[16..20], PROTO_UDP, 0x1237, p[hl + 2..hl + 4] + p[hl..hl + 2], payload)
       case TcpOut(id, seqNo, ackNo, flags, payload) =>
         && |p| >= hl + 4 && WellFormed(frame[4..])
         && Reply(frame[4..], p[12..16], p[16..20], PROTO_TCP, id, p[hl + 2..hl + 4] + p[hl..hl + 2], payload)
         && frame[28..40] == BE32(seqNo) + BE32(ackNo) + [0x50, flags] + BE16(65535)
  }

  /** The frames written since `before` are one realisation of each intent, in order. */
  ghost predicate Answered(before: seq<seq<Byte>>, after: seq<seq<Byte>>, intents: seq<Intent>, p: seq<Byte>) {
    && |after| == |before| + |intents| && after[..|before|] == before
    && forall k :: 0 <= k < |intents| ==> Realizes(after[|before| + k], intents[k], p)
  }

  lemma AnsweredOne(before: seq<seq<Byte>>, after: seq<seq<Byte>>, intents: seq<Intent>, p: seq<Byte>,
                    later: seq<seq<Byte>>, intent: Intent)
    requires Answered(before, after, intents, p) && Answered(after, later, [intent], p)
    ensures Answered(before, later, intents + [intent], p)
  {
    assert later[..|before|] == later[..|after|][..|before|];
    forall k | 0 <= k < |intents| ensures Realizes(later[|before| + k], intents[k], p) {
      assert later[|before| + k] == later[..|after|][|before| + k];
    }
    assert Realizes(later[|after| + 0], [intent][0], p);
  }

  /** A SYN without ACK for the dish; `p` is a TCP packet. */
  predicate SynToDish(p: seq<Byte>)
    requires Readable(p)
  {
    var hl := HeaderLength(p);
    hl + 20 <= |p| && p[hl + 13] as int / 2 % 2 == 1 && p[hl + 13] as int / 16 % 2 == 0 && p[16..20] == DISH
  }

  /** Every payload the pump can decide to send fits the 16-bit length fields. */
  lemma IntentsFit(p: seq<Byte>, w: World, k: nat)
    requires Readable(p) && |p| <= MAX_PACKET && |w.ntpTime| == 8 && k < |Intents(p, w)|
    ensures match Intents(p, w)[k]
            case TcpOut(_, _, _, _, payload) => |payload| <= 0xffff - 40
            case UdpOut(payload) => |payload| <= 0xffff - 28
            case EchoOut => true
  {
  }

  // ---- What the receivers of the answers find ----------------------------------------------

  /** Header and payload both verify at the receiver. */
  predicate Verified(frame: seq<Byte>) {
    && |frame| >= 24 && HeaderVerifies(frame[4..]) && SegmentVerifies(frame[4..], HeaderLength(frame[4..]))
  }

  /** An ICMP packet that claims a header of four bytes, and those four do not verify. */
  predicate Headless(p: seq<Byte>)
    requires |p| >= 20
  {
    p[9] == PROTO_ICMP && HeaderLength(p) == 4 && !Verifies(p[..4])
  }

  lemma EchoVerifiesIff(p: seq<Byte>, frame: seq<Byte>)
    requires Realizes(frame, EchoOut, p)
    ensures Verified(frame) <==> !Headless(p)
  {
    var r := EchoReply(p);
    EchoHeaderVerifiesIff(p);
    EchoMessageVerifies(p);
    if HeaderLength(p) == 4 {
      assert r[..4] == EchoHeader(p)[..4] == p[..4];
      assert r[0] == r[..4][0] == p[0];
      assert r[8..][1] == EchoHeader(p)[8..][1] == p[9];
    } else {
      EchoHeaderVerifies(p);
    }
  }

  /** Only ICMP packets are answered with an echo, and they with nothing else. */
  lemma {:induction false} EchoesAnswerIcmp(p: seq<Byte>, w: World, k: nat)
    requires Readable(p) && |w.ntpTime| == 8 && k < |Intents(p, w)|
    ensures Intents(p, w)[k].EchoOut? <==> p[9] == PROTO_ICMP
  {
  }

  lemma {:induction false} WellFormedVerifies(frame: seq<Byte>)
    requires |frame| >= 24 && WellFormed(frame[4..])
    ensures Verified(frame)
  {
    assert HeaderLength(frame[4..]) == 20;
  }

  lemma {:induction false} RealizedVerifiesIff(p: seq<Byte>, intent: Intent, frame: seq<Byte>)
    requires Realizes(frame, intent, p) && (intent.EchoOut? <==> p[9] == PROTO_ICMP)
    ensures Verified(frame) <==> !Headless(p)
  {
    if intent.EchoOut? { EchoVerifiesIff(p, frame); } else { WellFormedVerifies(frame); }
  }

  /**
   Every answer to a packet verifies at its receiver, whatever the packet is, except to an ICMP packet with a
   four-byte header that does not verify itself.
   */
  lemma {:induction false} EmittedFramesVerify(before: seq<seq<Byte>>, after: seq<seq<Byte>>, p: seq<Byte>, w: World)
    requires Readable(p) && |w.ntpTime| == 8 && Answered(before, after, Intents(p, w), p)
    ensures forall k :: |before| <= k < |after| ==> (Verified(after[k]) <==> !Headless(p))
  {
    forall k | |before| <= k < |after| ensures Verified(after[k]) <==> !Headless(p) {
      var i := k - |before|;
      assert Realizes(after[|before| + i], Intents(p, w)[i], p);
      EchoesAnswerIcmp(p, w, i);
      RealizedVerifiesIff(p, Intents(p, w)[i], after[k]);
    }
  }

  // ---- What the client reads ------------------------------------------------------------------

  /** A TCP segment as any stack takes it from an IPv4 packet. */
  datatype Segment = Segment(ports: seq<Byte>, seqNo: Seq32, ackNo: Seq32, flags: Byte, payload: seq<Byte>)

  function SegmentOf(p: seq<Byte>): Segment
    requires Readable(p) && HeaderLength(p) + 20 <= |p|
  {
    var t := p[HeaderLength(p)..];
    var offset := t[12] as int / 16 * 4;
    Segment(t[..4], FromBE32(t[4..8]), FromBE32(t[8..12]), t[13], if offset < |t| then t[offset..] else [])
  }

  predicate Fin(s: Segment) { s.flags as int % 2 == 1 }

  predicate Syn(s: Segment) { s.flags as int / 2 % 2 == 1 }

  predicate Ack(s: Segment) { s.flags as int / 16 % 2 == 1 }

  function Plus(seqNo: Seq32, n: nat): Seq32 { (seqNo + n) % TWO_32 }

  /** Where the stream goes on behind a segment: SYN and FIN take a number each. */
  function After(s: Segment): Seq32 {
    Plus(s.seqNo, |s.payload| + (if Syn(s) then 1 else 0) + (if Fin(s) then 1 else 0))
  }

  /** A frame for the sender of `p`: the addresses swapped, and this segment with the ports swapped. */
  predicate RepliesTcp(frame: seq<Byte>, p: seq<Byte>, seqNo: Seq32, ackNo: Seq32, flags: Byte, payload: seq<Byte>) {
    && 44 <= |frame| && Readable(p) && HeaderLength(p) + 4 <= |p| && frame[..4] == [0, 0, 0, 2]
    && var q, ports := frame[4..], p[HeaderLength(p)..HeaderLength(p) + 4];
    && Readable(q) && q[9] == PROTO_TCP && HeaderLength(q) == 20 && q[12..16] == p[16..20] && q[16..20] == p[12..16]
    && SegmentOf(q) == Segment(ports[2..] + ports[..2], seqNo, ackNo, flags, payload)
  }

  /** What is sent for data: on port 9200 what the terminal says, else the gRPC-Web answer, else the fixed one. */
  function BodyFor(port: nat, w: World): Body {
    if port == 9200 then
      match (w.proxied, w.grpcWeb)
      case (Some(body), _) => body
      case (None, Some(body)) => body
      case (None, None) => w.fallback
    else w.portal
  }

  /** The answer to data: a body and behind it a FIN, both acknowledging the data. */
  predicate DataAnswer(frames: seq<seq<Byte>>, p: seq<Byte>, s: Segment, body: seq<Byte>) {
    && |frames| == 2
    && RepliesTcp(frames[0], p, 2000001, Plus(s.seqNo, |s.payload|), 0x18, body)
    && RepliesTcp(frames[1], p, Plus(2000001, |body|), Plus(s.seqNo, |s.payload|), 0x11, [])
  }

  /** The answer to a TCP packet, from the bytes of both. */
  predicate TcpRight(frames: seq<seq<Byte>>, p: seq<Byte>, w: World)
    requires Readable(p)
  {
    if |p| < HeaderLength(p) + 20 || (p[16..20] != [192, 168, 100, 1] && p[16..20] != [192, 168, 100, 2]) then frames == []
    else
      var s := SegmentOf(p);
      if Syn(s) && !Ack(s) then |frames| == 1 && RepliesTcp(frames[0], p, 2000000, Plus(s.seqNo, 1), 0x12, [])
      else if s.payload != [] then DataAnswer(frames, p, s, BodyFor(FromBE16(s.ports[2..]), w))
      else if Fin(s) then |frames| == 1 && RepliesTcp(frames[0], p, 2000001, Plus(s.seqNo, 1), 0x10, [])
      else frames == []
  }

  /** A UDP datagram to the sender of `p`, with the ports swapped. */
  predicate RepliesUdp(frame: seq<Byte>, p: seq<Byte>, payload: seq<Byte>) {
    && |frame| == 32 + |payload| && Readable(p) && HeaderLength(p) + 4 <= |p| && frame[..4] == [0, 0, 0, 2]
    && var q, ports := frame[4..], p[HeaderLength(p)..HeaderLength(p) + 4];
    && Readable(q) && q[9] == PROTO_UDP && HeaderLength(q) == 20 && q[12..16] == p[16..20] && q[16..20] == p[12..16]
    && q[20..24] == ports[2..] + ports[..2] && FromBE16(q[24..26]) == 8 + |payload| && q[28..] == payload
  }

  /** A DNS response (section 4 of RFC 1035): the query's number and question, and one address record for the dish. */
  predicate DnsAnswers(r: seq<Byte>, query: seq<Byte>) {
    && |query| >= 12 && |r| == |query| + 16
    && r[..2] == query[..2] && r[2..4] == [0x81, 0x80] && r[4..6] == query[4..6] && r[6..8] == [0, 1] && r[8..|query|] == query[8..]
    && r[|query|..] == [0xc0, 12, 0, 1, 0, 1, 0, 0, 0, 60, 0, 4, 192, 168, 100, 1]
  }

  /** An NTP response (section 7.3 of RFC 5905): the request's transmit time as originate time, and the time now. */
  predicate NtpAnswers(r: seq<Byte>, request: seq<Byte>, now: seq<Byte>) {
    && |request| >= 48 && |r| == 48
    && r[..4] == [0x24, 2, 6, 0xEC] && r[24..32] == request[40..48] && r[40..48] == now
    && (forall i :: 4 <= i < 40 && !(24 <= i < 32) ==> r[i] == 0)
  }

  /** The answer to a UDP packet, from the bytes of both. */
  predicate UdpRight(frames: seq<seq<Byte>>, p: seq<Byte>, w: World)
    requires Readable(p)
  {
    var u := p[HeaderLength(p)..];
    if |u| < 8 || FromBE16(u[4..6]) < 8 || |u| < FromBE16(u[4..6]) then frames == []
    else
      var port, d := FromBE16(u[2..4]), u[8..FromBE16(u[4..6])];
      if port == 53 && |d| >= 12 then |frames| == 1 && |frames[0]| >= 32 && RepliesUdp(frames[0], p, frames[0][32..]) && DnsAnswers(frames[0][32..], d)
      else if port == 123 && |d| >= 48 then
        |frames| == 1 && |frames[0]| >= 32 && RepliesUdp(frames[0], p, frames[0][32..]) && NtpAnswers(frames[0][32..], d, w.ntpTime)
      else if p[16..20] == [192, 168, 100, 1] || p[16..20] == [192, 168, 100, 2] then |frames| == 1 && RepliesUdp(frames[0], p, d)
      else frames == []
  }

  /** The answer to a packet: an echo reply to an echo request, and nothing to a protocol that is not known. */
  predicate RightAnswer(frames: seq<seq<Byte>>, p: seq<Byte>, w: World)
    requires Readable(p)
  {
    if p[9] == 6 then TcpRight(frames, p, w)
    else if p[9] == 17 then UdpRight(frames, p, w)
    else if IsEchoRequest(p) then frames == [[0, 0, 0, 2] + EchoReply(p)]
    else frames == []
  }

  lemma {:induction false} Be32RoundTrip(n: nat)
    requires n < TWO_32
    ensures FromBE32(BE32(n)) == n
  {
    var b := BE32(n);
    assert b[..2] == [n / 0x100_0000, n / 0x1_0000 % 256] && b[2..] == [n / 256 % 256, n % 256];
  }

  lemma {:induction false} TcpRealized(frame: seq<Byte>, p: seq<Byte>, id: Port, seqNo: Seq32, ackNo: Seq32, flags: Byte, payload: seq<Byte>)
    requires Realizes(frame, TcpOut(id, seqNo, ackNo, flags, payload), p)
    ensures RepliesTcp(frame, p, seqNo, ackNo, flags, payload)
  {
    hide HeaderVerifies, SegmentVerifies, BE32, FromBE32, FromBE16, Unfragmented;
    var q, ports, t := frame[4..], p[HeaderLength(p)..HeaderLength(p) + 4], frame[24..];
    assert q[0] == 0x45 && q[20..] == t;
    assert t[..4] == q[20..24] && ports[2..] + ports[..2] == p[HeaderLength(p) + 2..HeaderLength(p) + 4] + p[HeaderLength(p)..HeaderLength(p) + 2];
    var fixed := BE32(seqNo) + BE32(ackNo) + [0x50, flags] + BE16(65535);
    assert t[4..8] == frame[28..40][..4] == fixed[..4] == BE32(seqNo);
    assert t[8..12] == frame[32..36] == frame[28..40][4..8];
    assert fixed[4..8] == BE32(ackNo);
    assert t[12] == frame[28..40][8] == fixed[8] && t[13] == frame[28..40][9] == fixed[9];
    assert t[20..] == q[40..];
    Be32RoundTrip(seqNo);
    Be32RoundTrip(ackNo);
  }

  lemma {:induction false} UdpRealized(frame: seq<Byte>, p: seq<Byte>, payload: seq<Byte>)
    requires Realizes(frame, UdpOut(payload), p)
    ensures RepliesUdp(frame, p, payload) && frame[32..] == payload
  {
    hide HeaderVerifies, SegmentVerifies, FromBE16, Unfragmented;
    var q, ports := frame[4..], p[HeaderLength(p)..HeaderLength(p) + 4];
    assert q[0] == 0x45 && q[28..] == frame[32..];
    assert ports[2..] + ports[..2] == p[HeaderLength(p) + 2..HeaderLength(p) + 4] + p[HeaderLength(p)..HeaderLength(p) + 2];
  }

  lemma {:induction false} SegmentFields(p: seq<Byte>)
    requires Readable(p) && HeaderLength(p) + 20 <= |p|
    ensures var s, hl, offset := SegmentOf(p), HeaderLength(p), p[HeaderLength(p) + 12] as int / 16 * 4;
            && s.seqNo == FromBE32(p[hl + 4..hl + 8]) && s.ports[2..] == p[hl + 2..hl + 4] && s.flags == p[hl + 13]
            && s.payload == if |p| - hl > offset then p[hl + offset..] else []
  {
    hide FromBE32, FromBE16;
    var hl, t := HeaderLength(p), p[HeaderLength(p)..];
    assert t[4..8] == p[hl + 4..hl + 8] && t[..4][2..] == p[hl + 2..hl + 4];
    assert t[12] == p[hl + 12] && t[13] == p[hl + 13];
    var offset := t[12] as int / 16 * 4;
    assert offset < |t| ==> t[offset..] == p[hl + offset..];
  }

  /** The decision for a TCP packet, read off its segment. */
  lemma {:induction false} TcpDecision(p: seq<Byte>, w: World)
    requires Readable(p) && HeaderLength(p) + 20 <= |p| && ToUs(p)
    ensures var s := SegmentOf(p);
            TcpIntents(p, w) ==
              if Syn(s) && !Ack(s) then [TcpOut(0x1234, 2000000, Plus(s.seqNo, 1), 0x12, [])]
              else if s.payload != [] then
                var body, ackNo := BodyFor(FromBE16(s.ports[2..]), w), Plus(s.seqNo, |s.payload|);
                [TcpOut(0x1235, 2000001, ackNo, 0x18, body), TcpOut(0x1237, Plus(2000001, |body|), ackNo, 0x11, [])]
              else if Fin(s) then [TcpOut(0x1236, 2000001, Plus(s.seqNo, 1), 0x10, [])]
              else []
  {
    hide FromBE32, FromBE16, SegmentOf, Readable, HeaderLength;
    SegmentFields(p);
  }

  lemma {:induction false} TcpSent(before: seq<seq<Byte>>, after: seq<seq<Byte>>, intents: seq<Intent>, p: seq<Byte>, k: nat)
    requires Answered(before, after, intents, p) && k < |intents| && intents[k].TcpOut?
    ensures RepliesTcp(after[|before|..][k], p, intents[k].seqNo, intents[k].ackNo, intents[k].flags, intents[k].payload)
  {
    hide Realizes, RepliesTcp;
    assert Realizes(after[|before| + k], intents[k], p) && after[|before|..][k] == after[|before| + k];
    TcpRealized(after[|before| + k], p, intents[k].id, intents[k].seqNo, intents[k].ackNo, intents[k].flags, intents[k].payload);
  }

  /** What the pump means to send for a TCP packet is right. */
  lemma {:induction false} TcpIsRight(before: seq<seq<Byte>>, after: seq<seq<Byte>>, p: seq<Byte>, w: World)
    requires Readable(p) && Answered(before, after, TcpIntents(p, w), p)
    ensures TcpRight(after[|before|..], p, w)
  {
    hide Realizes, RepliesTcp, SegmentOf, Plus, BodyFor, FromBE16;
    var intents := TcpIntents(p, w);
    if HeaderLength(p) + 20 <= |p| && ToUs(p) {
      hide TcpIntents;
      TcpDecision(p, w);
      if |intents| > 0 { TcpSent(before, after, intents, p, 0); }
      if |intents| > 1 { TcpSent(before, after, intents, p, 1); }
    }
  }

  lemma {:induction false} DnsIsRight(query: seq<Byte>)
    requires |query| >= 12
    ensures DnsAnswers(DnsResponse(query), query)
  {
  }

  lemma {:induction false} NtpIsRight(request: seq<Byte>, now: seq<Byte>)
    requires |request| >= 48 && |now| == 8
    ensures NtpAnswers(NtpResponse(request, now), request, now)
  {
  }

  lemma {:induction false} UdpDecision(p: seq<Byte>, w: World)
    requires Readable(p) && |w.ntpTime| == 8
    ensures var u := p[HeaderLength(p)..];
            UdpIntents(p, w) ==
              if |u| < 8 || FromBE16(u[4..6]) < 8 || |u| < FromBE16(u[4..6]) then []
              else
                var port, d := FromBE16(u[2..4]), u[8..FromBE16(u[4..6])];
                if port == 53 && |d| >= 12 then [UdpOut(DnsResponse(d))]
                else if port == 123 && |d| >= 48 then [UdpOut(NtpResponse(d, w.ntpTime))]
                else if ToUs(p) then [UdpOut(d)]
                else []
  {
    hide FromBE16, DnsResponse, NtpResponse;
    var hl, u := HeaderLength(p), p[HeaderLength(p)..];
    if |u| >= 8 {
      assert u[4..6] == p[hl + 4..hl + 6] && u[2..4] == p[hl + 2..hl + 4];
      var n := FromBE16(u[4..6]);
      if 8 <= n <= |u| { assert u[8..n] == p[hl + 8..hl + n]; }
    }
  }

  lemma {:induction false} UdpIsRight(before: seq<seq<Byte>>, after: seq<seq<Byte>>, p: seq<Byte>, w: World)
    requires Readable(p) && |w.ntpTime| == 8 && Answered(before, after, UdpIntents(p, w), p)
    ensures UdpRight(after[|before|..], p, w)
  {
    hide Realizes, RepliesUdp, FromBE16, DnsAnswers, NtpAnswers, DnsResponse, NtpResponse, UdpIntents;
    var u, intents, frames := p[HeaderLength(p)..], UdpIntents(p, w), after[|before|..];
    UdpDecision(p, w);
    if |intents| == 1 {
      assert Realizes(after[|before| + 0], intents[0], p) && frames[0] == after[|before|];
      UdpRealized(frames[0], p, intents[0].payload);
      RepliesUdpLength(frames[0], p, intents[0].payload);
      var d := u[8..FromBE16(u[4..6])];
      if |d| >= 12 { DnsIsRight(d); }
      if |d| >= 48 { NtpIsRight(d, w.ntpTime); }
    }
  }

  lemma RepliesUdpLength(frame: seq<Byte>, p: seq<Byte>, payload: seq<Byte>)
    requires RepliesUdp(frame, p, payload)
    ensures |frame| == 32 + |payload|
  {
  }

  lemma {:induction false} EchoIsRight(frame: seq<Byte>, p: seq<Byte>)
    requires Realizes(frame, EchoOut, p)
    ensures frame == [0, 0, 0, 2] + EchoReply(p)
  {
    assert frame == frame[..4] + frame[4..];
  }

  /** What the pump means to send for a packet is right. */
  lemma {:induction false} AnswersAreRight(before: seq<seq<Byte>>, after: seq<seq<Byte>>, p: seq<Byte>, w: World)
    requires Readable(p) && |w.ntpTime| == 8 && Answered(before, after, Intents(p, w), p)
    ensures after == before + after[|before|..] && RightAnswer(after[|before|..], p, w)
  {
    hide TcpIntents, UdpIntents, TcpRight, UdpRight, EchoReply, Realizes, IsEchoRequest;
    var frames := after[|before|..];
    if p[9] == PROTO_TCP { TcpIsRight(before, after, p, w); }
    else if p[9] == PROTO_UDP { UdpIsRight(before, after, p, w); }
    else if IsEchoRequest(p) {
      assert Realizes(after[|before| + 0], [EchoOut][0], p) && frames == [after[|before|]];
      EchoIsRight(after[|before|], p);
    }
  }

  lemma AnsweredNothing(before: seq<seq<Byte>>, after: seq<seq<Byte>>, p: seq<Byte>)
    ensures Answered(before, after, [], p) <==> after == before
  {
  }

  lemma {:induction false} IsIpv4Family(prefix: seq<Byte>)
    requires |prefix| == 4
    ensures FromBE32(prefix) == 2 <==> prefix == [0, 0, 0, 2]
  {
  }

  /**
   A conversation reads as one stream: the answer to the SYN acknowledges all of it, the answer to the data that follows
   goes on where that one ended, the FIN goes on where the body ended, and both acknowledge all the data.
   */
  lemma {:induction false} ConversationIsInOrder(syn: seq<Byte>, data: seq<Byte>, toSyn: seq<seq<Byte>>, toData: seq<seq<Byte>>, w: World, v: World)
    requires Readable(syn) && HeaderLength(syn) + 20 <= |syn| && ToUs(syn) && syn[9] == PROTO_TCP && RightAnswer(toSyn, syn, w)
    requires Readable(data) && HeaderLength(data) + 20 <= |data| && ToUs(data) && data[9] == PROTO_TCP && RightAnswer(toData, data, v)
    requires var a := SegmentOf(syn); Syn(a) && !Ack(a) && !Fin(a) && a.payload == []
    requires var b := SegmentOf(data); !Syn(b) && !Fin(b) && b.payload != []
    ensures |toSyn| == 1 && |toData| == 2
    ensures 44 <= |toSyn[0]| && 44 <= |toData[0]| && 44 <= |toData[1]|
    ensures Readable(toSyn[0][4..]) && Readable(toData[0][4..]) && Readable(toData[1][4..])
    ensures HeaderLength(toSyn[0][4..]) == HeaderLength(toData[0][4..]) == HeaderLength(toData[1][4..]) == 20
    ensures var x, y, z := SegmentOf(toSyn[0][4..]), SegmentOf(toData[0][4..]), SegmentOf(toData[1][4..]);
            && Syn(x) && Ack(x) && !Fin(x) && x.ackNo == After(SegmentOf(syn))
            && !Syn(y) && Ack(y) && !Fin(y) && y.seqNo == After(x) && y.ackNo == After(SegmentOf(data))
            && !Syn(z) && Ack(z) && Fin(z) && z.seqNo == After(y) && z.ackNo == After(SegmentOf(data))
  {
    hide SegmentOf, Readable, HeaderLength;
  }

  /**
   The answer to a FIN goes on where the answer to the SYN ended, which is not where the stream is after an answer to
   data: a client that closes after its data is answered gets an acknowledgement with an old number.
   */
  lemma {:induction false} LateFinAnswerIsOld(fin: seq<Byte>, toFin: seq<seq<Byte>>, data: seq<Byte>, toData: seq<seq<Byte>>, w: World, body: Body)
    requires Readable(fin) && HeaderLength(fin) + 20 <= |fin| && ToUs(fin) && fin[9] == PROTO_TCP && RightAnswer(toFin, fin, w)
    requires var a := SegmentOf(fin); !Syn(a) && Fin(a) && a.payload == []
    requires Readable(data) && HeaderLength(data) + 20 <= |data| && DataAnswer(toData, data, SegmentOf(data), body)
    ensures |toFin| == 1 && |toFin[0]| >= 44 && Readable(toFin[0][4..]) && HeaderLength(toFin[0][4..]) == 20
    ensures |toData[1]| >= 44 && Readable(toData[1][4..]) && HeaderLength(toData[1][4..]) == 20
    ensures var x, z := SegmentOf(toFin[0][4..]), SegmentOf(toData[1][4..]);
            Ack(x) && !Fin(x) && x.ackNo == After(SegmentOf(fin)) && x.seqNo != After(z)
  {
    hide SegmentOf, Readable, HeaderLength;
  }

  class PacketPump {
    var emitted: seq<seq<Byte>>   // every frame handed to the utun device
    var bytesOut: nat
    var packetsOut: nat
    var bytesIn: nat
    var packetsIn: nat
    var ipv4: nat
    var ipv6: nat
    var other: nat
    var icmp: nat
    var tcp: nat
    var udp: nat
    var otherL4: nat
    var synToDish: nat

    constructor ()
      ensures emitted == [] && bytesOut == packetsOut == bytesIn == packetsIn == 0
    {
      emitted := [];
      bytesOut, packetsOut, bytesIn, packetsIn := 0, 0, 0, 0;
      ipv4, ipv6, other, icmp, tcp, udp, otherL4, synToDish := 0, 0, 0, 0, 0, 0, 0, 0;
    }

    method WriteUtunFrame(pkt: seq<Byte>, writeOk: bool)
      modifies `emitted, `bytesOut, `packetsOut
      ensures emitted == old(emitted) + [[0, 0, 0, 2] + pkt]
      ensures packetsOut == old(packetsOut) + (if writeOk then 1 else 0)
      ensures bytesOut == old(bytesOut) + (if writeOk then 4 + |pkt| else 0)
    {
      var frame := new Byte[4 + |pkt|](_ => 0);
      frame[3] := 2;
      Put(frame, 4, pkt);
      assert frame[..4] == [0, 0, 0, 2];
      assert frame[..] == frame[..4 + |pkt|];
      emitted := emitted + [frame[..]];
      if writeOk {
        bytesOut := bytesOut + frame.Length;
        packetsOut := packetsOut + 1;
      }
    }

    /** Lay out and write one intended reply. */
    method Send(p: seq<Byte>, intent: Intent, w: World)
      requires Readable(p) && |p| <= MAX_PACKET
      requires match intent
               case TcpOut(_, _, _, _, payload) => |p| >= HeaderLength(p) + 4 && |payload| <= 0xffff - 40
               case UdpOut(payload) => |p| >= HeaderLength(p) + 4 && |payload| <= 0xffff - 28
               case EchoOut => IsEchoRequest(p)
      modifies `emitted, `bytesOut, `packetsOut
      ensures Answered(old(emitted), emitted, [intent], p)
    {
      var pkt: seq<Byte>;
      match intent {
        case EchoOut =>
          pkt := BuildEchoReply(p);
        case TcpOut(id, seqNo, ackNo, flags, payload) =>
          var hl := HeaderLength(p);
          FromBe16RoundTrip(p[hl..hl + 2]);
          FromBe16RoundTrip(p[hl + 2..hl + 4]);
          pkt := BuildTcp(p[12..16], p[16..20], FromBE16(p[hl..hl + 2]), FromBE16(p[hl + 2..hl + 4]), id, seqNo, ackNo, flags, payload);
        case UdpOut(payload) =>
          var hl := HeaderLength(p);
          FromBe16RoundTrip(p[hl..hl + 2]);
          FromBe16RoundTrip(p[hl + 2..hl + 4]);
          pkt := BuildUdp(p[12..16], p[16..20], FromBE16(p[hl..hl + 2]), FromBE16(p[hl + 2..hl + 4]), payload);
      }
      WriteUtunFrame(pkt, w.writeOk);
      ghost var frame: seq<Byte> := [0, 0, 0, 2] + pkt;
      assert frame[4..] == pkt && frame[..4] == [0, 0, 0, 2];
      assert intent.TcpOut? ==> frame[28..40] == pkt[24..36];
    }

    /** TCP segments for the dish or the dongle. */
    method HandleTcpPacket(p: seq<Byte>, hl: nat, w: World)
      requires Readable(p) && |p| <= MAX_PACKET && hl == HeaderLength(p) && |w.ntpTime| == 8
      modifies `emitted, `bytesOut, `packetsOut
      ensures Answered(old(emitted), emitted, TcpIntents(p, w), p)
    {
      if |p| < hl + 20 { return; }
      var clientSeq := FromBE32(p[hl + 4..hl + 8]);
      var flags := p[hl + 13] as int;
      if p[16..20] != DISH && p[16..20] != DONGLE { return; }
      var dataOffset := p[hl + 12] as int / 16 * 4;
      var payload := [];
      if |p| - hl > dataOffset { payload := p[hl + dataOffset..]; }

      // 1. SYN: reply with SYN+ACK.
      if flags / 2 % 2 != 0 && flags / 16 % 2 == 0 {
        Send(p, TcpOut(0x1234, 2000000, (clientSeq + 1) % TWO_32, 0x12, []), w);
        return;
      }

      // 2. Data: reply with a body and FIN.
      if |payload| > 0 {
        var body := w.portal;
        if FromBE16(p[hl + 2..hl + 4]) == 9200 {
          if w.proxied.Some? { body := w.proxied.value; }
          else if w.grpcWeb.Some? { body := w.grpcWeb.value; }
          else { body := w.fallback; }
        }
        var ackNo := (clientSeq + |payload|) % TWO_32;
        SendTcpData(p, ackNo, body, w);
        return;
      }

      // 3. FIN: reply with ACK.
      if flags % 2 != 0 {
        Send(p, TcpOut(0x1236, (2000001 + |payload|) % TWO_32, (clientSeq + 1) % TWO_32, 0x10, []), w);
      }
    }

    /** sendTCPData: the body, then the FIN that closes the stream behind it. */
    method SendTcpData(p: seq<Byte>, ackNo: Seq32, body: Body, w: World)
      requires Readable(p) && HeaderLength(p) + 4 <= |p| <= MAX_PACKET
      modifies `emitted, `bytesOut, `packetsOut
      ensures Answered(old(emitted), emitted,
                       [TcpOut(0x1235, 2000001, ackNo, 0x18, body),
                        TcpOut(0x1237, (2000001 + |body|) % TWO_32, ackNo, 0x11, [])], p)
    {
      var data := TcpOut(0x1235, 2000001, ackNo, 0x18, body);
      var finish := TcpOut(0x1237, (2000001 + |body|) % TWO_32, ackNo, 0x11, []);
      Send(p, data, w);
      ghost var middle := emitted;
      Send(p, finish, w);
      AnsweredOne(old(emitted), middle, [data], p, emitted, finish);
      assert [data] + [finish] == [data, finish];
    }

    method HandleUdpPacket(p: seq<Byte>, hl: nat, w: World)
      requires Readable(p) && |p| <= MAX_PACKET && hl == HeaderLength(p) && |w.ntpTime| == 8
      modifies `emitted, `bytesOut, `packetsOut
      ensures Answered(old(emitted), emitted, UdpIntents(p, w), p)
    {
      if |p| < hl + 8 { return; }
      var dstPort := FromBE16(p[hl + 2..hl + 4]);
      var udpLen := FromBE16(p[hl + 4..hl + 6]);
      if |p| - hl < udpLen || udpLen < 8 { return; }
      var payload := p[hl + 8..hl + udpLen];
      if dstPort == 53 && |payload| >= 12 {
        Send(p, UdpOut(DnsResponse(payload)), w);
        return;
      }
      if dstPort == 123 && |payload| >= 48 {
        Send(p, UdpOut(NtpResponse(payload, w.ntpTime)), w);
        return;
      }
      if p[16..20] == DISH || p[16..20] == DONGLE {
        Send(p, UdpOut(payload), w);
      }
    }

    /** One packet from the device: counted by protocol, and answered as `Intents` says. */
    method HandleIpv4Packet(p: seq<Byte>, w: World)
      requires 20 <= |p| <= MAX_PACKET && |w.ntpTime| == 8
      modifies `emitted, `bytesOut, `packetsOut, `icmp, `tcp, `udp, `otherL4, `synToDish
      ensures Answered(old(emitted), emitted, if Readable(p) then Intents(p, w) else [], p)
      ensures icmp == old(icmp) + (if Readable(p) && p[9] == PROTO_ICMP then 1 else 0)
      ensures tcp == old(tcp) + (if Readable(p) && p[9] == PROTO_TCP then 1 else 0)
      ensures udp == old(udp) + (if Readable(p) && p[9] == PROTO_UDP then 1 else 0)
      ensures otherL4 == old(otherL4) + (if Readable(p) && p[9] !in {PROTO_ICMP, PROTO_TCP, PROTO_UDP} then 1 else 0)
      ensures synToDish == old(synToDish) + (if Readable(p) && p[9] == PROTO_TCP && SynToDish(p) then 1 else 0)
    {
      if p[0] as int / 16 != 4 { return; }
      var hl := p[0] as int % 16 * 4;
      if |p| < hl { return; }
      var protocol := p[9];
      if protocol == 1 {
        icmp := icmp + 1;
      } else if protocol == 6 {
        tcp := tcp + 1;
        TallySyn(p, hl);
        HandleTcpPacket(p, hl, w);
      } else if protocol == 17 {
        udp := udp + 1;
        HandleUdpPacket(p, hl, w);
      } else {
        otherL4 := otherL4 + 1;
      }
      if protocol == 1 && |p| >= hl + 8 {
        if p[hl] == 8 && p[hl + 1] == 0 {
          if p[16..20] == DISH || p[16..20] == DONGLE {
            Send(p, EchoOut, w);
          }
        }
      }
    }

    method TallySyn(p: seq<Byte>, hl: nat)
      requires Readable(p) && hl == HeaderLength(p)
      modifies `synToDish
      ensures synToDish == old(synToDish) + if SynToDish(p) then 1 else 0
    {
      if hl + 20 > |p| { return; }
      var flags := p[hl + 13] as int;
      if flags / 2 % 2 == 0 || flags / 16 % 2 != 0 { return; }
      if p[16..20] == DISH { synToDish := synToDish + 1; }
    }

    /** One read of the device: four bytes of address family, then the packet. */
    method OnRead(frame: seq<Byte>, w: World)
      requires |frame| <= 4096 && |w.ntpTime| == 8
      modifies this
      ensures |frame| < 4 ==> unchanged(this)
      ensures |frame| >= 4 ==> packetsIn == old(packetsIn) + 1 && bytesIn == old(bytesIn) + |frame|
      ensures |frame| >= 4 ==>
                var family := FromBE32(frame[..4]);
                && ipv4 == old(ipv4) + (if family == 2 then 1 else 0)
                && ipv6 == old(ipv6) + (if family == 30 then 1 else 0)
                && other == old(other) + (if family != 2 && family != 30 then 1 else 0)
      ensures |frame| >= 4 ==>
                var p := frame[4..];
                Answered(old(emitted), emitted, if FromBE32(frame[..4]) == 2 && Readable(p) then Intents(p, w) else [], p)
      ensures |frame| >= 24 ==>
                forall k :: |old(emitted)| <= k < |emitted| ==> (Verified(emitted[k]) <==> !Headless(frame[4..]))
      ensures if |frame| >= 24 && frame[..4] == [0, 0, 0, 2] && Readable(frame[4..])
              then emitted == old(emitted) + emitted[|old(emitted)|..] && RightAnswer(emitted[|old(emitted)|..], frame[4..], w)
              else emitted == old(emitted)
    {
      hide FromBE32, RightAnswer, Answered, Intents, Verified, Headless;
      AnsweredNothing(emitted, emitted, if |frame| >= 4 then frame[4..] else []);
      if |frame| < 4 { return; }
      IsIpv4Family(frame[..4]);
      var family := FromBE32(frame[..4]);
      var p := frame[4..];
      bytesIn := bytesIn + |frame|;
      packetsIn := packetsIn + 1;
      if family == 2 {
        ipv4 := ipv4 + 1;
        if |p| >= 20 {
          HandleIpv4Packet(p, w);
          AnsweredNothing(old(emitted), emitted, p);
          if Readable(p) {
            EmittedFramesVerify(old(emitted), emitted, p, w);
            AnswersAreRight(old(emitted), emitted, p, w);
          }
        }
      } else if family == 30 {
        ipv6 := ipv6 + 1;
      } else {
        other := other + 1;
      }
    }
  }

  lemma FromBe16RoundTrip(s: seq<Byte>)
    requires |s| == 2
    ensures BE16(FromBE16(s)) == s
  {
  }
}

/**
 The one's-complement checksums of the packet pump (RFC 1071 section 1), proved
 to verify at a receiver.
 */
module Checksums {
  import opened Common
  import opened Buffers

  // ---- What a receiver computes ------------------------------------------------

  /** The sum of the big-endian 16-bit words of `s` from offset `i` on; an odd last byte is padded with zero. */
  function SumFrom(s: seq<Byte>, i: nat): nat
    decreases |s| - i
  {
    if i >= |s| then 0
    else s[i] as int * 256 + (if i + 1 < |s| then s[i + 1] as int else 0) + SumFrom(s, i + 2)
  }

  function Sum(s: seq<Byte>): nat { SumFrom(s, 0) }

  /** Adding the carries back in until none are left. */
  function Fold(n: nat): (r: nat)
    ensures r <= 0xffff
  {
    if n <= 0xffff then n else Fold(n % TWO_16 + n / TWO_16)
  }

  predicate Verifies(s: seq<Byte>) {
    Fold(Sum(s)) == 0xffff
  }

  /** Folding keeps the value modulo 65535, and keeps it non-zero. */
  lemma {:induction false} FoldMod(n: nat)
    ensures Fold(n) % 0xffff == n % 0xffff
    ensures Fold(n) == 0 <==> n == 0
    decreases n
  {
    if n > 0xffff {
      var m := n % TWO_16 + n / TWO_16;
      FoldMod(m);
      assert n == m + 0xffff * (n / TWO_16);
      ModShift(m, n / TWO_16);
    }
  }

  lemma ModShift(m: nat, k: nat)
    ensures (m + 0xffff * k) % 0xffff == m % 0xffff
  {
    var q, r := m / 0xffff, m % 0xffff;
    assert m + 0xffff * k == 0xffff * (q + k) + r;
  }

  /** So the folded sum is all ones exactly when the sum is a non-zero multiple of 65535. */
  lemma FoldAllOnes(n: nat)
    ensures Fold(n) == 0xffff <==> n > 0 && n % 0xffff == 0
  {
    FoldMod(n);
  }

  /** The sender's complement completes any sum to one that folds to all ones. */
  lemma ComplementVerifies(n: nat)
    ensures Fold(n + (0xffff - Fold(n))) == 0xffff
  {
    FoldMod(n);
    var f, q := Fold(n), n / 0xffff;
    var k := if n % 0xffff == 0 && f != 0 then q else q + 1;
    assert n + (0xffff - f) == 0 + 0xffff * k;
    ModShift(0, k);
    FoldAllOnes(n + (0xffff - f));
  }

  /** UDP's substitution of 0xffff for a zero checksum does not spoil the sum. */
  lemma AllOnesForZero(n: nat)
    requires Fold(n) == 0xffff
    ensures Fold(n + 0xffff) == 0xffff
  {
    FoldAllOnes(n);
    ModShift(n, 1);
    FoldAllOnes(n + 0xffff);
  }

  lemma {:induction false} SumPrefix(a: seq<Byte>, b: seq<Byte>, i: nat)
    requires |a| % 2 == 0 && i % 2 == 0
    ensures SumFrom(a + b, i) == if i <= |a| then SumFrom(a, i) + Sum(b) else SumFrom(b, i - |a|)
    decreases |a| + |b| - i
  {
    if i < |a| + |b| { SumPrefix(a, b, i + 2); }
  }

  lemma SumAppend(a: seq<Byte>, b: seq<Byte>)
    requires |a| % 2 == 0
    ensures Sum(a + b) == Sum(a) + Sum(b)
  {
    SumPrefix(a, b, 0);
  }

  lemma {:induction false} SumBound(s: seq<Byte>, i: nat)
    requires i <= |s|
    ensures SumFrom(s, i) <= (|s| - i + 1) / 2 * 0xffff
    decreases |s| - i
  {
    if i + 2 <= |s| { SumBound(s, i + 2); }
  }

  lemma {:induction false} SumWithFieldFrom(s: seq<Byte>, t: seq<Byte>, at: nat, c: nat, i: nat)
    requires at % 2 == 0 && i % 2 == 0 && at + 2 <= |s| == |t| && s[at] == s[at + 1] == 0 && c <= 0xffff
    requires t[at] as int * 256 + t[at + 1] as int == c
    requires forall k :: 0 <= k < |s| && k != at && k != at + 1 ==> t[k] == s[k]
    ensures SumFrom(t, i) == SumFrom(s, i) + if i <= at then c else 0
    decreases |s| - i
  {
    if i < |s| { SumWithFieldFrom(s, t, at, c, i + 2); }
  }

  /** Storing a checksum in a zeroed, word-aligned field adds it to the sum. */
  lemma SumWithField(s: seq<Byte>, at: nat, c: nat)
    requires at % 2 == 0 && at + 2 <= |s| && s[at] == s[at + 1] == 0 && c <= 0xffff
    ensures Sum(Overwrite(s, at, BE16(c))) == Sum(s) + c
  {
    SumWithFieldFrom(s, Overwrite(s, at, BE16(c)), at, c, 0);
  }

  // ---- What the pump computes -----------------------------------------------------

  type Ip4 = s: seq<Byte> | |s| == 4 witness [0, 0, 0, 0]

  /** The 12 bytes both ends put in front of a TCP or UDP segment. */
  function PseudoHeader(src: Ip4, dst: Ip4, protocol: Byte, length: nat): (r: seq<Byte>)
    ensures |r| == 12
  {
    src + dst + [0, protocol] + BE16(length % TWO_16)
  }

  /** The largest buffer whose words cannot overflow the 32-bit accumulator. */
  const MAX_SUMMED := 0x1_fff0

  /** The summing loop; the accumulator is a uint32 and would wrap around. */
  method AddWords(sum0: nat, data: seq<Byte>) returns (sum: nat)
    requires sum0 <= 6 * 0xffff
    ensures |data| <= MAX_SUMMED ==> sum == sum0 + Sum(data)
  {
    sum := sum0;
    var n := |data|;
    ghost var total := sum0 + Sum(data);
    SumBound(data, 0);
    var i := 0;
    while i < n - 1
      invariant 0 <= i <= n && i % 2 == 0
      invariant n <= MAX_SUMMED ==> sum + SumFrom(data, i) == total < TWO_32
    {
      assert FromBE16(data[i..i + 2]) == data[i] as int * 256 + data[i + 1] as int;
      sum := (sum + FromBE16(data[i..i + 2])) % TWO_32;
      i := i + 2;
    }
    if n % 2 == 1 {
      assert SumFrom(data, i) == data[n - 1] as int * 256 + SumFrom(data, i + 2);
      sum := (sum + data[n - 1] as int * 256) % TWO_32;
    }
  }

  method FoldCarries(sum0: nat) returns (sum: nat)
    ensures sum == Fold(sum0)
  {
    sum := sum0;
    while sum > 0xffff
      invariant Fold(sum) == Fold(sum0)
    {
      sum := sum % TWO_16 + sum / TWO_16;
    }
  }

  /** checksum: IPv4 headers and ICMP messages. */
  method Checksum(data: seq<Byte>) returns (c: nat)
    ensures c <= 0xffff
    ensures |data| <= MAX_SUMMED ==> c == 0xffff - Fold(Sum(data))
  {
    var sum := AddWords(0, data);
    sum := FoldCarries(sum);
    c := 0xffff - sum;
  }

  method FillPseudoHeader(src: Ip4, dst: Ip4, protocol: Byte, length: nat) returns (pseudo: array<Byte>)
    ensures fresh(pseudo) && pseudo[..] == PseudoHeader(src, dst, protocol, length)
  {
    pseudo := new Byte[12](_ => 0);
    Put(pseudo, 0, src);
    Put(pseudo, 4, dst);
    assert pseudo[..8] == src + dst;
    pseudo[8] := 0;
    pseudo[9] := protocol;
    assert pseudo[..10] == src + dst + [0, protocol];
    Put(pseudo, 10, BE16(length % TWO_16));
    assert pseudo[..] == pseudo[..12];
  }

  /** The common part of tcpChecksum and udpChecksum; the checksum field is zeroed in a copy. */
  method SegmentChecksum(src: Ip4, dst: Ip4, protocol: Byte, segment: seq<Byte>, field: nat) returns (c: nat)
    requires field + 2 <= |segment|
    ensures c <= 0xffff
    ensures |segment| <= MAX_SUMMED ==>
              c == 0xffff - Fold(Sum(PseudoHeader(src, dst, protocol, |segment|)) + Sum(Overwrite(segment, field, [0, 0])))
  {
    var pseudo := FillPseudoHeader(src, dst, protocol, |segment|);
    var sum := AddWords(0, pseudo[..]);
    SumBound(pseudo[..], 0);

    var copied := new Byte[|segment|](i requires 0 <= i < |segment| => segment[i]);
    copied[field], copied[field + 1] := 0, 0;
    assert copied[..] == Overwrite(segment, field, [0, 0]);
    sum := AddWords(sum, copied[..]);
    sum := FoldCarries(sum);
    c := 0xffff - sum;
  }

  method TcpChecksum(src: Ip4, dst: Ip4, segment: seq<Byte>) returns (c: nat)
    requires |segment| >= 18
    ensures c <= 0xffff
    ensures |segment| <= MAX_SUMMED ==>
              c == 0xffff - Fold(Sum(PseudoHeader(src, dst, 6, |segment|)) + Sum(Overwrite(segment, 16, [0, 0])))
  {
    c := SegmentChecksum(src, dst, 6, segment, 16);
  }

  method UdpChecksum(src: Ip4, dst: Ip4, segment: seq<Byte>) returns (c: nat)
    requires |segment| >= 8
    ensures 0 < c <= 0xffff
    ensures |segment| <= MAX_SUMMED ==>
              var folded := Fold(Sum(PseudoHeader(src, dst, 17, |segment|)) + Sum(Overwrite(segment, 6, [0, 0])));
              c == if folded == 0xffff then 0xffff else 0xffff - folded
  {
    c := SegmentChecksum(src, dst, 17, segment, 6);
    if c == 0 { c := 0xffff; }
  }

  // ---- Both ends agree ------------------------------------------------------------------

  /** A header or message whose zeroed field receives its own checksum verifies. */
  lemma StoredChecksumVerifies(s: seq<Byte>, at: nat)
    requires at % 2 == 0 && at + 2 <= |s| && s[at] == s[at + 1] == 0
    ensures Verifies(Overwrite(s, at, BE16(0xffff - Fold(Sum(s)))))
  {
    SumWithField(s, at, 0xffff - Fold(Sum(s)));
    ComplementVerifies(Sum(s));
  }

  /** The same for a segment summed together with its pseudo-header; UDP may send 0xffff for 0. */
  lemma StoredSegmentChecksumVerifies(pseudo: seq<Byte>, s: seq<Byte>, at: nat, c: nat)
    requires |pseudo| == 12 && at % 2 == 0 && at + 2 <= |s| && s[at] == s[at + 1] == 0
    requires var folded := Fold(Sum(pseudo) + Sum(s));
             c == 0xffff - folded || (folded == 0xffff && c == 0xffff)
    ensures Verifies(pseudo + Overwrite(s, at, BE16(c)))
  {
    SumWithField(s, at, c);
    SumAppend(pseudo, Overwrite(s, at, BE16(c)));
    ComplementVerifies(Sum(pseudo) + Sum(s));
    if c == 0xffff && Fold(Sum(pseudo) + Sum(s)) == 0xffff { AllOnesForZero(Sum(pseudo) + Sum(s)); }
  }
}
