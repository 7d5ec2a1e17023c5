/** bridge.go: the two loops that forward between the utun device and the radio. */
module Bridges {
  import opened Common
  import opened Buffers
  import opened DataFrames

  /** What a bridge is given for its whole life. */
  datatype Config = Config(myIp: Ip, mask: Ip, gw: Ip, gwMac: Mac, staMac: Mac, vif: Byte, apIdx: Byte)

  const NO_IP: Ip := [0, 0, 0, 0]
  const BROADCAST: Mac := [255, 255, 255, 255, 255, 255]

  function And(a: Byte, b: Byte): int { ((a as bv8) & (b as bv8)) as int }

  predicate SameSubnet(c: Config, ip: Ip) {
    forall i :: 0 <= i < 4 ==> And(ip[i], c.mask[i]) == And(c.myIp[i], c.mask[i])
  }

  /** The bridge's variables, the records the radio took, and the frames written to the utun. */
  datatype State = State(arp: map<Ip, Mac>, txPkts: nat, txDrop: nat, rxPkts: nat, sent: seq<seq<Byte>>, written: seq<seq<Byte>>)

  function Initial(c: Config): State { State(map[c.gw := c.gwMac], 0, 0, 0, [], []) }

  // One round of the utun side

  predicate Eligible(data: seq<Byte>) { |data| >= 24 && FromBE32(data[..4]) == 2 }

  function Dst(data: seq<Byte>): Ip
    requires |data| >= 24
  {
    data[20..24]
  }

  function NextHop(c: Config, s: State, dst: Ip): Option<Mac> {
    if !SameSubnet(c, dst) then Some(c.gwMac) else if dst in s.arp then Some(s.arp[dst]) else None
  }

  function DataRecord(c: Config, hop: Mac, data: seq<Byte>): seq<Byte>
    requires 24 <= |data| <= 4 + MAX_PAYLOAD
  {
    Record(TxData(hop, c.staMac, ETHERTYPE_IP, c.vif, c.apIdx, data[4..], 0))
  }

  function ArpRecord(c: Config, to: Mac, a: Arp): seq<Byte>
    requires a.op < TWO_16
  {
    Record(TxData(to, c.staMac, ETHERTYPE_ARP, c.vif, c.apIdx, EncodeArp(a), 0))
  }

  function Request(c: Config, target: Ip): Arp { Arp(1, c.staMac, c.myIp, [0, 0, 0, 0, 0, 0], target) }

  function Answer(c: Config, a: Arp): Arp { Arp(2, c.staMac, c.myIp, a.senderMac, a.senderIp) }

  function Offered(s: State, record: seq<Byte>, taken: bool): State { if taken then s.(sent := s.sent + [record]) else s }

  /** The lookup of the next hop; without one the address is asked for and the packet dropped. */
  function Resolve(c: Config, s: State, data: seq<Byte>, taken: bool): (State, Option<Mac>)
    requires Eligible(data)
  {
    var hop := NextHop(c, s, Dst(data));
    if hop.Some? then (s, hop)
    else (Offered(s, ArpRecord(c, BROADCAST, Request(c, Dst(data))), taken).(txDrop := s.txDrop + 1), None)
  }

  /** The sending of a resolved packet. */
  function Transmit(c: Config, s: State, hop: Mac, data: seq<Byte>, taken: bool): State
    requires 24 <= |data|
  {
    if |data| <= 4 + MAX_PAYLOAD && taken then Offered(s, DataRecord(c, hop, data), true).(txPkts := s.txPkts + 1)
    else s.(txDrop := s.txDrop + 1)
  }

  // One round of the radio side

  datatype Ethernet = Ethernet(ethertype: nat, payload: seq<Byte>)

  function Learn(s: State, a: Arp): State {
    if a.senderIp != NO_IP then s.(arp := s.arp[a.senderIp := a.senderMac]) else s
  }

  predicate AsksForUs(c: Config, a: Arp) { a.op == 1 && a.targetIp == c.myIp }

  predicate Writable(payload: seq<Byte>) { 20 <= |payload| <= 2048 }

  function Framed(payload: seq<Byte>): seq<Byte> { [0, 0, 0, 2] + payload }

  function Receive(c: Config, s: State, e: Ethernet, ok: bool): State {
    if e.ethertype == ETHERTYPE_ARP then
      match DecodeArp(e.payload)
      case None => s
      case Some(a) =>
        var learned := Learn(s, a);
        if AsksForUs(c, a) then Offered(learned, ArpRecord(c, a.senderMac, Answer(c, a)), ok) else learned
    else if e.ethertype == ETHERTYPE_IP && Writable(e.payload) && ok then
      s.(written := s.written + [Framed(e.payload)], rxPkts := s.rxPkts + 1)
    else s
  }

  class Bridge {
    const c: Config
    var arp: map<Ip, Mac>
    var txPkts: nat
    var txDrop: nat
    var rxPkts: nat
    var sent: seq<seq<Byte>>
    var written: seq<seq<Byte>>
    const txBuf: array<Byte>
    const rxFrame: array<Byte>

    function View(): State
      reads this
    {
      State(arp, txPkts, txDrop, rxPkts, sent, written)
    }

    ghost predicate Valid()
      reads this, rxFrame
    {
      txBuf.Length == 2048 && rxFrame.Length == 4 + 2048 && txBuf != rxFrame && rxFrame[..4] == [0, 0, 0, 2]
    }

    constructor (c: Config)
      ensures Valid() && View() == Initial(c) && this.c == c && fresh(txBuf) && fresh(rxFrame)
    {
      this.c := c;
      arp := map[c.gw := c.gwMac];
      txPkts, txDrop, rxPkts, sent, written := 0, 0, 0, [], [];
      txBuf := new Byte[2048](_ => 0);
      var frame := new Byte[4 + 2048](_ => 0);
      rxFrame := frame;
      new;
      Put(rxFrame, 0, BE32(2));
      assert BE32(2) == [0, 0, 0, 2];
    }

    method BulkOutData(record: array<Byte>, taken: bool) returns (ok: bool)
      modifies this`sent
      ensures ok == taken && View() == Offered(old(View()), record[..], taken)
    {
      ok := taken;
      if taken { sent := sent + [record[..]]; }
    }

    method SendArp(to: Mac, a: Arp, taken: bool)
      requires a.op < TWO_16
      modifies this`sent
      ensures View() == Offered(old(View()), ArpRecord(c, to, a), taken)
    {
      var record := Encode(TxData(to, c.staMac, ETHERTYPE_ARP, c.vif, c.apIdx, EncodeArp(a), 0));
      if record.Some? { var ok := BulkOutData(record.value, taken); }
    }

    /** One packet off the utun, as far as its next hop; nothing is resolved for packets that are not bridged. */
    method ReadAndResolve(data: seq<Byte>, taken: bool) returns (packet: seq<Byte>, hop: Option<Mac>)
      requires Valid() && |data| <= 2048
      modifies this, txBuf
      ensures Valid()
      ensures Eligible(data) ==> (View(), hop) == Resolve(c, old(View()), data, taken) && packet == data
      ensures !Eligible(data) ==> View() == old(View()) && hop == None
    {
      Put(txBuf, 0, data);
      assert txBuf[..|data|] == data;
      packet, hop := [], None;
      if |data| < 4 + 20 { return; }
      if FromBE32(txBuf[..4]) != 2 { return; }
      packet := txBuf[..|data|];
      var dst: Ip := packet[20..24];
      if !SameSubnet(c, dst) { return packet, Some(c.gwMac); }
      if dst in arp { return packet, Some(arp[dst]); }
      SendArp(BROADCAST, Request(c, dst), taken);
      txDrop := txDrop + 1;
    }

    /** The rest of that packet's round. */
    method Send(packet: seq<Byte>, hop: Mac, taken: bool)
      requires Valid() && 24 <= |packet|
      modifies this
      ensures Valid() && View() == Transmit(c, old(View()), hop, packet, taken)
    {
      var record := Encode(TxData(hop, c.staMac, ETHERTYPE_IP, c.vif, c.apIdx, packet[4..], 0));
      if record == None {
        txDrop := txDrop + 1;
        return;
      }
      var ok := BulkOutData(record.value, taken);
      if ok { txPkts := txPkts + 1; } else { txDrop := txDrop + 1; }
    }

    /** One frame off the radio. The buffer the utun frame is built in keeps its prefix and is otherwise reused. */
    method Handle(e: Ethernet, ok: bool)
      requires Valid()
      modifies this, rxFrame
      ensures Valid() && View() == Receive(c, old(View()), e, ok)
    {
      if e.ethertype == ETHERTYPE_ARP {
        var a := DecodeArp(e.payload);
        if a == None { return; }
        if a.value.senderIp != [0, 0, 0, 0] { arp := arp[a.value.senderIp := a.value.senderMac]; }
        if a.value.op == 1 && a.value.targetIp == c.myIp { SendArp(a.value.senderMac, Answer(c, a.value), ok); }
      } else if e.ethertype == ETHERTYPE_IP {
        if |e.payload| < 20 || 4 + |e.payload| > rxFrame.Length { return; }
        Put(rxFrame, 4, e.payload);
        assert rxFrame[..4] == [0, 0, 0, 2];
        if !ok { return; }
        written := written + [rxFrame[..4 + |e.payload|]];
        rxPkts := rxPkts + 1;
      }
    }
  }

  // The two loops together

  datatype Event =
    | TxRead(data: seq<Byte>, taken: bool)
    | TxSend(taken: bool)
    | Rx(e: Ethernet, ok: bool)

  /** A packet of the utun loop that has its next hop and is not sent yet; `at` is the event that read it. */
  datatype Pending = Pending(at: nat, data: seq<Byte>, hop: Mac)

  /** A data record the radio took, and the packet it was made from. */
  datatype Forwarded = Forwarded(of: Pending, record: seq<Byte>)

  datatype World = World(s: State, pending: Option<Pending>, log: seq<Forwarded>, eligible: nat, time: nat)

  function Begin(c: Config): World { World(Initial(c), None, [], 0, 0) }

  predicate Reads(w: World, e: Event) { e.TxRead? && w.pending == None && |e.data| <= 2048 && Eligible(e.data) }

  function Step(c: Config, w: World, e: Event): World {
    var v := w.(time := w.time + 1);
    match e
    case TxRead(data, taken) =>
      if !Reads(w, e) then v
      else
        var (s, hop) := Resolve(c, w.s, data, taken);
        v.(s := s, eligible := w.eligible + 1, pending := if hop.Some? then Some(Pending(w.time, data, hop.value)) else None)
    case TxSend(taken) =>
      if w.pending == None || !(24 <= |w.pending.value.data| <= 2048) then v
      else
        var p := w.pending.value;
        v.(s := Transmit(c, w.s, p.hop, p.data, taken), pending := None,
           log := if taken then w.log + [Forwarded(p, DataRecord(c, p.hop, p.data))] else w.log)
    case Rx(frame, ok) => v.(s := Receive(c, w.s, frame, ok))
  }

  function Play(c: Config, events: seq<Event>): World
    decreases |events|
  {
    if events == [] then Begin(c) else Step(c, Play(c, events[..|events| - 1]), events[|events| - 1])
  }

  // What the events say by themselves

  /** The address an event announces for `ip`, if it is an ARP packet from there. */
  function Announced(e: Event, ip: Ip): Option<Mac> {
    if !e.Rx? || e.e.ethertype != ETHERTYPE_ARP then None
    else match DecodeArp(e.e.payload)
      case None => None
      case Some(a) => if a.senderIp == ip && ip != NO_IP then Some(a.senderMac) else None
  }

  /** The latest announcement for `ip`, or the gateway's address the bridge started with. */
  function LatestMac(c: Config, events: seq<Event>, ip: Ip): Option<Mac>
    decreases |events|
  {
    if events == [] then (if ip == c.gw then Some(c.gwMac) else None)
    else
      var last := Announced(events[|events| - 1], ip);
      if last.Some? then last else LatestMac(c, events[..|events| - 1], ip)
  }

  function HopFor(c: Config, events: seq<Event>, dst: Ip): Option<Mac> {
    if SameSubnet(c, dst) then LatestMac(c, events, dst) else Some(c.gwMac)
  }

  /** The frames that were to be written to the utun, and could be. */
  function Delivered(events: seq<Event>): seq<seq<Byte>>
    decreases |events|
  {
    if events == [] then []
    else
      var before, e := Delivered(events[..|events| - 1]), events[|events| - 1];
      if e.Rx? && e.e.ethertype == ETHERTYPE_IP && Writable(e.e.payload) && e.ok then before + [Framed(e.e.payload)] else before
  }

  predicate ReadAt(c: Config, events: seq<Event>, p: Pending) {
    && p.at < |events| && events[p.at].TxRead? && events[p.at].data == p.data && |p.data| <= 2048 && Eligible(p.data)
    && HopFor(c, events[..p.at], Dst(p.data)) == Some(p.hop)
  }

  ghost predicate Inv(c: Config, events: seq<Event>, w: World) {
    && w.time == |events|
    && (forall ip: Ip :: LatestMac(c, events, ip) == if ip in w.s.arp then Some(w.s.arp[ip]) else None)
    && w.eligible == w.s.txPkts + w.s.txDrop + (if w.pending.Some? then 1 else 0)
    && w.s.txPkts == |w.log|
    && w.s.written == Delivered(events) && w.s.rxPkts == |w.s.written|
    && (w.pending.Some? ==> ReadAt(c, events, w.pending.value))
    && (forall i :: 0 <= i < |w.log| ==> ReadAt(c, events, w.log[i].of) && w.log[i].record == DataRecord(c, w.log[i].of.hop, w.log[i].of.data))
  }

  lemma ReadAtLater(c: Config, events: seq<Event>, e: Event, p: Pending)
    requires ReadAt(c, events, p)
    ensures ReadAt(c, events + [e], p)
  {
    assert (events + [e])[..p.at] == events[..p.at];
  }

  lemma LatestMacGrows(c: Config, events: seq<Event>, e: Event, ip: Ip)
    ensures LatestMac(c, events + [e], ip) == if Announced(e, ip).Some? then Announced(e, ip) else LatestMac(c, events, ip)
  {
    assert (events + [e])[..|events|] == events;
  }

  /** The cache always holds the latest announcements. */
  lemma CacheFollows(c: Config, events: seq<Event>, w: World, e: Event, ip: Ip)
    requires Inv(c, events, w)
    ensures var v := Step(c, w, e); LatestMac(c, events + [e], ip) == if ip in v.s.arp then Some(v.s.arp[ip]) else None
  {
    LatestMacGrows(c, events, e, ip);
  }

  lemma DeliveredGrows(c: Config, events: seq<Event>, w: World, e: Event)
    requires w.s.written == Delivered(events) && w.s.rxPkts == |w.s.written|
    ensures var v := Step(c, w, e); v.s.written == Delivered(events + [e]) && v.s.rxPkts == |v.s.written|
  {
    assert (events + [e])[..|events|] == events;
  }

  lemma LogKeeps(c: Config, events: seq<Event>, w: World, e: Event)
    requires Inv(c, events, w)
    ensures var v := Step(c, w, e);
            forall i :: 0 <= i < |v.log| ==> ReadAt(c, events + [e], v.log[i].of) && v.log[i].record == DataRecord(c, v.log[i].of.hop, v.log[i].of.data)
  {
    forall i | 0 <= i < |w.log| ensures ReadAt(c, events + [e], w.log[i].of) { ReadAtLater(c, events, e, w.log[i].of); }
    if w.pending.Some? { ReadAtLater(c, events, e, w.pending.value); }
  }

  lemma PendingKeeps(c: Config, events: seq<Event>, w: World, e: Event)
    requires Inv(c, events, w)
    ensures var v := Step(c, w, e); v.pending.Some? ==> ReadAt(c, events + [e], v.pending.value)
  {
    if w.pending.Some? { ReadAtLater(c, events, e, w.pending.value); }
    if Reads(w, e) {
      assert (events + [e])[..|events|] == events;
      assert HopFor(c, events, Dst(e.data)) == NextHop(c, w.s, Dst(e.data));
    }
  }

  lemma StepKeeps(c: Config, events: seq<Event>, w: World, e: Event)
    requires Inv(c, events, w)
    ensures Inv(c, events + [e], Step(c, w, e))
  {
    var v, longer := Step(c, w, e), events + [e];
    forall ip: Ip ensures LatestMac(c, longer, ip) == if ip in v.s.arp then Some(v.s.arp[ip]) else None {
      CacheFollows(c, events, w, e, ip);
    }
    DeliveredGrows(c, events, w, e);
    LogKeeps(c, events, w, e);
    PendingKeeps(c, events, w, e);
  }

  lemma {:induction false} PlayKeeps(c: Config, events: seq<Event>)
    ensures Inv(c, events, Play(c, events))
    decreases |events|
  {
    if events == [] {
      forall ip: Ip ensures LatestMac(c, events, ip) == if ip in Initial(c).arp then Some(Initial(c).arp[ip]) else None {
      }
    } else {
      var before := events[..|events| - 1];
      PlayKeeps(c, before);
      StepKeeps(c, before, Play(c, before), events[|events| - 1]);
      assert before + [events[|events| - 1]] == events;
    }
  }

  /** Every packet that is to be bridged is counted once: as sent, as dropped, or still in hand. */
  lemma {:induction false} EveryPacketIsCounted(c: Config, events: seq<Event>)
    ensures var w := Play(c, events);
            w.eligible == w.s.txPkts + w.s.txDrop + (if w.pending.Some? then 1 else 0) && w.s.txPkts == |w.log|
  {
    PlayKeeps(c, events);
  }

  /**
   Every data record holds a packet as it was read, addressed to the gateway if it leaves the subnet,
   and else to the address last announced for its destination when it was looked up.
   */
  lemma {:induction false} ForwardedUnchanged(c: Config, events: seq<Event>, i: nat)
    requires i < |Play(c, events).log|
    ensures var f := Play(c, events).log[i];
            && f.of.at < |events| && events[f.of.at].TxRead? && Eligible(events[f.of.at].data)
            && HopFor(c, events[..f.of.at], Dst(events[f.of.at].data)) == Some(f.of.hop)
            && Unpacked(f.record) == Some(TxData(f.of.hop, c.staMac, ETHERTYPE_IP, c.vif, c.apIdx, events[f.of.at].data[4..], 0))
  {
    PlayKeeps(c, events);
    var f := Play(c, events).log[i];
    assert ReadAt(c, events, f.of);
    RecordUnpacks(TxData(f.of.hop, c.staMac, ETHERTYPE_IP, c.vif, c.apIdx, f.of.data[4..], 0));
  }

  /** The utun gets exactly the received packets, each behind its four-byte prefix, whatever the buffer held before. */
  lemma {:induction false} WrittenAsReceived(c: Config, events: seq<Event>)
    ensures Play(c, events).s.written == Delivered(events) && Play(c, events).s.rxPkts == |Delivered(events)|
  {
    PlayKeeps(c, events);
  }

  /** A request for our address is answered to its sender, with an ARP reply that reads back as ours. */
  lemma RequestsAreAnswered(c: Config, w: World, e: Ethernet, a: Arp)
    requires e.ethertype == ETHERTYPE_ARP && DecodeArp(e.payload) == Some(a) && AsksForUs(c, a)
    ensures var v := Step(c, w, Rx(e, true));
            && |v.s.sent| == |w.s.sent| + 1 && w.s.sent <= v.s.sent
            && var t := Unpacked(v.s.sent[|w.s.sent|]);
               t.Some? && t.value.da == a.senderMac && t.value.ethertype == ETHERTYPE_ARP &&
               DecodeArp(t.value.payload) == Some(Arp(2, c.staMac, c.myIp, a.senderMac, a.senderIp))
  {
    RecordUnpacks(TxData(a.senderMac, c.staMac, ETHERTYPE_ARP, c.vif, c.apIdx, EncodeArp(Answer(c, a)), 0));
    ArpRoundTrip(Answer(c, a), []);
    assert EncodeArp(Answer(c, a)) + [] == EncodeArp(Answer(c, a));
  }

  /**
   A packet for a neighbour that no event has announced yet is dropped, and its destination is asked for: the record
   goes to everyone and reads back as an ARP request for that address, from ours.
   */
  lemma {:induction false} UnknownHopsAreAskedFor(c: Config, events: seq<Event>, data: seq<Byte>)
    requires |data| <= 2048 && Eligible(data) && SameSubnet(c, Dst(data)) && LatestMac(c, events, Dst(data)) == None
    requires Play(c, events).pending == None
    ensures var w, v := Play(c, events), Play(c, events + [TxRead(data, true)]);
            && v.s.txDrop == w.s.txDrop + 1 && v.pending == None && v.s.arp == w.s.arp && v.log == w.log
            && |v.s.sent| == |w.s.sent| + 1 && w.s.sent <= v.s.sent
            && var t := Unpacked(v.s.sent[|w.s.sent|]);
               t.Some? && t.value.da == [255, 255, 255, 255, 255, 255] && t.value.sa == c.staMac && t.value.ethertype == ETHERTYPE_ARP &&
               DecodeArp(t.value.payload) == Some(Arp(1, c.staMac, c.myIp, [0, 0, 0, 0, 0, 0], data[20..24]))
  {
    var w, e := Play(c, events), TxRead(data, true);
    PlayKeeps(c, events);
    assert (events + [e])[..|events|] == events;
    RecordUnpacks(TxData(BROADCAST, c.staMac, ETHERTYPE_ARP, c.vif, c.apIdx, EncodeArp(Request(c, Dst(data))), 0));
    ArpRoundTrip(Request(c, Dst(data)), []);
    assert EncodeArp(Request(c, Dst(data))) + [] == EncodeArp(Request(c, Dst(data)));
  }

  /** What makes the bridge hand a record to the radio: a packet in hand, an unknown neighbour, or a request for us. */
  predicate Sends(c: Config, w: World, e: Event) {
    match e
    case TxRead(data, taken) => taken && Reads(w, e) && SameSubnet(c, data[20..24]) && data[20..24] !in w.s.arp
    case TxSend(taken) => taken && w.pending.Some?
    case Rx(f, ok) => ok && f.ethertype == ETHERTYPE_ARP && DecodeArp(f.payload).Some? && AsksForUs(c, DecodeArp(f.payload).value)
  }

  /** The radio gets one record for each of these events, and none for any other. */
  lemma {:induction false} NothingElseIsSent(c: Config, events: seq<Event>, e: Event)
    ensures var w, v := Play(c, events), Play(c, events + [e]);
            w.s.sent <= v.s.sent && |v.s.sent| == |w.s.sent| + if Sends(c, w, e) then 1 else 0
  {
    PlayKeeps(c, events);
    assert (events + [e])[..|events|] == events;
  }
}

/** lmac's data record and ARP packet (txdata.go, net.go). */
module DataFrames {
  import opened Common
  import opened Buffers

  type Ip = s: seq<Byte> | |s| == 4 witness [0, 0, 0, 0]
  type Mac = s: seq<Byte> | |s| == 6 witness [0, 0, 0, 0, 0, 0]

  const ETHERTYPE_IP := 0x0800
  const ETHERTYPE_ARP := 0x0806
  const ETHERTYPE_EAPOL := 0x888e
  const ETHERTYPE_WAPI := 0x88b4
  const MAX_PAYLOAD := 2304

  function LE16(n: nat): (r: seq<Byte>)
    requires n < TWO_16
    ensures |r| == 2
  {
    [n % 256, n / 256]
  }

  function FromLE16(s: seq<Byte>): nat
    requires |s| == 2
  {
    s[0] as int + 256 * (s[1] as int)
  }

  // The data record

  datatype TxData = TxData(da: Mac, sa: Mac, ethertype: nat, vif: Byte, sta: Byte, payload: seq<Byte>, slot: Byte)

  predicate Encodable(t: TxData) { |t.payload| <= MAX_PAYLOAD && t.ethertype < TWO_16 }

  /** 4 bytes of header, 28 of descriptor, the payload, and padding to a multiple of 4. */
  function Total(payload: nat): (n: nat)
    ensures n % 4 == 0 && 32 + payload <= n < 36 + payload
  {
    (32 + payload + 3) / 4 * 4
  }

  predicate Confirmed(t: TxData) { t.ethertype == ETHERTYPE_EAPOL || t.ethertype == ETHERTYPE_WAPI }

  function Header(t: TxData): (h: seq<Byte>)
    requires Encodable(t)
    ensures |h| == 4
  {
    [Total(|t.payload|) % 256, Total(|t.payload|) / 256 % 16, 1, 0]
  }

  function Descriptor(t: TxData): (d: seq<Byte>)
    requires Encodable(t)
    ensures |d| == 28
  {
    (LE16(|t.payload|) + [0, 0]) + (if Confirmed(t) then [t.slot, 0, 0, 128] else [0, 0, 0, 0]) + t.da + t.sa + BE16(t.ethertype)
    + [3, 7, t.vif, t.sta, 0, 0]
  }

  function Record(t: TxData): (r: seq<Byte>)
    requires Encodable(t)
    ensures |r| == Total(|t.payload|)
  {
    Header(t) + Descriptor(t) + t.payload + [0, 0, 0][..Total(|t.payload|) - 32 - |t.payload|]
  }

  method PutAddresses(buf: array<Byte>, da: Mac, sa: Mac)
    requires buf.Length >= 32
    modifies buf
    ensures buf[..24] == old(buf[..12]) + (da + sa)
  {
    ghost var before := buf[..12];
    Put(buf, 12, da);
    Put(buf, 18, sa);
    assert buf[..24] == before + da + sa;
  }

  method PutDescriptor(buf: array<Byte>, t: TxData)
    requires Encodable(t) && buf.Length >= 32
    modifies buf
    ensures buf[..32] == old(buf[..4]) + Descriptor(t)
  {
    ghost var header := buf[..4];
    ghost var length := LE16(|t.payload|) + [0, 0];
    ghost var confirm := if Confirmed(t) then [t.slot, 0, 0, 128] else [0, 0, 0, 0];
    Put(buf, 4, LE16(|t.payload|) + [0, 0]);
    assert buf[..8] == header + length;
    Put(buf, 8, if Confirmed(t) then [t.slot, 0, 0, 128] else [0, 0, 0, 0]);
    assert buf[..12] == header + length + confirm;
    PutAddresses(buf, t.da, t.sa);
    assert buf[..24] == header + length + confirm + (t.da + t.sa);
    Put(buf, 24, BE16(t.ethertype));
    Put(buf, 26, [3, 7, t.vif, t.sta, 0, 0]);
    DescriptorParts(header, length, confirm, t.da, t.sa, BE16(t.ethertype), [3, 7, t.vif, t.sta, 0, 0]);
  }

  lemma DescriptorParts(h: seq<Byte>, a: seq<Byte>, b: seq<Byte>, c: seq<Byte>, d: seq<Byte>, e: seq<Byte>, f: seq<Byte>)
    ensures h + a + b + (c + d) + e + f == h + (a + b + c + d + e + f)
  {
  }

  method PaddedTotal(payload: nat) returns (total: nat)
    ensures total == Total(payload)
  {
    total := 32 + payload;
    var m := total % 4;
    if m != 0 { total := total + 4 - m; }
  }

  method Encode(t: TxData) returns (out: Option<array<Byte>>)
    requires t.ethertype < TWO_16
    ensures out.Some? <==> Encodable(t)
    ensures out.Some? ==> fresh(out.value) && out.value[..] == Record(t)
  {
    if |t.payload| > MAX_PAYLOAD { return None; }
    var total := PaddedTotal(|t.payload|);
    ghost var pad := [0, 0, 0][..total - 32 - |t.payload|];
    var buf := new Byte[total](_ => 0);
    Put(buf, 0, [total % 256, total / 256 % 16, 1, 0]);
    assert buf[..4] == Header(t);
    PutDescriptor(buf, t);
    Put(buf, 32, t.payload);
    assert buf[..32 + |t.payload|] == Header(t) + Descriptor(t) + t.payload;
    Put(buf, 32 + |t.payload|, [0, 0, 0][..total - 32 - |t.payload|]);
    assert buf[..] == buf[..total] == Header(t) + Descriptor(t) + t.payload + pad;
    out := Some(buf);
  }

  /** What the firmware reads out of a record. */
  function Unpacked(r: seq<Byte>): Option<TxData> {
    if |r| < 32 || |r| < 32 + FromLE16(r[4..6]) then None
    else Some(TxData(r[12..18], r[18..24], FromBE16(r[24..26]), r[28], r[29], r[32..32 + FromLE16(r[4..6])], r[8]))
  }

  /** The record carries the payload, the addresses and the ethertype unchanged, and its own length in 12 bits. */
  lemma RecordUnpacks(t: TxData)
    requires Encodable(t)
    ensures Unpacked(Record(t)) == Some(t.(slot := if Confirmed(t) then t.slot else 0))
    ensures Record(t)[0] as int + 256 * (Record(t)[1] as int) == |Record(t)| && |Record(t)| % 4 == 0
  {
    var r, d := Record(t), Descriptor(t);
    RecordParts(Header(t), d, t.payload, [0, 0, 0][..Total(|t.payload|) - 32 - |t.payload|]);
    DescriptorFields(t);
    Be16RoundTrip(t.ethertype);
  }

  lemma RecordParts(h: seq<Byte>, d: seq<Byte>, payload: seq<Byte>, pad: seq<Byte>)
    requires |h| == 4 && |d| == 28
    ensures var r := h + d + payload + pad;
            && r[..4] == h && r[0] == h[0] && r[1] == h[1] && r[32..32 + |payload|] == payload
            && r[4..6] == d[..2] && r[8] == d[4] && r[28] == d[24] && r[29] == d[25]
            && r[12..18] == d[8..14] && r[18..24] == d[14..20] && r[24..26] == d[20..22]
  {
  }

  lemma DescriptorFields(t: TxData)
    requires Encodable(t)
    ensures var d := Descriptor(t);
            && d[..2] == LE16(|t.payload|) && d[4] == (if Confirmed(t) then t.slot else 0) && d[24] == t.vif && d[25] == t.sta
            && d[8..14] == t.da && d[14..20] == t.sa && d[20..22] == BE16(t.ethertype)
  {
  }

  // ARP

  datatype Arp = Arp(op: nat, senderMac: Mac, senderIp: Ip, targetMac: Mac, targetIp: Ip)

  function EncodeArp(a: Arp): (r: seq<Byte>)
    requires a.op < TWO_16
    ensures |r| == 28
  {
    BE16(1) + BE16(ETHERTYPE_IP) + [6, 4] + BE16(a.op) + a.senderMac + a.senderIp + a.targetMac + a.targetIp
  }

  function DecodeArp(p: seq<Byte>): (a: Option<Arp>)
    ensures a.Some? ==> a.value.op < TWO_16
  {
    if |p| < 28 then None else Some(Arp(FromBE16(p[6..8]), p[8..14], p[14..18], p[18..24], p[24..28]))
  }

  lemma ArpRoundTrip(a: Arp, rest: seq<Byte>)
    requires a.op < TWO_16
    ensures DecodeArp(EncodeArp(a) + rest) == Some(a)
  {
    var r := EncodeArp(a);
    var p := r + rest;
    assert p[6..8] == r[6..8] == BE16(a.op);
    assert p[8..14] == r[8..14] == a.senderMac && p[14..18] == r[14..18] == a.senderIp;
    assert p[18..24] == r[18..24] == a.targetMac && p[24..28] == r[24..28] == a.targetIp;
    Be16RoundTrip(a.op);
  }
}
