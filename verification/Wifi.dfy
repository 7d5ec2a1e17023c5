/** Networks that hide their name, from the beacon to the spectrum report (frame.go, spectrum.go). */
module HiddenNetworks {
  import opened Common
  import opened Beacons
  import opened Spectrum

  /** The bytes of "<hidden>". */
  const HIDDEN: seq<Byte> := [0x3c, 0x68, 0x69, 0x64, 0x64, 0x65, 0x6e, 0x3e]

  /** The hotspot the scanner keeps of a parsed beacon. */
  predicate FromBeacon(h: Hotspot, b: BeaconResult) {
    b.Beacon? && b.ssid == ShownSsid(b.ap.ssid) && h == Hotspot(b.ssid, b.ap.channel, b.rssi)
  }

  /** The report leaves out the networks that call themselves "<hidden>", and no others: not those that hide their name. */
  lemma {:induction false} NamedIff(h: Hotspot, b: BeaconResult)
    requires FromBeacon(h, b)
    ensures Named(h) <==> b.ap.ssid != HIDDEN
  {
    var ssid := b.ap.ssid;
    if ssid != [] {
      var hidden: string := "<hidden>";
      assert forall i :: 0 <= i < 8 ==> hidden[i] == HIDDEN[i] as char;
      if h.ssid == hidden {
        forall i | 0 <= i < 8 ensures ssid[i] == HIDDEN[i] { assert h.ssid[i] == ssid[i] as char; }
      }
    }
  }

  lemma {:induction false} SsidsOfNamed(hs: seq<Hotspot>, ch: nat)
    requires forall i :: 0 <= i < |hs| ==> Named(hs[i])
    ensures |Ssids(hs, ch)| == Count(hs, ch)
    decreases |hs|
  {
    if hs != [] { SsidsOfNamed(hs[..|hs| - 1], ch); }
  }

  /** So every network seen by its beacon is listed by name on its channel. */
  lemma {:induction false} EveryBeaconIsListed(hs: seq<Hotspot>, beacons: seq<BeaconResult>, ch: nat)
    requires |beacons| == |hs| && forall i :: 0 <= i < |hs| ==> FromBeacon(hs[i], beacons[i]) && beacons[i].ap.ssid != HIDDEN
    ensures |Ssids(hs, ch)| == Count(hs, ch)
  {
    forall i | 0 <= i < |hs| ensures Named(hs[i]) { NamedIff(hs[i], beacons[i]); }
    SsidsOfNamed(hs, ch);
  }

  /** A network without a name is listed as "<Hidden SSID>", wherever in the list it stands. */
  lemma {:induction false} HiddenIsListed(before: seq<Hotspot>, h: Hotspot, after: seq<Hotspot>, b: BeaconResult)
    requires FromBeacon(h, b) && b.ap.ssid == []
    ensures "<Hidden SSID>" in Ssids(before + [h] + after, h.channel)
    decreases |after|
  {
    var hs := before + [h] + after;
    if after == [] {
      assert hs[..|hs| - 1] == before && hs[|hs| - 1] == h;
    } else {
      assert hs[..|hs| - 1] == before + [h] + after[..|after| - 1];
      HiddenIsListed(before, h, after[..|after| - 1], b);
    }
  }
}

/** Access-point details from the elements of a beacon (pkg/wifi/frame.go). */
module Beacons {
  import opened Common
  import opened Elements
  import opened Text

  datatype Security = OpenNetwork | Wpa2Psk | WpaPsk

  /** The fields ParseBeacon fills from elements; an SSID element may be present and empty. */
  datatype AccessPoint = AccessPoint(ssid: seq<Byte>, channel: Byte, security: Security)

  datatype BeaconResult = Beacon(bssid: string, rssi: int, ssid: string, ap: AccessPoint) | PayloadTooShort

  const NO_ELEMENTS := AccessPoint([], 0, OpenNetwork)

  predicate IsWpa1(e: Element) {
    e.id == 221 && |e.body| >= 4 && e.body[..4] == [0x00, 0x50, 0xf2, 0x01]
  }

  /** The last element of `es` that satisfies `p`. */
  function LastWhere(es: seq<Element>, p: Element -> bool): (r: Option<Element>)
    ensures r.Some? ==> r.value in es && p(r.value)
    ensures r.None? <==> forall e :: e in es ==> !p(e)
  {
    if es == [] then None
    else if p(es[|es| - 1]) then Some(es[|es| - 1])
    else LastWhere(es[..|es| - 1], p)
  }

  predicate IsSsid(e: Element) { e.id == 0 }

  predicate IsChannel(e: Element) { e.id == 3 && |e.body| >= 1 }

  predicate IsSecurity(e: Element) { e.id == 48 || IsWpa1(e) }

  /** What a list of elements says about a network: for each property the last element that speaks of it. */
  function Describe(es: seq<Element>): AccessPoint {
    var ssid := LastWhere(es, IsSsid);
    var channel := LastWhere(es, IsChannel);
    var security := LastWhere(es, IsSecurity);
    AccessPoint(
      if ssid.Some? then ssid.value.body else [],
      if channel.Some? then channel.value.body[0] else 0,
      if security.None? then OpenNetwork else if security.value.id == 48 then Wpa2Psk else WpaPsk)
  }

  /** What one element does to the fields read so far. */
  function Absorb(ap: AccessPoint, e: Element): AccessPoint {
    if IsSsid(e) then ap.(ssid := e.body)
    else if IsChannel(e) then ap.(channel := e.body[0])
    else if e.id == 48 then ap.(security := Wpa2Psk)
    else if IsWpa1(e) then ap.(security := WpaPsk)
    else ap
  }

  function Fold(ap: AccessPoint, es: seq<Element>): AccessPoint
    decreases |es|
  {
    if es == [] then ap else Fold(Absorb(ap, es[0]), es[1..])
  }

  lemma FoldWalk(ap: AccessPoint, s: seq<Byte>, off: nat)
    ensures Fold(ap, Walk(s, off, false)) ==
            if EndsAt(s, off, false) then ap
            else
              var next := off + 2 + s[off + 1] as int;
              Fold(Absorb(ap, Element(s[off], s[off + 2..next])), Walk(s, next, false))
  {
    if !EndsAt(s, off, false) {
      assert Walk(s, off, false)[1..] == Walk(s, off + 2 + s[off + 1] as int, false);
    }
  }

  type Mac = s: seq<Byte> | |s| == 6 witness [0, 0, 0, 0, 0, 0]

  /** %02x:%02x:%02x:%02x:%02x:%02x */
  function MacText(a: Mac): string {
    Hex(a[0], 2) + ":" + Hex(a[1], 2) + ":" + Hex(a[2], 2) + ":" + Hex(a[3], 2) + ":" + Hex(a[4], 2) + ":" + Hex(a[5], 2)
  }

  /** Each byte of an address can be read back from its text. */
  lemma MacTextReadsBack(a: Mac, i: nat)
    requires i < 6
    ensures |MacText(a)| == 17 && HexValue(MacText(a)[3 * i..3 * i + 2]) == Some(a[i])
  {
    assert MacText(a)[3 * i..3 * i + 2] == Hex(a[i], 2);
    assert Pow16(2) == 16 * Pow16(1) && Pow16(1) == 16 * Pow16(0);
    HexRoundTrip(a[i], 2);
  }

  /** The bytes of a Go string, one character each. */
  function ByteText(bytes: seq<Byte>): (s: string)
    ensures |s| == |bytes| && forall i :: 0 <= i < |s| ==> s[i] == bytes[i] as char
  {
    seq(|bytes|, i requires 0 <= i < |bytes| => bytes[i] as char)
  }

  /** The name a network is given: its SSID, or a text of the parser's own. */
  function ShownSsid(ssid: seq<Byte>): string { if ssid == [] then "<Hidden SSID>" else ByteText(ssid) }

  /** ParseBeacon: the third address and the signal of the frame, and the loop over the bytes after the fixed fields. */
  method ParseBeacon(address3: Mac, rssi: int, payload: seq<Byte>) returns (r: BeaconResult)
    ensures r.PayloadTooShort? <==> |payload| < 12
    ensures |payload| >= 12 ==> r.ap == Describe(Walk(payload, 12, false)) && r.ssid == ShownSsid(r.ap.ssid)
    ensures |payload| >= 12 ==> r.bssid == MacText(address3) && r.rssi == rssi
  {
    if |payload| < 12 { return PayloadTooShort; }
    var offset := 12;
    var ap := NO_ELEMENTS;
    while offset + 2 <= |payload|
      invariant 12 <= offset <= |payload|
      invariant Fold(ap, Walk(payload, offset, false)) == Fold(NO_ELEMENTS, Walk(payload, 12, false))
      decreases |payload| - offset
    {
      var id, len := payload[offset], payload[offset + 1] as int;
      if offset + 2 + len > |payload| { break; }
      var data := payload[offset + 2..offset + 2 + len];
      FoldWalk(ap, payload, offset);
      if id == 0 {
        ap := ap.(ssid := data);
      } else if id == 3 {
        if len >= 1 { ap := ap.(channel := data[0]); }
      } else if id == 48 {
        ap := ap.(security := Wpa2Psk);
      } else if id == 221 {
        if |data| >= 4 && data[..4] == [0x00, 0x50, 0xf2, 0x01] { ap := ap.(security := WpaPsk); }
      }
      offset := offset + 2 + len;
    }
    FoldWalk(ap, payload, offset);
    FoldIsDescribe(Walk(payload, 12, false));
    var ssid := ByteText(ap.ssid);
    if ssid == "" { ssid := "<Hidden SSID>"; }
    return Beacon(MacText(address3), rssi, ssid, ap);
  }

  lemma AbsorbDescribes(done: seq<Element>, e: Element)
    ensures Absorb(Describe(done), e) == Describe(done + [e])
  {
    DescribeAppend(done, e);
  }

  /** Folding element by element gives, for each property, the last element that speaks of it. */
  lemma {:induction false} FoldDescribes(done: seq<Element>, es: seq<Element>)
    ensures Fold(Describe(done), es) == Describe(done + es)
    decreases |es|
  {
    hide Describe, Absorb;
    if es == [] {
      assert done + es == done;
    } else {
      AbsorbDescribes(done, es[0]);
      FoldDescribes(done + [es[0]], es[1..]);
      assert done + [es[0]] + es[1..] == done + es;
    }
  }

  lemma FoldIsDescribe(es: seq<Element>)
    ensures Fold(NO_ELEMENTS, es) == Describe(es)
  {
    FoldDescribes([], es);
    assert [] + es == es;
    assert Describe([]) == NO_ELEMENTS;
  }

  /** For every list of elements, a beacon that carries it, followed by any truncated tail, is described by that list. */
  lemma BeaconOfElements(fixed: seq<Byte>, es: seq<Element>, tail: seq<Byte>)
    requires |fixed| == 12 && WellFormed(es, false) && EndsAt(tail, 0, false)
    ensures Describe(Walk(fixed + Serialize(es, false) + tail, 12, false)) == Describe(es)
  {
    WalkSerialized(fixed, es, tail, false);
  }

  /** Last wins: appending an element changes only the property that element speaks of. */
  lemma DescribeAppend(es: seq<Element>, e: Element)
    ensures var before, after := Describe(es), Describe(es + [e]);
            && after.ssid == (if IsSsid(e) then e.body else before.ssid)
            && after.channel == (if IsChannel(e) then e.body[0] else before.channel)
            && after.security == (if e.id == 48 then Wpa2Psk else if IsWpa1(e) then WpaPsk else before.security)
  {
    assert (es + [e])[..|es|] == es;
  }
}

/**
 Tagged elements: an identifier byte, a length byte, and that many bytes of body
 (section 9.4.2.1 of IEEE Std 802.11-2020).  Beacons and EAPOL key data are both
 lists of these, with one difference: in key data a zero length ends the list.
 */
module Elements {
  import opened Common

  datatype Element = Element(id: Byte, body: seq<Byte>)

  predicate WellFormed(es: seq<Element>, zeroEnds: bool) {
    forall e :: e in es ==> |e.body| < 256 && (zeroEnds ==> e.body != [])
  }

  function Serialize(es: seq<Element>, zeroEnds: bool): (r: seq<Byte>)
    requires WellFormed(es, zeroEnds)
  {
    if es == [] then [] else Bytes(es[0]) + Serialize(es[1..], zeroEnds)
  }

  /** No element can be read at offset `off`: padding, the end, or an element that is cut short. */
  predicate EndsAt(s: seq<Byte>, off: nat, zeroEnds: bool) {
    off + 2 > |s| || off + 2 + s[off + 1] as int > |s| || (zeroEnds && s[off + 1] == 0)
  }

  /** The elements a walk that stands at offset `off` still visits. */
  function Walk(s: seq<Byte>, off: nat, zeroEnds: bool): (es: seq<Element>)
    decreases |s| - off
  {
    if EndsAt(s, off, zeroEnds) then []
    else
      var next := off + 2 + s[off + 1] as int;
      [Element(s[off], s[off + 2..next])] + Walk(s, next, zeroEnds)
  }

  lemma {:induction false} WalkWellFormed(s: seq<Byte>, off: nat, zeroEnds: bool)
    ensures WellFormed(Walk(s, off, zeroEnds), zeroEnds)
    decreases |s| - off
  {
    if !EndsAt(s, off, zeroEnds) { WalkWellFormed(s, off + 2 + s[off + 1] as int, zeroEnds); }
  }

  function Bytes(e: Element): (r: seq<Byte>)
    requires |e.body| < 256
    ensures |r| == 2 + |e.body|
  {
    [e.id, |e.body|] + e.body
  }

  /** One step of the walk over an element that is there in full. */
  lemma WalkOne(s: seq<Byte>, off: nat, e: Element, zeroEnds: bool)
    requires |e.body| < 256 && (zeroEnds ==> e.body != [])
    requires off + 2 + |e.body| <= |s| && s[off..off + 2 + |e.body|] == Bytes(e)
    ensures Walk(s, off, zeroEnds) == [e] + Walk(s, off + 2 + |e.body|, zeroEnds)
  {
    var b := s[off..off + 2 + |e.body|];
    assert s[off] == b[0] == e.id && s[off + 1] == b[1] == |e.body|;
    assert s[off + 2..off + 2 + |e.body|] == b[2..] == e.body;
  }

  /** The bytes from `off` on, taken apart after the first element. */
  lemma AfterFirst(s: seq<Byte>, off: nat, first: seq<Byte>, rest: seq<Byte>)
    requires off <= |s| && s[off..] == first + rest
    ensures off + |first| <= |s| && s[off..off + |first|] == first && s[off + |first|..] == rest
  {
    assert s[off..off + |first|] == s[off..][..|first|];
    assert s[off + |first|..] == s[off..][|first|..];
  }

  lemma EndsThere(s: seq<Byte>, off: nat, zeroEnds: bool)
    requires off <= |s|
    ensures EndsAt(s, off, zeroEnds) == EndsAt(s[off..], 0, zeroEnds)
  {
  }

  lemma SerializeFirst(es: seq<Element>, tail: seq<Byte>, zeroEnds: bool)
    requires es != [] && WellFormed(es, zeroEnds)
    ensures Serialize(es, zeroEnds) + tail == Bytes(es[0]) + (Serialize(es[1..], zeroEnds) + tail)
  {
  }

  lemma {:induction false} WalkFrom(s: seq<Byte>, off: nat, es: seq<Element>, tail: seq<Byte>, zeroEnds: bool)
    requires WellFormed(es, zeroEnds) && EndsAt(tail, 0, zeroEnds)
    requires off <= |s| && s[off..] == Serialize(es, zeroEnds) + tail
    ensures Walk(s, off, zeroEnds) == es
    decreases |es|
  {
    if es == [] {
      assert Serialize(es, zeroEnds) + tail == tail;
      EndsThere(s, off, zeroEnds);
    } else {
      var next := off + 2 + |es[0].body|;
      SerializeFirst(es, tail, zeroEnds);
      AfterFirst(s, off, Bytes(es[0]), Serialize(es[1..], zeroEnds) + tail);
      WalkFrom(s, next, es[1..], tail, zeroEnds);
      assert Walk(s, off, zeroEnds) == [es[0]] + Walk(s, next, zeroEnds) by { WalkOne(s, off, es[0], zeroEnds); }
    }
  }

  /** Walking a serialised list, whatever truncated tail follows it, visits exactly that list. */
  lemma {:induction false} WalkSerialized(before: seq<Byte>, es: seq<Element>, tail: seq<Byte>, zeroEnds: bool)
    requires WellFormed(es, zeroEnds) && EndsAt(tail, 0, zeroEnds)
    ensures Walk(before + Serialize(es, zeroEnds) + tail, |before|, zeroEnds) == es
  {
    var s := before + Serialize(es, zeroEnds) + tail;
    assert s[|before|..] == Serialize(es, zeroEnds) + tail;
    WalkFrom(s, |before|, es, tail, zeroEnds);
  }

  /** Every byte string is the serialisation of what is walked, followed by a tail at which the walk ends. */
  lemma {:induction false} SerializeWalk(s: seq<Byte>, off: nat, zeroEnds: bool) returns (end: nat)
    requires off <= |s|
    ensures WellFormed(Walk(s, off, zeroEnds), zeroEnds)
    ensures off <= end <= |s| && EndsAt(s, end, zeroEnds)
    ensures s[off..end] == Serialize(Walk(s, off, zeroEnds), zeroEnds)
    decreases |s| - off
  {
    WalkWellFormed(s, off, zeroEnds);
    if EndsAt(s, off, zeroEnds) {
      end := off;
    } else {
      var next := off + 2 + s[off + 1] as int;
      end := SerializeWalk(s, next, zeroEnds);
      assert Walk(s, off, zeroEnds)[1..] == Walk(s, next, zeroEnds);
      assert s[off..end] == Bytes(Element(s[off], s[off + 2..next])) + s[next..end];
    }
  }
}

/** pkg/wifi/spectrum.go: the occupancy, the score and the recommendation of Wi-Fi channels. */
module Spectrum {
  import opened Common

  datatype Hotspot = Hotspot(ssid: string, channel: nat, rssi: int)

  datatype Level = Clean | Low | Moderate | Congested

  datatype ChannelInfo = ChannelInfo(channel: nat, frequency: nat, count: nat, ssids: seq<string>, avgRssi: int, level: Level, score: int)

  datatype Report = Report(channels24: seq<ChannelInfo>, channels5: seq<ChannelInfo>, optimal24: nat, optimal5: nat, total: nat)

  const CHANNELS_24: seq<nat> := [1, 2, 3, 4, 5, 6, 7, 8, 9, 10, 11, 12, 13]
  const CHANNELS_5: seq<nat> :=
    [36, 40, 44, 48, 52, 56, 60, 64, 100, 104, 108, 112, 116, 120, 124, 128, 132, 136, 140, 144, 149, 153, 157, 161, 165]
  const PREFERRED_24: seq<nat> := [1, 6, 11]

  /** Go's integer division, which truncates toward zero. */
  function Quotient(a: int, b: int): int
    requires b > 0
  {
    if a >= 0 then a / b else -(-a / b)
  }

  // What the hotspots say about a channel

  function Count(hs: seq<Hotspot>, ch: nat): nat
    decreases |hs|
  {
    if hs == [] then 0 else Count(hs[..|hs| - 1], ch) + if hs[|hs| - 1].channel == ch then 1 else 0
  }

  function RssiSum(hs: seq<Hotspot>, ch: nat): int
    decreases |hs|
  {
    if hs == [] then 0 else RssiSum(hs[..|hs| - 1], ch) + if hs[|hs| - 1].channel == ch then hs[|hs| - 1].rssi else 0
  }

  predicate Named(h: Hotspot) { h.ssid != "" && h.ssid != "<hidden>" }

  function Ssids(hs: seq<Hotspot>, ch: nat): seq<string>
    decreases |hs|
  {
    if hs == [] then []
    else
      var before, h := Ssids(hs[..|hs| - 1], ch), hs[|hs| - 1];
      if h.channel == ch && Named(h) then before + [h.ssid] else before
  }

  // Scores

  /** Observed networks two channels or fewer away, among the listed 2.4 GHz channels. */
  function Neighbours(hs: seq<Hotspot>, ch: nat): nat
    requires 1 <= ch <= 13
  {
    CountIn24(hs, ch - 2) + CountIn24(hs, ch - 1) + CountIn24(hs, ch + 1) + CountIn24(hs, ch + 2)
  }

  function CountIn24(hs: seq<Hotspot>, ch: int): nat { if 1 <= ch <= 13 then Count(hs, ch) else 0 }

  function Score24(hs: seq<Hotspot>, ch: nat): int
    requires 1 <= ch <= 13
  {
    Max(5, 100 - 22 * Count(hs, ch) - 12 * Neighbours(hs, ch) - if ch in PREFERRED_24 then 0 else 15)
  }

  function Score5(hs: seq<Hotspot>, ch: nat): int { Max(10, 100 - 20 * Count(hs, ch)) }

  function AvgRssi(hs: seq<Hotspot>, ch: nat): int {
    if Count(hs, ch) > 0 then Quotient(RssiSum(hs, ch), Count(hs, ch)) else -100
  }

  function Level24(count: nat, score: int): Level {
    if count == 0 && score >= 80 then Clean
    else if count <= 1 && score >= 60 then Low
    else if count <= 3 then Moderate
    else Congested
  }

  function Level5(count: nat): Level {
    if count == 0 then Clean else if count == 1 then Low else if count <= 3 then Moderate else Congested
  }

  function Info24(hs: seq<Hotspot>, ch: nat): ChannelInfo
    requires 1 <= ch <= 13
  {
    ChannelInfo(ch, 2407 + ch * 5, Count(hs, ch), Ssids(hs, ch), AvgRssi(hs, ch), Level24(Count(hs, ch), Score24(hs, ch)), Score24(hs, ch))
  }

  function Info5(hs: seq<Hotspot>, ch: nat): ChannelInfo {
    ChannelInfo(ch, 5000 + ch * 5, Count(hs, ch), Ssids(hs, ch), AvgRssi(hs, ch), Level5(Count(hs, ch)), Score5(hs, ch))
  }

  // The report

  /** A channel while the hotspots are being counted. */
  datatype Tally = Tally(count: nat, ssids: seq<string>, sum: int)

  predicate Tallied(m: map<nat, Tally>, hs: seq<Hotspot>) {
    forall ch :: ch in m ==> m[ch] == Tally(Count(hs, ch), Ssids(hs, ch), RssiSum(hs, ch))
  }

  function Counted(m: map<nat, Tally>, h: Hotspot): map<nat, Tally>
    requires h.channel in m
  {
    var t := m[h.channel];
    m[h.channel := Tally(t.count + 1, if Named(h) then t.ssids + [h.ssid] else t.ssids, t.sum + h.rssi)]
  }

  lemma CountedTallies(m: map<nat, Tally>, hs: seq<Hotspot>, h: Hotspot)
    requires Tallied(m, hs)
    ensures h.channel in m ==> Tallied(Counted(m, h), hs + [h])
    ensures h.channel !in m ==> Tallied(m, hs + [h])
  {
    assert (hs + [h])[..|hs|] == hs;
  }

  ghost predicate Lists24(m: map<nat, Tally>) { forall ch: nat :: 1 <= ch <= 13 <==> ch in m }

  predicate Lists5(m: map<nat, Tally>, chans5: seq<nat>) {
    (forall i :: 0 <= i < |chans5| ==> chans5[i] in m) && forall ch :: ch in m ==> 36 <= ch <= 165
  }

  /** Every 5 GHz channel that has no tally yet has not been seen yet. */
  ghost predicate Caught(m: map<nat, Tally>, hs: seq<Hotspot>) {
    forall ch: nat :: 36 <= ch <= 165 && ch !in m ==> Unseen(hs, ch)
  }

  method Count24(m: map<nat, Tally>, hs: seq<Hotspot>, h: Hotspot) returns (r: map<nat, Tally>)
    requires Tallied(m, hs) && Lists24(m)
    ensures Tallied(r, hs + [h]) && Lists24(r)
  {
    CountedTallies(m, hs, h);
    r := m;
    if 1 <= h.channel <= 14 {
      if h.channel in m { r := Counted(m, h); }
    }
  }

  /** A channel outside the list gets its tally with the first hotspot that is seen on it. */
  method Count5(m: map<nat, Tally>, hs: seq<Hotspot>, h: Hotspot, chans5: seq<nat>) returns (r: map<nat, Tally>)
    requires Tallied(m, hs) && Lists5(m, chans5) && Caught(m, hs)
    ensures Tallied(r, hs + [h]) && Lists5(r, chans5) && Caught(r, hs + [h])
  {
    r := m;
    if 36 <= h.channel <= 165 && h.channel !in m { r := r[h.channel := Tally(0, [], 0)]; }
    CountedTallies(r, hs, h);
    forall ch: nat | Unseen(hs, ch) && ch != h.channel ensures Unseen(hs + [h], ch) { UnseenGrows(hs, h, ch); }
    if 36 <= h.channel <= 165 { r := Counted(r, h); }
  }

  method CountHotspots(hs: seq<Hotspot>, chans5: seq<nat>) returns (m24: map<nat, Tally>, m5: map<nat, Tally>)
    requires forall ch :: ch in chans5 ==> 36 <= ch <= 165
    ensures Tallied(m24, hs) && Lists24(m24) && Tallied(m5, hs) && Lists5(m5, chans5)
  {
    m24 := map[];
    for ch := 1 to 14
      invariant forall c: nat :: 1 <= c < ch <==> c in m24
      invariant Tallied(m24, [])
    {
      m24 := m24[ch := Tally(0, [], 0)];
    }
    m5 := map ch | ch in chans5 :: Tally(0, [], 0);
    var i := 0;
    while i < |hs|
      invariant i <= |hs| && Tallied(m24, hs[..i]) && Lists24(m24)
      invariant Tallied(m5, hs[..i]) && Lists5(m5, chans5) && Caught(m5, hs[..i])
    {
      assert hs[..i + 1] == hs[..i] + [hs[i]];
      m24 := Count24(m24, hs[..i], hs[i]);
      m5 := Count5(m5, hs[..i], hs[i], chans5);
      i := i + 1;
    }
    assert hs[..|hs|] == hs;
  }

  predicate Unseen(hs: seq<Hotspot>, ch: nat) { Count(hs, ch) == 0 && RssiSum(hs, ch) == 0 && Ssids(hs, ch) == [] }

  lemma UnseenGrows(hs: seq<Hotspot>, h: Hotspot, ch: nat)
    requires Unseen(hs, ch) && h.channel != ch
    ensures Unseen(hs + [h], ch)
  {
    assert (hs + [h])[..|hs|] == hs;
  }

  method Penalty24(m: map<nat, Tally>, hs: seq<Hotspot>, ch: nat) returns (penalty: int)
    requires Tallied(m, hs) && Lists24(m) && 1 <= ch <= 13
    ensures penalty == 22 * Count(hs, ch) + 12 * Neighbours(hs, ch) + if ch in PREFERRED_24 then 0 else 15
  {
    penalty := m[ch].count * 22;
    ghost var near := 0;
    for offset := -2 to 3
      invariant offset <= -2 ==> near == 0
      invariant offset == -1 ==> near == CountIn24(hs, ch - 2)
      invariant offset == 0 || offset == 1 ==> near == CountIn24(hs, ch - 2) + CountIn24(hs, ch - 1)
      invariant offset == 2 ==> near == CountIn24(hs, ch - 2) + CountIn24(hs, ch - 1) + CountIn24(hs, ch + 1)
      invariant offset == 3 ==> near == Neighbours(hs, ch)
      invariant penalty == 22 * Count(hs, ch) + 12 * near
    {
      if offset != 0 && 0 <= ch + offset && ch + offset in m {
        near := near + m[ch + offset].count;
        penalty := penalty + m[ch + offset].count * 12;
      }
    }
    if !(ch == 1 || ch == 6 || ch == 11) { penalty := penalty + 15; }
  }

  method List24(m: map<nat, Tally>, hs: seq<Hotspot>) returns (list: seq<ChannelInfo>)
    requires Tallied(m, hs) && Lists24(m)
    ensures |list| == 13 && forall i :: 0 <= i < 13 ==> list[i] == Info24(hs, i + 1)
  {
    list := [];
    for ch := 1 to 14
      invariant |list| == ch - 1 && forall i :: 0 <= i < |list| ==> list[i] == Info24(hs, i + 1)
    {
      var avg := -100;
      if m[ch].count > 0 { avg := Quotient(m[ch].sum, m[ch].count); }
      var penalty := Penalty24(m, hs, ch);
      var score := 100 - penalty;
      if score < 5 { score := 5; }
      list := list + [ChannelInfo(ch, 2407 + ch * 5, m[ch].count, m[ch].ssids, avg, Level24(m[ch].count, score), score)];
    }
  }

  method List5(m: map<nat, Tally>, hs: seq<Hotspot>, chans5: seq<nat>) returns (list: seq<ChannelInfo>)
    requires Tallied(m, hs) && Lists5(m, chans5)
    ensures |list| == |chans5| && forall i :: 0 <= i < |list| ==> list[i] == Info5(hs, chans5[i])
  {
    list := [];
    var i := 0;
    while i < |chans5|
      invariant i <= |chans5| && |list| == i && forall k :: 0 <= k < i ==> list[k] == Info5(hs, chans5[k])
    {
      var ch := chans5[i];
      var avg := -100;
      if m[ch].count > 0 { avg := Quotient(m[ch].sum, m[ch].count); }
      var score := 100 - m[ch].count * 20;
      if score < 10 { score := 10; }
      list := list + [ChannelInfo(ch, 5000 + ch * 5, m[ch].count, m[ch].ssids, avg, Level5(m[ch].count), score)];
      i := i + 1;
    }
  }

  /** The first candidate that no candidate beats. */
  predicate IsBest(scores: seq<int>, k: nat) {
    k < |scores| && (forall i :: 0 <= i < |scores| ==> scores[i] <= scores[k]) && forall i :: 0 <= i < k ==> scores[i] < scores[k]
  }

  /** The running best, which starts at the first candidate with a score below every real one. */
  method Best(scores: seq<int>) returns (k: nat)
    requires scores != [] && forall i :: 0 <= i < |scores| ==> scores[i] >= 0
    ensures IsBest(scores, k)
  {
    var best := -1;
    k := 0;
    var i := 0;
    while i < |scores|
      invariant i <= |scores| && (i == 0 ==> best == -1 && k == 0)
      invariant i > 0 ==> k < i && best == scores[k]
      invariant forall j :: 0 <= j < i ==> scores[j] <= best
      invariant i > 0 ==> forall j :: 0 <= j < k ==> scores[j] < best
    {
      if scores[i] > best { best, k := scores[i], i; }
      i := i + 1;
    }
  }

  method Best24(list: seq<ChannelInfo>, hs: seq<Hotspot>) returns (best: nat)
    requires |list| == 13 && forall i :: 0 <= i < 13 ==> list[i] == Info24(hs, i + 1)
    ensures best in PREFERRED_24
    ensures forall ch :: ch in PREFERRED_24 ==> Score24(hs, ch) <= Score24(hs, best) && (ch < best ==> Score24(hs, ch) < Score24(hs, best))
  {
    var scores := [list[0].score, list[5].score, list[10].score];
    var k := Best(scores);
    best := PREFERRED_24[k];
    assert scores == [Score24(hs, 1), Score24(hs, 6), Score24(hs, 11)];
    assert scores[0] <= scores[k] && scores[1] <= scores[k] && scores[2] <= scores[k];
  }

  method Best5(list: seq<ChannelInfo>, hs: seq<Hotspot>, chans5: seq<nat>) returns (best: nat)
    requires |list| == |chans5| > 0 && forall i :: 0 <= i < |list| ==> list[i] == Info5(hs, chans5[i])
    ensures best in chans5 && forall i :: 0 <= i < |chans5| ==> Score5(hs, chans5[i]) <= Score5(hs, best)
  {
    var scores := seq(|list|, i requires 0 <= i < |list| => list[i].score);
    var k := Best(scores);
    best := chans5[k];
    forall i | 0 <= i < |chans5| ensures Score5(hs, chans5[i]) <= Score5(hs, best) { assert scores[i] <= scores[k]; }
  }

  method ReportFor(hs: seq<Hotspot>, chans5: seq<nat>) returns (r: Report)
    requires chans5 != [] && forall ch :: ch in chans5 ==> 36 <= ch <= 165
    ensures r.total == |hs|
    ensures |r.channels24| == 13 && forall i :: 0 <= i < 13 ==> r.channels24[i] == Info24(hs, i + 1)
    ensures |r.channels5| == |chans5| && forall i :: 0 <= i < |chans5| ==> r.channels5[i] == Info5(hs, chans5[i])
    ensures r.optimal24 in PREFERRED_24
    ensures forall ch :: ch in PREFERRED_24 ==> Score24(hs, ch) <= Score24(hs, r.optimal24) && (ch < r.optimal24 ==> Score24(hs, ch) < Score24(hs, r.optimal24))
    ensures r.optimal5 in chans5 && forall i :: 0 <= i < |chans5| ==> Score5(hs, chans5[i]) <= Score5(hs, r.optimal5)
  {
    var m24, m5 := CountHotspots(hs, chans5);
    var list24 := List24(m24, hs);
    var list5 := List5(m5, hs, chans5);
    var best24 := Best24(list24, hs);
    var best5 := Best5(list5, hs, chans5);
    r := Report(list24, list5, best24, best5, |hs|);
  }

  method GenerateSpectrumReport(hs: seq<Hotspot>) returns (r: Report)
    ensures r.total == |hs|
    ensures |r.channels24| == 13 && forall i :: 0 <= i < 13 ==> r.channels24[i] == Info24(hs, i + 1)
    ensures |r.channels5| == |CHANNELS_5| && forall i :: 0 <= i < |CHANNELS_5| ==> r.channels5[i] == Info5(hs, CHANNELS_5[i])
    ensures r.optimal24 in PREFERRED_24
    ensures forall ch :: ch in PREFERRED_24 ==> Score24(hs, ch) <= Score24(hs, r.optimal24) && (ch < r.optimal24 ==> Score24(hs, ch) < Score24(hs, r.optimal24))
    ensures r.optimal5 in CHANNELS_5 && forall i :: 0 <= i < |CHANNELS_5| ==> Score5(hs, CHANNELS_5[i]) <= Score5(hs, r.optimal5)
  {
    r := ReportFor(hs, CHANNELS_5);
  }

  // What the numbers mean

  lemma ScoresAreBounded(hs: seq<Hotspot>, ch: nat)
    ensures 1 <= ch <= 13 ==> 5 <= Score24(hs, ch) <= 100
    ensures 10 <= Score5(hs, ch) <= 100
  {
  }

  lemma {:induction false} CountConcat(a: seq<Hotspot>, b: seq<Hotspot>, ch: nat)
    ensures Count(a + b, ch) == Count(a, ch) + Count(b, ch)
    decreases |b|
  {
    if b == [] {
      assert a + b == a;
    } else {
      assert (a + b)[..|a + b| - 1] == a + b[..|b| - 1];
      CountConcat(a, b[..|b| - 1], ch);
    }
  }

  /** One more hotspot, wherever in the list, raises no channel's score. */
  lemma ScoresOnlyFall(a: seq<Hotspot>, h: Hotspot, b: seq<Hotspot>, ch: nat)
    ensures 1 <= ch <= 13 ==> Score24(a + [h] + b, ch) <= Score24(a + b, ch)
    ensures Score5(a + [h] + b, ch) <= Score5(a + b, ch)
  {
    forall c: nat ensures Count(a + b, c) <= Count(a + [h] + b, c) {
      CountConcat(a, b, c);
      CountConcat(a + [h], b, c);
      CountConcat(a, [h], c);
    }
  }

  /** A network on the channel itself, or within two of it, does lower a score that is not at the floor. */
  lemma ScoreReacts(hs: seq<Hotspot>, h: Hotspot, ch: nat)
    requires 1 <= ch <= 13 && 1 <= h.channel <= 13 && -2 <= h.channel - ch <= 2 && Score24(hs, ch) > 5
    ensures Score24(hs + [h], ch) < Score24(hs, ch)
    ensures Score24(hs + [h], ch) == Max(5, Score24(hs, ch) - if h.channel == ch then 22 else 12)
  {
    assert (hs + [h])[..|hs|] == hs;
    forall c: nat ensures Count(hs + [h], c) == Count(hs, c) + if h.channel == c then 1 else 0 {
    }
  }

  function CountAll(hs: seq<Hotspot>, chans: seq<nat>): nat
    decreases |chans|
  {
    if chans == [] then 0 else CountAll(hs, chans[..|chans| - 1]) + Count(hs, chans[|chans| - 1])
  }

  /** Hotspots whose channel is in neither list. */
  function Ignored(hs: seq<Hotspot>, a: seq<nat>, b: seq<nat>): nat
    decreases |hs|
  {
    if hs == [] then 0
    else Ignored(hs[..|hs| - 1], a, b) + if hs[|hs| - 1].channel in a || hs[|hs| - 1].channel in b then 0 else 1
  }

  predicate Distinct(chans: seq<nat>) { forall i, j :: 0 <= i < j < |chans| ==> chans[i] != chans[j] }

  lemma {:induction false} CountAllGrows(hs: seq<Hotspot>, h: Hotspot, chans: seq<nat>)
    requires Distinct(chans)
    ensures CountAll(hs + [h], chans) == CountAll(hs, chans) + if h.channel in chans then 1 else 0
    decreases |chans|
  {
    if chans != [] {
      var n := |chans| - 1;
      CountAllGrows(hs, h, chans[..n]);
      assert (hs + [h])[..|hs|] == hs;
      assert chans == chans[..n] + [chans[n]];
      assert h.channel == chans[n] ==> h.channel !in chans[..n];
    }
  }

  lemma {:induction false} CountAllNone(chans: seq<nat>)
    ensures CountAll([], chans) == 0
    decreases |chans|
  {
    if chans != [] { CountAllNone(chans[..|chans| - 1]); }
  }

  lemma {:induction false} CountsOfLists(hs: seq<Hotspot>, a: seq<nat>, b: seq<nat>)
    requires Distinct(a) && Distinct(b) && forall ch :: ch in a ==> ch !in b
    ensures CountAll(hs, a) + CountAll(hs, b) + Ignored(hs, a, b) == |hs|
    decreases |hs|
  {
    if hs == [] {
      CountAllNone(a);
      CountAllNone(b);
    } else {
      var n := |hs| - 1;
      CountsOfLists(hs[..n], a, b);
      assert hs == hs[..n] + [hs[n]];
      CountAllGrows(hs[..n], hs[n], a);
      CountAllGrows(hs[..n], hs[n], b);
    }
  }

  predicate Ascending(chans: seq<nat>) { forall i :: 0 < i < |chans| ==> chans[i - 1] < chans[i] }

  lemma {:induction false} AscendingOrder(chans: seq<nat>, i: nat, j: nat)
    requires Ascending(chans) && i <= j < |chans|
    ensures chans[i] <= chans[j] && (i < j ==> chans[i] < chans[j])
    decreases j
  {
    if i < j { AscendingOrder(chans, i, j - 1); }
  }

  lemma AscendingApart(a: seq<nat>, b: seq<nat>)
    requires Ascending(a) && Ascending(b) && a != [] && b != [] && a[|a| - 1] < b[0]
    ensures Distinct(a) && Distinct(b) && forall ch :: ch in a ==> ch !in b
  {
    forall i, j | 0 <= i < j < |a| ensures a[i] != a[j] { AscendingOrder(a, i, j); }
    forall i, j | 0 <= i < j < |b| ensures b[i] != b[j] { AscendingOrder(b, i, j); }
    forall i, j | 0 <= i < |a| && 0 <= j < |b| ensures a[i] < b[j] {
      AscendingOrder(a, i, |a| - 1);
      AscendingOrder(b, 0, j);
    }
  }

  /** Every hotspot is counted on exactly one listed channel, or is on none of them. */
  lemma CountsAddUp(hs: seq<Hotspot>)
    ensures CountAll(hs, CHANNELS_24) + CountAll(hs, CHANNELS_5) + Ignored(hs, CHANNELS_24, CHANNELS_5) == |hs|
  {
    hide CountAll, Ignored, Distinct;
    AscendingApart(CHANNELS_24, CHANNELS_5);
    CountsOfLists(hs, CHANNELS_24, CHANNELS_5);
  }

  lemma OneMore(x: int, n: nat)
    ensures x * (n + 1) == x * n + x
  {
  }

  lemma {:induction false} SumIsBounded(hs: seq<Hotspot>, ch: nat, lo: int, hi: int)
    requires forall i :: 0 <= i < |hs| && hs[i].channel == ch ==> lo <= hs[i].rssi <= hi
    ensures lo * Count(hs, ch) <= RssiSum(hs, ch) <= hi * Count(hs, ch)
    decreases |hs|
  {
    if hs != [] {
      var before := hs[..|hs| - 1];
      SumIsBounded(before, ch, lo, hi);
      OneMore(lo, Count(before, ch));
      OneMore(hi, Count(before, ch));
    }
  }

  lemma SmallerFactor(x: int, y: int, b: int)
    requires b > 0 && x * b < y * b
    ensures x < y
  {
    assert (y - x) * b > 0;
  }

  lemma QuotientIsBetween(a: int, b: int, lo: int, hi: int)
    requires b > 0 && lo * b <= a <= hi * b
    ensures lo <= Quotient(a, b) <= hi
  {
    var q := Quotient(a, b);
    if a >= 0 {
      SmallerFactor(lo, q + 1, b);
      SmallerFactor(q, hi + 1, b);
    } else {
      SmallerFactor(lo - 1, q, b);
      SmallerFactor(q - 1, hi, b);
    }
  }

  /** A channel's average lies between the weakest and the strongest signal seen on it. */
  lemma AverageIsBetween(hs: seq<Hotspot>, ch: nat, lo: int, hi: int)
    requires Count(hs, ch) > 0
    requires forall i :: 0 <= i < |hs| && hs[i].channel == ch ==> lo <= hs[i].rssi <= hi
    ensures lo <= AvgRssi(hs, ch) <= hi
  {
    SumIsBounded(hs, ch, lo, hi);
    QuotientIsBetween(RssiSum(hs, ch), Count(hs, ch), lo, hi);
  }

  /** A quiet band: every channel has its best score and is clean, and 1, 6 and 11 are better than the rest. */
  lemma {:induction false} QuietBand(ch: nat)
    ensures 1 <= ch <= 13 ==>
      Score24([], ch) == (if ch == 1 || ch == 6 || ch == 11 then 100 else 85) && Info24([], ch).level == Clean && Info24([], ch).avgRssi == -100
    ensures Score5([], ch) == 100 && Info5([], ch).level == Clean && Info5([], ch).avgRssi == -100
  {
  }

  /** A network on a 5 GHz channel lowers its score by 20, down to the floor, and that of no other one. */
  lemma {:induction false} Score5Reacts(hs: seq<Hotspot>, h: Hotspot, ch: nat)
    ensures Score5(hs + [h], ch) == if h.channel == ch then Max(10, Score5(hs, ch) - 20) else Score5(hs, ch)
  {
    assert (hs + [h])[..|hs|] == hs;
  }

  /**
   What a 2.4 GHz channel's level says about the networks around it: clean with none on it and, at most, one near a
   preferred channel; low with up to 40 points of them and at most one on it; and congested with four on it.
   */
  lemma {:induction false} LevelByNetworks(hs: seq<Hotspot>, ch: nat)
    requires 1 <= ch <= 13
    ensures var level, own, near, preferred := Info24(hs, ch).level, Count(hs, ch), Neighbours(hs, ch), ch == 1 || ch == 6 || ch == 11;
            && (level == Clean <==> own == 0 && near <= if preferred then 1 else 0)
            && (level == Clean || level == Low <==>
                  (own == 0 && near <= if preferred then 3 else 2) || (own == 1 && near <= if preferred then 1 else 0))
            && (level == Congested <==> own >= 4)
  {
  }

  function Rank(level: Level): nat { match level case Clean => 0 case Low => 1 case Moderate => 2 case Congested => 3 }

  /** One more hotspot, wherever in the list, makes no channel's level better. */
  lemma {:induction false} LevelsOnlyWorsen(a: seq<Hotspot>, h: Hotspot, b: seq<Hotspot>, ch: nat)
    ensures 1 <= ch <= 13 ==> Rank(Info24(a + b, ch).level) <= Rank(Info24(a + [h] + b, ch).level)
    ensures Rank(Info5(a + b, ch).level) <= Rank(Info5(a + [h] + b, ch).level)
  {
    hide Ssids, RssiSum, Neighbours, Quotient;
    ScoresOnlyFall(a, h, b, ch);
    CountConcat(a, b, ch);
    CountConcat(a + [h], b, ch);
    CountConcat(a, [h], ch);
  }

  /** A channel lists the names of its networks, in the order they were found: those that have one. */
  lemma {:induction false} SsidsAreNames(a: seq<Hotspot>, h: Hotspot, ch: nat)
    ensures Ssids(a + [h], ch) == if h.channel == ch && h.ssid != "" && h.ssid != "<hidden>" then Ssids(a, ch) + [h.ssid] else Ssids(a, ch)
  {
    assert (a + [h])[..|a|] == a;
  }
}
