/** The group-key (GTK) rekey loop that runs for the life of the link (section 12.7.7 of IEEE Std 802.11-2020). */
module GroupRekey {
  // The channel keeps the order of frames but may lose and repeat them. The loop never looks at the replay counter
  // except to echo it, so the order of the channel is what the results rest on.

  import opened Common
  import opened Handshake

  /** The loop's keys, the firmware's group-key table, and the replies handed to the radio. */
  datatype GroupStation = GroupStation(kck: SubKey, kek: SubKey, keys: map<nat, Gtk>, sent: seq<Frame>)

  /**
   The outcome of one MM_KEY_ADD and of encoding the reply.  An install without
   a confirmation may or may not have reached the key table (`applied`).
   */
  datatype GroupLuck = GroupLuck(confirmed: bool, applied: bool, encodeOk: bool)

  function ReplyFrame(kck: SubKey, replay: nat, index: nat): Frame {
    Sign(kck, Body(Info(false, false, true, true, false, index), replay, 0, Clear(NoGtk)))
  }

  function GroupStep(s: GroupStation, p: Packet, luck: GroupLuck): GroupStation {
    if p.NonKey? then s
    else
      var k := p.frame;
      if k.body.info.pairwise || !k.body.info.mic || !VerifyMic(s.kck, k) then s
      else
        match ParseKeyData(s.kek, k.body.keyData, k.body.info.encrypted)
        case None => s
        case Some((gtk, keyId)) =>
          if !luck.confirmed then
            if luck.applied then s.(keys := s.keys[keyId := gtk]) else s
          else
            var s := s.(keys := s.keys[keyId := gtk]);
            // A reply whose bulk write reports an error may still have gone out.
            if luck.encodeOk then s.(sent := s.sent + [ReplyFrame(s.kck, k.body.replay, k.body.info.index)]) else s
  }

  datatype GroupDelivery = GroupDelivery(packet: Packet, luck: GroupLuck)

  function GroupRun(s: GroupStation, inbox: seq<GroupDelivery>): GroupStation {
    if inbox == [] then s
    else
      var last := |inbox| - 1;
      GroupStep(GroupRun(s, inbox[..last]), inbox[last].packet, inbox[last].luck)
  }

  /** The loop as written; the end of `inbox` is the cancellation of its context. */
  method MaintainGroupKey(kck: SubKey, kek: SubKey, keys0: map<nat, Gtk>, inbox: seq<GroupDelivery>)
    returns (keys: map<nat, Gtk>, sent: seq<Frame>)
    ensures GroupStation(kck, kek, keys, sent) == GroupRun(GroupStation(kck, kek, keys0, []), inbox)
  {
    keys, sent := keys0, [];
    for i := 0 to |inbox|
      invariant GroupStation(kck, kek, keys, sent) == GroupRun(GroupStation(kck, kek, keys0, []), inbox[..i])
    {
      assert inbox[..i + 1][..i] == inbox[..i];
      var p, luck := inbox[i].packet, inbox[i].luck;
      if p.NonKey? { continue; }
      var k := p.frame;
      if k.body.info.pairwise || !k.body.info.mic { continue; }
      if !VerifyMic(kck, k) { continue; }
      var parsed := ParseKeyData(kek, k.body.keyData, k.body.info.encrypted);
      if parsed.None? { continue; }
      var (gtk, keyId) := parsed.value;
      if luck.confirmed || luck.applied { keys := keys[keyId := gtk]; }
      if !luck.confirmed { continue; }
      var reply := ReplyFrame(kck, k.body.replay, k.body.info.index);
      if !luck.encodeOk { continue; }
      sent := sent + [reply];
    }
    assert inbox[..|inbox|] == inbox;
  }

  /** Not a group key frame, no MIC or a wrong one, or no GTK in its key data. */
  predicate Rejected(kck: SubKey, kek: SubKey, p: Packet) {
    || p.NonKey? || p.frame.body.info.pairwise || !p.frame.body.info.mic || !VerifyMic(kck, p.frame)
    || ParseKeyData(kek, p.frame.body.keyData, p.frame.body.info.encrypted).None?
  }

  /** The deliveries whose packets are not rejected, in order. */
  function Heeded(kck: SubKey, kek: SubKey, inbox: seq<GroupDelivery>): seq<GroupDelivery> {
    if inbox == [] then []
    else
      var last := |inbox| - 1;
      var before := Heeded(kck, kek, inbox[..last]);
      if Rejected(kck, kek, inbox[last].packet) then before else before + [inbox[last]]
  }

  lemma {:induction false} KeysStay(s: GroupStation, inbox: seq<GroupDelivery>)
    ensures GroupRun(s, inbox).kck == s.kck && GroupRun(s, inbox).kek == s.kek
  {
    if inbox != [] { KeysStay(s, inbox[..|inbox| - 1]); }
  }

  /** Rejected packets, wherever and however many, change nothing of what a whole run installs and answers. */
  lemma {:induction false} RejectedFramesChangeNothing(s: GroupStation, inbox: seq<GroupDelivery>)
    ensures GroupRun(s, inbox) == GroupRun(s, Heeded(s.kck, s.kek, inbox))
  {
    if inbox != [] {
      var last := |inbox| - 1;
      var before := Heeded(s.kck, s.kek, inbox[..last]);
      RejectedFramesChangeNothing(s, inbox[..last]);
      KeysStay(s, inbox[..last]);
      if !Rejected(s.kck, s.kek, inbox[last].packet) {
        assert (before + [inbox[last]])[..|before|] == before;
      }
    }
  }

  /** A retransmitted msg3, or any other pairwise frame, is never answered by the loop that follows the handshake. */
  lemma {:induction false} PairwiseFramesGoUnanswered(s: GroupStation, inbox: seq<GroupDelivery>)
    requires forall i :: 0 <= i < |inbox| ==> inbox[i].packet.Key? && inbox[i].packet.frame.body.info.pairwise
    ensures GroupRun(s, inbox) == s
  {
    if inbox != [] { PairwiseFramesGoUnanswered(s, inbox[..|inbox| - 1]); }
  }

  /** Whatever the replay counters of the frames are, the same keys are installed and as many replies sent. */
  lemma {:induction false} CountersDecideNothing(s: GroupStation, a: seq<GroupDelivery>, b: seq<GroupDelivery>)
    requires |a| == |b|
    requires forall i :: 0 <= i < |a| ==> SameButCounter(a[i].packet, b[i].packet) && a[i].luck == b[i].luck
    ensures GroupRun(s, a).keys == GroupRun(s, b).keys && |GroupRun(s, a).sent| == |GroupRun(s, b).sent|
  {
    if a != [] {
      var last := |a| - 1;
      CountersDecideNothing(s, a[..last], b[..last]);
      KeysStay(s, a[..last]);
      KeysStay(s, b[..last]);
      assert SameButCounter(a[last].packet, b[last].packet);
    }
  }

  // ---- The access point and the ordered channel ----------------------------------

  datatype GroupKey = GroupKey(gtk: Gtk, keyId: nat)

  /**
   `first` is the counter of the first message of the rekey in progress; `log`
   says which key went out with each counter.
   */
  datatype GroupAp = GroupAp(ptk: Ptk, replay: nat, first: nat, current: GroupKey, log: map<nat, GroupKey>, accepted: seq<nat>)

  datatype Link = Link(sta: GroupStation, ap: GroupAp, toSta: seq<Packet>, toAp: seq<Frame>)

  function GroupFrame(ptk: Ptk, replay: nat, key: GroupKey): Frame {
    Sign(Kck(ptk), Body(Info(false, true, true, true, true, key.keyId), replay, 0,
                        Wrapped(Kek(ptk), GtkKde(key.gtk, key.keyId))))
  }

  datatype LinkEvent =
    | ApStartsRekey(key: GroupKey)
    | ApRetransmits
    | ChannelLoses(i: nat)
    | ChannelRepeats(i: nat)
    | ChannelInjects(i: nat, p: Packet)
    | ReplyLost(i: nat)
    | StationTakes(luck: GroupLuck)
    | ApTakes

  /** Frames somebody else can put on the channel: nothing that verifies, or an echo of the station's own reply. */
  predicate Injectable(l: Link, p: Packet) {
    || p.NonKey? || p.frame.body.info.pairwise || !p.frame.body.info.mic || !VerifyMic(l.sta.kck, p.frame)
    || p.frame in l.sta.sent
  }

  function Send(l: Link, first: nat, key: GroupKey): Link {
    var r := l.ap.replay + 1;
    l.(ap := l.ap.(replay := r, first := first, current := key, log := l.ap.log[r := key]),
       toSta := l.toSta + [Key(GroupFrame(l.ap.ptk, r, key))])
  }

  predicate Accepts(l: Link) {
    && l.toAp != []
    && (var f := l.toAp[0];
        && !f.body.info.pairwise && f.body.info.mic && VerifyMic(Kck(l.ap.ptk), f)
        && l.ap.first <= f.body.replay <= l.ap.replay)
  }

  /** One event; an event that is not possible in `l` changes nothing. */
  function LinkStep(l: Link, e: LinkEvent): Link {
    match e
    case ApStartsRekey(key) => Send(l, l.ap.replay + 1, key)
    case ApRetransmits => if l.ap.first <= l.ap.replay then Send(l, l.ap.first, l.ap.current) else l
    case ChannelLoses(i) => if i < |l.toSta| then l.(toSta := l.toSta[..i] + l.toSta[i + 1..]) else l
    case ChannelRepeats(i) => if i < |l.toSta| then l.(toSta := l.toSta[..i] + [l.toSta[i]] + l.toSta[i..]) else l
    case ChannelInjects(i, p) =>
      if i <= |l.toSta| && Injectable(l, p) then l.(toSta := l.toSta[..i] + [p] + l.toSta[i..]) else l
    case ReplyLost(i) => if i < |l.toAp| then l.(toAp := l.toAp[..i] + l.toAp[i + 1..]) else l
    case StationTakes(luck) =>
      if l.toSta == [] then l
      else
        var sta := GroupStep(l.sta, l.toSta[0], luck);
        l.(sta := sta, toSta := l.toSta[1..], toAp := l.toAp + sta.sent[|l.sta.sent|..])
    case ApTakes =>
      if l.toAp == [] then l
      else if Accepts(l) then
        l.(toAp := l.toAp[1..], ap := l.ap.(accepted := l.ap.accepted + [l.toAp[0].body.replay]))
      else l.(toAp := l.toAp[1..])
  }

  /** Both ends hold the PTK of the handshake; no rekey has started. */
  function LinkInit(ptk: Ptk, keys: map<nat, Gtk>): Link {
    Link(GroupStation(Kck(ptk), Kek(ptk), keys, []), GroupAp(ptk, 0, 1, GroupKey(0, 0), map[], []), [], [])
  }

  function LinkRun(l: Link, events: seq<LinkEvent>): Link {
    if events == [] then l
    else
      var last := |events| - 1;
      LinkStep(LinkRun(l, events[..last]), events[last])
  }

  // ---- Invariant ----------------------------------------------------------------------

  predicate Authentic(l: Link, p: Packet) {
    p.Key? && p.frame.body.replay in l.ap.log
    && p.frame == GroupFrame(l.ap.ptk, p.frame.body.replay, l.ap.log[p.frame.body.replay])
  }

  predicate Inert(l: Link, p: Packet) { Rejected(l.sta.kck, l.sta.kek, p) }

  predicate HoldsCurrent(l: Link) {
    l.ap.current.keyId in l.sta.keys && l.sta.keys[l.ap.current.keyId] == l.ap.current.gtk
  }

  predicate Pending(l: Link, p: Packet) { Authentic(l, p) || Inert(l, p) }

  /** Everything still to be received was sent no earlier than any reply still to be accepted. */
  ghost predicate LinkInv(l: Link) {
    && l.sta.kck == Kck(l.ap.ptk) && l.sta.kek == Kek(l.ap.ptk)
    && 1 <= l.ap.first
    && (forall r :: r in l.ap.log ==> r <= l.ap.replay && (r >= l.ap.first ==> l.ap.log[r] == l.ap.current))
    && (forall i :: 0 <= i < |l.toSta| ==> Pending(l, l.toSta[i]))
    && (forall i, j :: 0 <= i < j < |l.toSta| && Authentic(l, l.toSta[i]) && Authentic(l, l.toSta[j])
                       ==> l.toSta[i].frame.body.replay <= l.toSta[j].frame.body.replay)
    && (forall f :: f in l.sta.sent ==> f.body.keyData == Clear(NoGtk) && !f.body.info.encrypted)
    && (forall k :: 0 <= k < |l.toAp| ==> l.toAp[k].body.replay in l.ap.log)
    && (forall k, i :: 0 <= k < |l.toAp| && 0 <= i < |l.toSta| && Authentic(l, l.toSta[i])
                       ==> l.toAp[k].body.replay <= l.toSta[i].frame.body.replay)
    && (forall k :: 0 <= k < |l.toAp| && l.toAp[k].body.replay >= l.ap.first ==> HoldsCurrent(l))
  }

  lemma SendKeepsInv(l: Link, first: nat, key: GroupKey)
    requires LinkInv(l)
    requires first == l.ap.replay + 1 || (first == l.ap.first <= l.ap.replay && key == l.ap.current)
    ensures LinkInv(Send(l, first, key))
  {
    var l' := Send(l, first, key);
    forall i | 0 <= i < |l'.toSta| ensures Pending(l', l'.toSta[i]) {
      if i < |l.toSta| { assert Pending(l, l.toSta[i]); }
    }
    forall i | 0 <= i < |l.toSta| && Authentic(l', l.toSta[i]) ensures l.toSta[i].frame.body.replay <= l.ap.replay {
      assert Pending(l, l.toSta[i]);
    }
    forall i | 0 <= i < |l.toSta| && Authentic(l', l.toSta[i]) ensures Authentic(l, l.toSta[i]) {
      assert Pending(l, l.toSta[i]);
    }
  }

  /** Taking the first packet off the queue. */
  lemma HeadTakenKeepsInv(l: Link)
    requires LinkInv(l) && l.toSta != []
    ensures LinkInv(l.(toSta := l.toSta[1..]))
  {
    var l' := l.(toSta := l.toSta[1..]);
    forall i | 0 <= i < |l'.toSta| ensures l'.toSta[i] == l.toSta[i + 1] && Pending(l', l'.toSta[i]) {
      assert Pending(l, l.toSta[i + 1]);
    }
  }

  lemma InertTakenKeepsInv(l: Link, luck: GroupLuck)
    requires LinkInv(l) && l.toSta != [] && Inert(l, l.toSta[0])
    ensures LinkInv(LinkStep(l, StationTakes(luck)))
  {
    HeadTakenKeepsInv(l);
    assert GroupStep(l.sta, l.toSta[0], luck) == l.sta;
    assert l.toAp + l.sta.sent[|l.sta.sent|..] == l.toAp;
    assert LinkStep(l, StationTakes(luck)) == l.(toSta := l.toSta[1..]);
  }

  /** The station takes the first message of a rekey: it installs that key or nothing, and answers only after installing. */
  lemma {:induction false} AuthenticTaken(l: Link, luck: GroupLuck)
    requires l.sta.kck == Kck(l.ap.ptk) && l.sta.kek == Kek(l.ap.ptk)
    requires l.toSta != [] && Authentic(l, l.toSta[0]) && !Inert(l, l.toSta[0])
    ensures var l', r := LinkStep(l, StationTakes(luck)), l.toSta[0].frame.body.replay;
            var key, reply := l.ap.log[r], ReplyFrame(l.sta.kck, r, l.toSta[0].frame.body.info.index);
            var installed := l.sta.keys[key.keyId := key.gtk];
            && l' == l.(toSta := l.toSta[1..], toAp := l'.toAp, sta := l.sta.(keys := l'.sta.keys, sent := l'.sta.sent))
            && (l'.sta.keys == l.sta.keys || l'.sta.keys == installed)
            && if l'.sta.sent == l.sta.sent then l'.toAp == l.toAp
               else l'.toAp == l.toAp + [reply] && l'.sta.sent == l.sta.sent + [reply] && l'.sta.keys == installed
  {
    var f := l.toSta[0].frame;
    assert l.ap.log[f.body.replay] == GroupKey(f.body.keyData.kdes.gtk, f.body.keyData.kdes.keyId);
  }

  lemma {:induction false} AuthenticTakenKeepsInv(l: Link, luck: GroupLuck)
    requires LinkInv(l) && l.toSta != [] && Authentic(l, l.toSta[0]) && !Inert(l, l.toSta[0])
    ensures LinkInv(LinkStep(l, StationTakes(luck)))
  {
    hide LinkStep, GroupStep;
    var l' := LinkStep(l, StationTakes(luck));
    AuthenticTaken(l, luck);
    forall i | 0 <= i < |l'.toSta| ensures l'.toSta[i] == l.toSta[i + 1] && Pending(l', l'.toSta[i]) {
      assert Pending(l, l.toSta[i + 1]);
    }
  }

  lemma StationTakesKeepsInv(l: Link, luck: GroupLuck)
    requires LinkInv(l) && l.toSta != []
    ensures LinkInv(LinkStep(l, StationTakes(luck)))
  {
    assert Pending(l, l.toSta[0]);
    if Inert(l, l.toSta[0]) { InertTakenKeepsInv(l, luck); } else { AuthenticTakenKeepsInv(l, luck); }
  }

  /** A queue rebuilt from the old one in order, with only inert packets added, is as good as the old one. */
  lemma RethreadKeepsInv(l: Link, q: seq<Packet>, from: seq<int>)
    requires LinkInv(l) && |from| == |q|
    requires forall i :: 0 <= i < |q| ==> from[i] < |l.toSta|
    requires forall i :: 0 <= i < |q| && from[i] >= 0 ==> q[i] == l.toSta[from[i]]
    requires forall i :: 0 <= i < |q| && from[i] < 0 ==> Inert(l, q[i]) && !Authentic(l, q[i])
    requires forall i, j :: 0 <= i < j < |q| && from[i] >= 0 && from[j] >= 0 ==> from[i] <= from[j]
    ensures LinkInv(l.(toSta := q))
  {
    var l' := l.(toSta := q);
    forall i | 0 <= i < |q| ensures Pending(l', q[i]) {
      if from[i] >= 0 { assert Pending(l, l.toSta[from[i]]); }
    }
    forall i, j | 0 <= i < j < |q| && Authentic(l', q[i]) && Authentic(l', q[j])
      ensures q[i].frame.body.replay <= q[j].frame.body.replay
    {
      assert Authentic(l, q[i]) && Authentic(l, q[j]);
      assert from[i] >= 0 && from[j] >= 0;
    }
    forall k, i | 0 <= k < |l'.toAp| && 0 <= i < |q| && Authentic(l', q[i])
      ensures l'.toAp[k].body.replay <= q[i].frame.body.replay
    {
      assert Authentic(l, q[i]) && from[i] >= 0;
    }
  }

  lemma LossKeepsInv(l: Link, i: nat)
    requires LinkInv(l) && i < |l.toSta|
    ensures LinkInv(l.(toSta := l.toSta[..i] + l.toSta[i + 1..]))
  {
    RethreadKeepsInv(l, l.toSta[..i] + l.toSta[i + 1..],
                     seq(|l.toSta| - 1, k => if k < i then k else k + 1));
  }

  lemma RepeatKeepsInv(l: Link, i: nat)
    requires LinkInv(l) && i < |l.toSta|
    ensures LinkInv(l.(toSta := l.toSta[..i] + [l.toSta[i]] + l.toSta[i..]))
  {
    RethreadKeepsInv(l, l.toSta[..i] + [l.toSta[i]] + l.toSta[i..],
                     seq(|l.toSta| + 1, k => if k <= i then k else k - 1));
  }

  lemma InjectKeepsInv(l: Link, i: nat, p: Packet)
    requires LinkInv(l) && i <= |l.toSta| && Injectable(l, p)
    ensures LinkInv(l.(toSta := l.toSta[..i] + [p] + l.toSta[i..]))
  {
    assert Inert(l, p);
    RethreadKeepsInv(l, l.toSta[..i] + [p] + l.toSta[i..],
                     seq(|l.toSta| + 1, k => if k < i then k else if k == i then -1 else k - 1));
  }

  lemma LinkStepKeepsInv(l: Link, e: LinkEvent)
    requires LinkInv(l)
    ensures LinkInv(LinkStep(l, e))
  {
    hide LinkInv;
    match e
    case ApStartsRekey(key) => SendKeepsInv(l, l.ap.replay + 1, key);
    case ApRetransmits => if l.ap.first <= l.ap.replay { SendKeepsInv(l, l.ap.first, l.ap.current); }
    case ChannelLoses(i) => if i < |l.toSta| { LossKeepsInv(l, i); }
    case ChannelRepeats(i) => if i < |l.toSta| { RepeatKeepsInv(l, i); }
    case ChannelInjects(i, p) => if i <= |l.toSta| && Injectable(l, p) { InjectKeepsInv(l, i, p); }
    case StationTakes(luck) => if l.toSta != [] { StationTakesKeepsInv(l, luck); }
    case ReplyLost(i) => ReplyRemovedKeepsInv(l, i, LinkStep(l, e));
    case ApTakes => ReplyRemovedKeepsInv(l, 0, LinkStep(l, e));
  }

  lemma ReplyRemovedKeepsInv(l: Link, i: nat, l': Link)
    requires LinkInv(l)
    requires l' == l || (i < |l.toAp| && l' == l.(toAp := l.toAp[..i] + l.toAp[i + 1..], ap := l.ap.(accepted := l'.ap.accepted)))
    ensures LinkInv(l')
  {
    forall j | 0 <= j < |l'.toSta| ensures Pending(l', l'.toSta[j]) {
      assert Pending(l, l.toSta[j]);
    }
    forall k | 0 <= k < |l'.toAp| ensures exists k' :: 0 <= k' < |l.toAp| && l'.toAp[k] == l.toAp[k'] {
      if l' != l {
        var k' := if k < i then k else k + 1;
        assert l'.toAp[k] == l.toAp[k'];
      } else {
        assert l'.toAp[k] == l.toAp[k];
      }
    }
  }

  lemma {:induction false} LinkRunKeepsInv(l: Link, events: seq<LinkEvent>)
    requires LinkInv(l)
    ensures LinkInv(LinkRun(l, events))
  {
    if events != [] {
      var last := |events| - 1;
      LinkRunKeepsInv(l, events[..last]);
      LinkStepKeepsInv(LinkRun(l, events[..last]), events[last]);
    }
  }

  // ---- Main result -------------------------------------------------------------------------

  /**
   Whenever the access point accepts a reply for counter `r`, over every run of
   losses, repetitions, injected frames and retransmissions: the key it sent with
   `r` is the key of the rekey in progress, and the station holds exactly that
   GTK at exactly that index at that moment.
   */
  lemma AcceptedReplyMeansInstalled(ptk: Ptk, keys: map<nat, Gtk>, events: seq<LinkEvent>)
    requires Accepts(LinkRun(LinkInit(ptk, keys), events))
    ensures var l := LinkRun(LinkInit(ptk, keys), events);
            var r := l.toAp[0].body.replay;
            && LinkStep(l, ApTakes).ap.accepted == l.ap.accepted + [r]
            && r in l.ap.log && l.ap.log[r] == l.ap.current
            && l.ap.log[r].keyId in l.sta.keys && l.sta.keys[l.ap.log[r].keyId] == l.ap.log[r].gtk
  {
    LinkRunKeepsInv(LinkInit(ptk, keys), events);
  }

  // ---- Without the order ------------------------------------------------------------------

  lemma RunTwo(l: Link, a: LinkEvent, b: LinkEvent)
    ensures LinkRun(l, [a, b]) == LinkStep(LinkStep(l, a), b)
  {
    assert [a, b][..1] == [a] && [a][..0] == [];
    assert LinkRun(l, [a]) == LinkStep(LinkRun(l, []), a);
  }

  /** What the station does with the first message of a rekey when everything goes well. */
  lemma TakesAndAnswers(l: Link, r: nat, key: GroupKey, luck: GroupLuck)
    requires l.toSta != [] && l.toSta[0] == Key(GroupFrame(l.ap.ptk, r, key)) && luck.confirmed && luck.encodeOk
    requires l.sta.kck == Kck(l.ap.ptk) && l.sta.kek == Kek(l.ap.ptk)
    ensures var reply := ReplyFrame(l.sta.kck, r, key.keyId);
            LinkStep(l, StationTakes(luck)) ==
            l.(sta := l.sta.(keys := l.sta.keys[key.keyId := key.gtk], sent := l.sta.sent + [reply]),
               toSta := l.toSta[1..], toAp := l.toAp + [reply])
  {
  }

  /**
   The order is needed: two rekeys for one index, their frames swapped on the way. The station answers both;
   the access point accepts the answer to the second, and the station holds the key of the first.
   */
  lemma SwappedFramesBreakTheAgreement(ptk: Ptk, keys: map<nat, Gtk>, earlier: GroupKey, later: GroupKey)
    requires earlier.keyId == later.keyId && earlier.gtk != later.gtk
    ensures var sent := LinkRun(LinkInit(ptk, keys), [ApStartsRekey(earlier), ApStartsRekey(later)]);
            && |sent.toSta| == 2
            && (var fine := GroupLuck(true, true, true);
                var l := LinkRun(sent.(toSta := [sent.toSta[1], sent.toSta[0]]), [StationTakes(fine), StationTakes(fine)]);
                && Accepts(l) && l.ap.current == later && later.keyId in l.sta.keys && l.sta.keys[later.keyId] == earlier.gtk)
  {
    RunTwo(LinkInit(ptk, keys), ApStartsRekey(earlier), ApStartsRekey(later));
    var sent := LinkRun(LinkInit(ptk, keys), [ApStartsRekey(earlier), ApStartsRekey(later)]);
    var fine := GroupLuck(true, true, true);
    var swapped := sent.(toSta := [sent.toSta[1], sent.toSta[0]]);
    RunTwo(swapped, StationTakes(fine), StationTakes(fine));
    TakesAndAnswers(swapped, 2, later, fine);
    TakesAndAnswers(LinkStep(swapped, StationTakes(fine)), 1, earlier, fine);
  }
}
