/** What the group-key loop installs and answers on any inbox, told by the frames; and that a chain of rekeys succeeds. */
module GroupRekeyRuns {
  import opened Common
  import opened Handshake
  import opened GroupRekey

  /** A group key frame with a good MIC and a GTK in its key data. */
  predicate Rekeys(kck: SubKey, kek: SubKey, p: Packet) {
    && p.Key? && !p.frame.body.info.pairwise && p.frame.body.info.mic && VerifyMic(kck, p.frame)
    && ParseKeyData(kek, p.frame.body.keyData, p.frame.body.info.encrypted).Some?
  }

  function GtkOf(kck: SubKey, kek: SubKey, p: Packet): (Gtk, nat)
    requires Rekeys(kck, kek, p)
  {
    ParseKeyData(kek, p.frame.body.keyData, p.frame.body.info.encrypted).value
  }

  /** The GTK that the last of the first `n` deliveries to bring one for this index has left in the table. */
  function LastGtk(kck: SubKey, kek: SubKey, keys0: map<nat, Gtk>, inbox: seq<GroupDelivery>, n: nat, keyId: nat): Option<Gtk>
    requires n <= |inbox|
  {
    if n == 0 then (if keyId in keys0 then Some(keys0[keyId]) else None)
    else
      var d := inbox[n - 1];
      if Rekeys(kck, kek, d.packet) && (d.luck.confirmed || d.luck.applied) && GtkOf(kck, kek, d.packet).1 == keyId
      then Some(GtkOf(kck, kek, d.packet).0)
      else LastGtk(kck, kek, keys0, inbox, n - 1, keyId)
  }

  /** The frames to be answered: those whose install was confirmed, and whose reply could be encoded. */
  function Asking(kck: SubKey, kek: SubKey, inbox: seq<GroupDelivery>, n: nat): seq<Frame>
    requires n <= |inbox|
  {
    if n == 0 then []
    else
      var before, d := Asking(kck, kek, inbox, n - 1), inbox[n - 1];
      if Rekeys(kck, kek, d.packet) && d.luck.confirmed && d.luck.encodeOk then before + [d.packet.frame] else before
  }

  /** A reply to `f`: a signed group frame that is no request, with its counter and its index, and without key data. */
  predicate Answers(kck: SubKey, r: Frame, f: Frame) {
    && VerifyMic(kck, r) && !r.body.info.pairwise && !r.body.info.ack && r.body.info.mic && r.body.info.secure && !r.body.info.encrypted
    && r.body.replay == f.body.replay && r.body.info.index == f.body.info.index && r.body.keyData == Clear(NoGtk)
  }

  /** What is known after `n` deliveries. */
  ghost predicate Known(s: GroupStation, kck: SubKey, kek: SubKey, keys0: map<nat, Gtk>, inbox: seq<GroupDelivery>, n: nat)
    requires n <= |inbox|
  {
    && s.kck == kck && s.kek == kek
    && (forall keyId: nat :: LastGtk(kck, kek, keys0, inbox, n, keyId) == if keyId in s.keys then Some(s.keys[keyId]) else None)
    && var asking := Asking(kck, kek, inbox, n);
    |s.sent| == |asking| && forall k :: 0 <= k < |asking| ==> Answers(kck, s.sent[k], asking[k])
  }

  lemma {:induction false} KnownStep(s: GroupStation, kck: SubKey, kek: SubKey, keys0: map<nat, Gtk>, inbox: seq<GroupDelivery>, n: nat)
    requires n < |inbox| && Known(s, kck, kek, keys0, inbox, n)
    ensures Known(GroupStep(s, inbox[n].packet, inbox[n].luck), kck, kek, keys0, inbox, n + 1)
  {
    hide ParseKeyData;
    var v := GroupStep(s, inbox[n].packet, inbox[n].luck);
    forall keyId: nat ensures LastGtk(kck, kek, keys0, inbox, n + 1, keyId) == if keyId in v.keys then Some(v.keys[keyId]) else None {
      assert LastGtk(kck, kek, keys0, inbox, n, keyId) == if keyId in s.keys then Some(s.keys[keyId]) else None;
    }
  }

  lemma {:induction false} KnownAfter(kck: SubKey, kek: SubKey, keys0: map<nat, Gtk>, inbox: seq<GroupDelivery>, n: nat)
    requires n <= |inbox|
    ensures Known(GroupRun(GroupStation(kck, kek, keys0, []), inbox[..n]), kck, kek, keys0, inbox, n)
  {
    if n > 0 {
      hide Known, GroupStep;
      assert inbox[..n][..n - 1] == inbox[..n - 1] && inbox[..n][n - 1] == inbox[n - 1];
      KnownAfter(kck, kek, keys0, inbox, n - 1);
      KnownStep(GroupRun(GroupStation(kck, kek, keys0, []), inbox[..n - 1]), kck, kek, keys0, inbox, n - 1);
    }
  }

  /**
   On any inbox: the table holds for each index the GTK brought last for it by a rekey frame that was, or may have been,
   installed; and there is one reply, in order, for each rekey frame whose install was confirmed, with its counter and
   its index, and no other.
   */
  lemma {:induction false} LoopOutcome(kck: SubKey, kek: SubKey, keys0: map<nat, Gtk>, inbox: seq<GroupDelivery>)
    ensures var s := GroupRun(GroupStation(kck, kek, keys0, []), inbox);
            && (forall keyId: nat :: LastGtk(kck, kek, keys0, inbox, |inbox|, keyId) == if keyId in s.keys then Some(s.keys[keyId]) else None)
            && |s.sent| == |Asking(kck, kek, inbox, |inbox|)|
            && forall k :: 0 <= k < |s.sent| ==> Answers(kck, s.sent[k], Asking(kck, kek, inbox, |inbox|)[k])
  {
    KnownAfter(kck, kek, keys0, inbox, |inbox|);
    assert inbox[..|inbox|] == inbox;
  }

  // A chain of rekeys

  function Fine(): GroupLuck { GroupLuck(true, true, true) }

  /** One rekey after the other, nothing lost and everything confirmed. */
  function Rekeyed(ks: seq<GroupKey>): seq<LinkEvent> {
    if ks == [] then []
    else Rekeyed(ks[..|ks| - 1]) + [ApStartsRekey(ks[|ks| - 1])] + [StationTakes(Fine())] + [ApTakes]
  }

  function Installed(keys: map<nat, Gtk>, ks: seq<GroupKey>): map<nat, Gtk> {
    if ks == [] then keys else Installed(keys, ks[..|ks| - 1])[ks[|ks| - 1].keyId := ks[|ks| - 1].gtk]
  }

  /** The counters 1 to `n`. */
  function UpTo(n: nat): seq<nat> { if n == 0 then [] else UpTo(n - 1) + [n] }

  predicate Agreed(l: Link, ptk: Ptk, keys: map<nat, Gtk>, ks: seq<GroupKey>) {
    && l.sta.kck == Kck(ptk) && l.sta.kek == Kek(ptk) && l.ap.ptk == ptk && l.toSta == [] && l.toAp == []
    && l.sta.keys == Installed(keys, ks) && l.ap.replay == |ks| && l.ap.accepted == UpTo(|ks|)
  }

  lemma {:induction false} RunSnoc(l: Link, events: seq<LinkEvent>, e: LinkEvent)
    ensures LinkRun(l, events + [e]) == LinkStep(LinkRun(l, events), e)
  {
    assert (events + [e])[..|events|] == events;
  }

  lemma {:induction false} OneRekey(l: Link, ptk: Ptk, keys: map<nat, Gtk>, ks: seq<GroupKey>, key: GroupKey)
    requires Agreed(l, ptk, keys, ks)
    ensures Agreed(LinkStep(LinkStep(LinkStep(l, ApStartsRekey(key)), StationTakes(Fine())), ApTakes), ptk, keys, ks + [key])
  {
    var l1 := LinkStep(l, ApStartsRekey(key));
    TakesAndAnswers(l1, |ks| + 1, key, Fine());
    assert (ks + [key])[..|ks|] == ks;
  }

  /** Each rekey of a chain ends with its GTK installed at its index and its counter accepted by the access point. */
  lemma {:induction false} RekeysSucceed(ptk: Ptk, keys: map<nat, Gtk>, ks: seq<GroupKey>)
    ensures var l := LinkRun(LinkInit(ptk, keys), Rekeyed(ks));
            l.sta.keys == Installed(keys, ks) && l.ap.accepted == UpTo(|ks|) && l.toSta == [] && l.toAp == []
    ensures Agreed(LinkRun(LinkInit(ptk, keys), Rekeyed(ks)), ptk, keys, ks)
    decreases |ks|
  {
    if ks != [] {
      hide LinkStep, Agreed;
      var before, key, first := ks[..|ks| - 1], ks[|ks| - 1], LinkInit(ptk, keys);
      var events := Rekeyed(before);
      RekeysSucceed(ptk, keys, before);
      RunSnoc(first, events, ApStartsRekey(key));
      RunSnoc(first, events + [ApStartsRekey(key)], StationTakes(Fine()));
      RunSnoc(first, events + [ApStartsRekey(key)] + [StationTakes(Fine())], ApTakes);
      OneRekey(LinkRun(first, events), ptk, keys, before, key);
      assert before + [key] == ks;
      AgreedMeans(LinkRun(first, Rekeyed(ks)), ptk, keys, ks);
    }
  }

  lemma AgreedMeans(l: Link, ptk: Ptk, keys: map<nat, Gtk>, ks: seq<GroupKey>)
    requires Agreed(l, ptk, keys, ks)
    ensures l.sta.keys == Installed(keys, ks) && l.ap.accepted == UpTo(|ks|) && l.toSta == [] && l.toAp == []
  {
  }
}
