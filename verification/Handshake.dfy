/** The WPA2-PSK 4-way handshake as the host supplicant runs it (section 12.7.6 of IEEE Std 802.11-2020). */
module Handshake {
  // Its partners are an honest access point and a network that loses, duplicates, reorders and injects frames.
  // Cryptography is symbolic: keys, wrapped blobs and MICs are terms, so two of them are equal only when they
  // were built from the same parts.

  import opened Common

  // ---- Terms ---------------------------------------------------------------

  type Nonce = nat
  type Gtk = nat

  /** A pairwise transient key.  As in lmac.PTK the nonces are sorted. */
  datatype Ptk = Ptk(pmk: nat, low: Nonce, high: Nonce)

  /** The three slices of a PTK: bytes 0-15, 16-31 and 32-47. */
  datatype SubKey = Kck(ptk: Ptk) | Kek(ptk: Ptk) | Tk(ptk: Ptk)

  function DerivePtk(pmk: nat, aNonce: Nonce, sNonce: Nonce): Ptk {
    if aNonce < sNonce then Ptk(pmk, aNonce, sNonce) else Ptk(pmk, sNonce, aNonce)
  }

  /** The key-info bits the supplicant looks at. */
  datatype Info = Info(pairwise: bool, ack: bool, mic: bool, secure: bool, encrypted: bool, index: nat)

  /** The plaintext KDE list, as far as ParseKeyData reads it. */
  datatype Kdes = NoGtk | GtkKde(gtk: Gtk, keyId: nat)

  datatype KeyData = Clear(kdes: Kdes) | Wrapped(kek: SubKey, kdes: Kdes)

  /** Everything in a key frame that its MIC covers. */
  datatype Body = Body(info: Info, replay: nat, nonce: Nonce, keyData: KeyData)

  datatype Mic = NoMic | Mic(kck: SubKey, body: Body)

  datatype Frame = Frame(body: Body, mic: Mic)

  /** What KeyFrame.Decode makes of the bytes that arrive on the EAPOL channel. */
  datatype Packet = NonKey | Key(frame: Frame)

  /** Which of the four messages the key-info bits describe; 0 for none. */
  function Msg(i: Info): nat {
    if i.ack && !i.mic then 1
    else if !i.ack && i.mic && !i.secure then 2
    else if i.ack && i.mic && i.secure then 3
    else if !i.ack && i.mic && i.secure then 4
    else 0
  }

  function Sign(kck: SubKey, body: Body): Frame {
    Frame(body, Mic(kck, body))
  }

  predicate VerifyMic(kck: SubKey, f: Frame) {
    f.mic == Mic(kck, f.body)
  }

  function ParseKeyData(kek: SubKey, data: KeyData, encrypted: bool): Option<(Gtk, nat)> {
    var plain: Option<Kdes> :=
      if !encrypted then
        // The clear list as it is; a ciphertext walked as a list yields no GTK.
        if data.Clear? then Some(data.kdes) else Some(NoGtk)
      else if data.Wrapped? && data.kek == kek then Some(data.kdes)
      else None;
    match plain
    case Some(GtkKde(gtk, keyId)) => Some((gtk, keyId))
    case _ => None
  }

  // ---- The station -----------------------------------------------------------

  datatype Phase = AwaitMsg1 | AwaitMsg3 | Returned(rc: int)

  /** A command submitted to the firmware, and whether it was confirmed. */
  datatype Command =
    | OpenPort(confirmed: bool)
    | AddPtk(tk: SubKey, confirmed: bool)
    | AddGtk(gtk: Gtk, keyId: nat, confirmed: bool)

  /** The local variables of runEapolHandshake, and what it has sent. */
  datatype Station = Station(
    pmk: nat, phase: Phase, msg1: Option<Frame>, sNonce: Nonce,
    ptk: Option<Ptk>, kck: Option<SubKey>, kek: Option<SubKey>,
    msg3: Option<Frame>, sent: seq<Frame>, commands: seq<Command>)

  /** What the world outside decides while one frame is handled. */
  datatype Luck = Luck(sNonce: Nonce, randOk: bool, sendOk: bool, ptkOk: bool, gtkOk: bool, portOk: bool)

  /** The control port is opened before the handshake, whatever the firmware answers. */
  function StationInit(pmk: nat, preOpened: bool): Station {
    Station(pmk, AwaitMsg1, None, 0, None, None, None, None, [], [OpenPort(preOpened)])
  }

  function Msg2Frame(kck: SubKey, replay: nat, sNonce: Nonce): Frame {
    Sign(kck, Body(Info(true, false, true, false, false, 0), replay, sNonce, Clear(NoGtk)))
  }

  function Msg4Frame(kck: SubKey, replay: nat): Frame {
    Sign(kck, Body(Info(true, false, true, true, false, 0), replay, 0, Clear(NoGtk)))
  }

  /** Take msg1 `f`, derive the keys from its nonce and answer with msg2. */
  function AnswerMsg1(s: Station, f: Frame, sNonce: Nonce, sendOk: bool): Station {
    var ptk := DerivePtk(s.pmk, f.body.nonce, sNonce);
    s.(msg1 := Some(f), sNonce := sNonce, ptk := Some(ptk), kck := Some(Kck(ptk)), kek := Some(Kek(ptk)),
       sent := s.sent + [Msg2Frame(Kck(ptk), f.body.replay, sNonce)],
       phase := if sendOk then AwaitMsg3 else Returned(1))
  }

  /** Unwrap the GTK of the verified msg3 `f`, send msg4 and install the keys. */
  function AcceptMsg3(s: Station, f: Frame, luck: Luck): Station
    requires s.ptk.Some? && s.kck.Some? && s.kek.Some?
  {
    var s := s.(msg3 := Some(f));
    match ParseKeyData(s.kek.value, f.body.keyData, f.body.info.encrypted)
    case None => s.(phase := Returned(1))
    case Some((gtk, keyId)) =>
      var s := s.(sent := s.sent + [Msg4Frame(s.kck.value, f.body.replay)]);
      if !luck.sendOk then s.(phase := Returned(1))
      else
        s.(commands := s.commands +
                       [AddPtk(Tk(s.ptk.value), luck.ptkOk), AddGtk(gtk, keyId, luck.gtkOk), OpenPort(luck.portOk)],
           phase := if luck.ptkOk && luck.gtkOk && luck.portOk then Returned(0) else Returned(1))
  }

  predicate HasKeys(s: Station) {
    s.phase == AwaitMsg3 ==> s.ptk.Some? && s.kck.Some? && s.kek.Some?
  }

  /** One receive of the supplicant. */
  function StationStep(s: Station, p: Packet, luck: Luck): (r: Station)
    requires HasKeys(s)
    ensures HasKeys(r)
  {
    if p.NonKey? || s.phase.Returned? || !p.frame.body.info.pairwise then s
    else
      var f := p.frame;
      match s.phase
      case AwaitMsg1 =>
        if Msg(f.body.info) != 1 then s
        else if !luck.randOk then s.(msg1 := Some(f), phase := Returned(1))
        else AnswerMsg1(s, f, luck.sNonce, luck.sendOk)
      case AwaitMsg3 =>
        if Msg(f.body.info) == 1 then AnswerMsg1(s, f, s.sNonce, luck.sendOk)
        else if Msg(f.body.info) == 3 && VerifyMic(s.kck.value, f) then AcceptMsg3(s, f, luck)
        else s
      case Returned(_) => s
  }

  datatype Delivery = Delivery(packet: Packet, luck: Luck)

  function StationRun(s: Station, inbox: seq<Delivery>): (r: Station)
    requires HasKeys(s)
    ensures HasKeys(r)
    decreases |inbox|
  {
    if inbox == [] then s
    else StationRun(StationStep(s, inbox[0].packet, inbox[0].luck), inbox[1..])
  }

  lemma {:induction false} ReturnedStays(s: Station, inbox: seq<Delivery>)
    requires s.phase.Returned?
    ensures StationRun(s, inbox) == s
  {
    if inbox != [] { ReturnedStays(s, inbox[1..]); }
  }

  /**
   The supplicant as written: wait for msg1, answer it, then wait for msg3 while
   answering further copies of msg1.  `inbox` is what the channel delivers before
   the deadline; running out of it is the timeout or the cancellation.
   */
  method RunEapolHandshake(pmk: nat, preOpened: bool, inbox: seq<Delivery>)
    returns (rc: int, sent: seq<Frame>, commands: seq<Command>)
    ensures var s := StationRun(StationInit(pmk, preOpened), inbox);
            && rc == (if s.phase.Returned? then s.phase.rc else 1)
            && sent == s.sent && commands == s.commands
  {
    ghost var s := StationInit(pmk, preOpened);
    ghost var final := StationRun(s, inbox);
    sent, commands := [], [OpenPort(preOpened)];

    // --- msg1 ---
    var i := 0;
    var msg1: Option<Frame> := None;
    while i < |inbox| && msg1.None?
      invariant 0 <= i <= |inbox|
      invariant msg1.None? ==> s == StationInit(pmk, preOpened)
      invariant msg1.Some? ==> i > 0 && inbox[i - 1].packet == Key(msg1.value)
      invariant msg1.Some? ==> msg1.value.body.info.pairwise && Msg(msg1.value.body.info) == 1
      invariant msg1.Some? ==> s == StationStep(StationInit(pmk, preOpened), inbox[i - 1].packet, inbox[i - 1].luck)
      invariant StationRun(s, inbox[i..]) == final
    {
      var p := inbox[i].packet;
      s := StationStep(s, p, inbox[i].luck);
      if p.Key? && p.frame.body.info.pairwise && Msg(p.frame.body.info) == 1 {
        msg1 := Some(p.frame);
      }
      i := i + 1;
      assert inbox[i - 1..][1..] == inbox[i..];
    }
    if msg1.None? { return 1, sent, commands; }

    // --- msg2 ---
    var luck := inbox[i - 1].luck;
    if !luck.randOk {
      ReturnedStays(s, inbox[i..]);
      return 1, sent, commands;
    }
    var sNonce := luck.sNonce;
    var ptk := DerivePtk(pmk, msg1.value.body.nonce, sNonce);
    var kck, kek := Kck(ptk), Kek(ptk);
    var msg2Replay := msg1.value.body.replay;
    sent := sent + [Msg2Frame(kck, msg2Replay, sNonce)];
    if !luck.sendOk {
      ReturnedStays(s, inbox[i..]);
      return 1, sent, commands;
    }

    // --- msg3, answering retransmitted msg1 ---
    var msg3: Option<Frame> := None;
    while i < |inbox| && msg3.None?
      invariant 0 < i <= |inbox|
      invariant s.sent == sent && s.commands == commands
      invariant s.pmk == pmk && s.phase == AwaitMsg3 && s.msg3.None? && s.sNonce == sNonce
      invariant s.ptk == Some(ptk) && s.kck == Some(kck) && s.kek == Some(kek)
      invariant msg3.None? ==> StationRun(s, inbox[i..]) == final
      invariant msg3.Some? ==> StationRun(AcceptMsg3(s, msg3.value, luck), inbox[i..]) == final
    {
      var p := inbox[i].packet;
      luck := inbox[i].luck;
      i := i + 1;
      assert inbox[i - 1..][1..] == inbox[i..];
      if p.Key? && p.frame.body.info.pairwise {
        var k := p.frame;
        if Msg(k.body.info) == 1 {
          s := StationStep(s, p, luck);
          msg1 := Some(k);
          ptk := DerivePtk(pmk, k.body.nonce, sNonce);
          kck, kek := Kck(ptk), Kek(ptk);
          msg2Replay := k.body.replay;
          sent := sent + [Msg2Frame(kck, msg2Replay, sNonce)];
          if !luck.sendOk {
            ReturnedStays(s, inbox[i..]);
            return 1, sent, commands;
          }
        } else if Msg(k.body.info) == 3 && VerifyMic(kck, k) {
          msg3 := Some(k);
        }
      }
    }
    if msg3.None? { return 1, sent, commands; }

    // --- GTK, msg4, key install ---
    s := AcceptMsg3(s, msg3.value, luck);
    ReturnedStays(s, inbox[i..]);
    var parsed := ParseKeyData(kek, msg3.value.body.keyData, msg3.value.body.info.encrypted);
    if parsed.None? { return 1, sent, commands; }
    sent := sent + [Msg4Frame(kck, msg3.value.body.replay)];
    if !luck.sendOk { return 1, sent, commands; }
    commands := commands +
      [AddPtk(Tk(ptk), luck.ptkOk), AddGtk(parsed.value.0, parsed.value.1, luck.gtkOk), OpenPort(luck.portOk)];
    rc := if luck.ptkOk && luck.gtkOk && luck.portOk then 0 else 1;
  }

  // ---- The access point and the air ---------------------------------------------

  /** What the access point knows about one msg3 it sent. */
  datatype Msg3 = Msg3(replay: nat, aNonce: Nonce, ptk: Ptk, gtk: Gtk, keyId: nat)

  datatype Ap = Ap(pmk: nat, replay: nat, aNonce: Option<Nonce>, ptk: Option<Ptk>,
                   log: seq<Msg3>, accepted: set<nat>)

  /** Station, access point, and every frame the access point ever sent. */
  datatype World = World(sta: Station, ap: Ap, apSent: set<Frame>)

  function Msg1Frame(replay: nat, aNonce: Nonce): Frame {
    Frame(Body(Info(true, true, false, false, false, 0), replay, aNonce, Clear(NoGtk)), NoMic)
  }

  function Msg3Frame(m: Msg3): Frame {
    Sign(Kck(m.ptk), Body(Info(true, true, true, true, true, 0), m.replay, m.aNonce,
                          Wrapped(Kek(m.ptk), GtkKde(m.gtk, m.keyId))))
  }

  datatype Event =
    | ApSendsMsg1(aNonce: Nonce)
    | ApGetsMsg2(f: Frame, gtk: Gtk, keyId: nat)
    | ApRepeatsMsg3(gtk: Gtk, keyId: nat)
    | ApGetsMsg4(f: Frame)
    | StationGets(p: Packet, luck: Luck)
    | StationGivesUp

  /** Only holders of a PMK can make a frame whose MIC verifies under a key derived from it. */
  predicate Foreign(f: Frame, pmk: nat) {
    f.mic.Mic? && f.mic.body == f.body ==> f.mic.kck.ptk.pmk != pmk
  }

  /**
   What the network can hand to a party holding `pmk`: any frame ever sent by
   either side, as often and in whatever order it likes, or any frame at all
   that carries no valid MIC.
   */
  predicate Deliverable(w: World, f: Frame, pmk: nat) {
    f in w.apSent || f in w.sta.sent || Foreign(f, pmk)
  }

  function SendMsg3(w: World, ptk: Ptk, aNonce: Nonce, gtk: Gtk, keyId: nat): World {
    var m := Msg3(w.ap.replay + 1, aNonce, ptk, gtk, keyId);
    w.(ap := w.ap.(replay := m.replay, ptk := Some(ptk), log := w.ap.log + [m]),
       apSent := w.apSent + {Msg3Frame(m)})
  }

  /** One event; an event that is not possible in `w` changes nothing. */
  function Step(w: World, e: Event): World
    requires HasKeys(w.sta)
  {
    match e
    case ApSendsMsg1(aNonce) =>
      var r := w.ap.replay + 1;
      w.(ap := w.ap.(replay := r, aNonce := Some(aNonce), ptk := None),
         apSent := w.apSent + {Msg1Frame(r, aNonce)})
    case ApGetsMsg2(f, gtk, keyId) =>
      if && w.ap.aNonce.Some? && f.body.info.pairwise && Msg(f.body.info) == 2
         && Deliverable(w, f, w.ap.pmk)
         && VerifyMic(Kck(DerivePtk(w.ap.pmk, w.ap.aNonce.value, f.body.nonce)), f)
      then SendMsg3(w, DerivePtk(w.ap.pmk, w.ap.aNonce.value, f.body.nonce), w.ap.aNonce.value, gtk, keyId)
      else w
    case ApRepeatsMsg3(gtk, keyId) =>
      if w.ap.ptk.Some? && w.ap.aNonce.Some? then SendMsg3(w, w.ap.ptk.value, w.ap.aNonce.value, gtk, keyId) else w
    case ApGetsMsg4(f) =>
      if && w.ap.ptk.Some? && f.body.info.pairwise && Msg(f.body.info) == 4
         && Deliverable(w, f, w.ap.pmk) && VerifyMic(Kck(w.ap.ptk.value), f)
         && exists m :: m in w.ap.log && m.replay == f.body.replay && m.ptk == w.ap.ptk.value
      then w.(ap := w.ap.(accepted := w.ap.accepted + {f.body.replay}))
      else w
    case StationGets(p, luck) =>
      if p.NonKey? || Deliverable(w, p.frame, w.sta.pmk) then w.(sta := StationStep(w.sta, p, luck)) else w
    case StationGivesUp =>
      if w.sta.phase.Returned? then w else w.(sta := w.sta.(phase := Returned(1)))
  }

  function WorldInit(staPmk: nat, apPmk: nat, preOpened: bool): World {
    World(StationInit(staPmk, preOpened), Ap(apPmk, 0, None, None, [], {}), {})
  }

  /** The world after `events`, whatever their order. */
  function Run(w: World, events: seq<Event>): (r: World)
    requires HasKeys(w.sta)
    ensures HasKeys(r.sta)
  {
    if events == [] then w
    else
      var last := |events| - 1;
      Step(Run(w, events[..last]), events[last])
  }

  // ---- Invariant -----------------------------------------------------------------

  ghost predicate ApFrame(ap: Ap, f: Frame) {
    || (f.mic.NoMic? && Msg(f.body.info) == 1)
    || (exists m :: m in ap.log && f == Msg3Frame(m))
  }

  /** The frames the station sends: msg2 under its own PMK, and one msg4 answering `s.msg3`. */
  ghost predicate StationFrame(s: Station, f: Frame) {
    || (&& Msg(f.body.info) == 2 && f.body.nonce == s.sNonce && s.phase != AwaitMsg1
        && exists n :: f.mic == Mic(Kck(DerivePtk(s.pmk, n, s.sNonce)), f.body))
    || (s.phase.Returned? && s.msg3.Some? && s.kck.Some? && f == Msg4Frame(s.kck.value, s.msg3.value.body.replay))
  }

  /** Keys always derive from the msg1 that is held now. */
  predicate KeysMatchMsg1(s: Station) {
    && (s.ptk.Some? ==> && s.msg1.Some?
                        && s.ptk.value == DerivePtk(s.pmk, s.msg1.value.body.nonce, s.sNonce)
                        && s.kck == Some(Kck(s.ptk.value)) && s.kek == Some(Kek(s.ptk.value)))
    && (s.phase == AwaitMsg3 ==> s.ptk.Some?)
    && (s.phase == AwaitMsg1 ==> s.ptk.None?)
  }

  /** The access point only ever derives a PTK from its own nonce and the station's, under a shared PMK. */
  predicate DerivedTogether(w: World, ptk: Ptk, aNonce: Nonce) {
    && w.sta.pmk == w.ap.pmk && w.sta.phase != AwaitMsg1
    && ptk == DerivePtk(w.ap.pmk, aNonce, w.sta.sNonce)
  }

  /** The msg3 the station took is one the access point sent under the station's own PTK. */
  ghost predicate Agreed(w: World) {
    && w.sta.ptk.Some? && w.sta.msg3.Some?
    && exists m :: m in w.ap.log && w.sta.msg3.value == Msg3Frame(m) && m.ptk == w.sta.ptk.value
  }

  ghost predicate Inv(w: World) {
    && KeysMatchMsg1(w.sta)
    && (forall f :: f in w.apSent ==> ApFrame(w.ap, f))
    && (forall f :: f in w.sta.sent ==> StationFrame(w.sta, f))
    && (forall m :: m in w.ap.log ==> m.replay <= w.ap.replay && DerivedTogether(w, m.ptk, m.aNonce))
    && (forall i, j :: 0 <= i < j < |w.ap.log| ==> w.ap.log[i].replay < w.ap.log[j].replay)
    && (w.ap.ptk.Some? ==> w.ap.aNonce.Some? && DerivedTogether(w, w.ap.ptk.value, w.ap.aNonce.value))
    && (w.sta.phase == AwaitMsg1 ==> w.sta.sent == [])
    && (w.sta.msg3.Some? ==> w.sta.phase.Returned? && Agreed(w))
    && (!w.sta.phase.Returned? ==> |w.sta.commands| == 1)
    && (w.sta.phase == Returned(0) ==> Installed(w.sta))
    && (forall r :: r in w.ap.accepted ==> Acknowledged(w, r))
  }

  /** Both keys and the port were installed and confirmed, from the msg3 the station holds. */
  ghost predicate Installed(s: Station) {
    && s.msg3.Some? && s.ptk.Some? && s.kck.Some? && s.kek.Some?
    && (var parsed := ParseKeyData(s.kek.value, s.msg3.value.body.keyData, s.msg3.value.body.info.encrypted);
        && parsed.Some? && |s.commands| == 4
        && s.commands[1..] == [AddPtk(Tk(s.ptk.value), true), AddGtk(parsed.value.0, parsed.value.1, true), OpenPort(true)])
    && Msg4Frame(s.kck.value, s.msg3.value.body.replay) in s.sent
  }

  ghost predicate Acknowledged(w: World, replay: nat) {
    && w.sta.msg3.Some? && w.sta.msg3.value.body.replay == replay && Agreed(w)
  }

  lemma {:induction false} StationKeepsInv(w: World, p: Packet, luck: Luck)
    requires Inv(w) && HasKeys(w.sta)
    ensures Inv(Step(w, StationGets(p, luck)))
  {
    var w' := Step(w, StationGets(p, luck));
    if w' != w && w.sta.phase == AwaitMsg3 && Msg(p.frame.body.info) == 3 {
      MicNamesTheSender(w, p.frame);
    }
  }

  /** A msg3 that verifies under the station's KCK can only be the access point's. */
  lemma MicNamesTheSender(w: World, f: Frame)
    requires Inv(w) && w.sta.kck.Some? && w.sta.ptk.Some? && w.sta.phase == AwaitMsg3
    requires Msg(f.body.info) == 3 && Deliverable(w, f, w.sta.pmk) && VerifyMic(w.sta.kck.value, f)
    ensures exists m :: m in w.ap.log && f == Msg3Frame(m) && m.ptk == w.sta.ptk.value
  {
    assert !Foreign(f, w.sta.pmk);
    assert !StationFrame(w.sta, f);
    assert ApFrame(w.ap, f);
  }

  lemma SendMsg3KeepsInv(w: World, ptk: Ptk, aNonce: Nonce, gtk: Gtk, keyId: nat)
    requires Inv(w) && w.ap.aNonce == Some(aNonce) && DerivedTogether(w, ptk, aNonce)
    ensures Inv(SendMsg3(w, ptk, aNonce, gtk, keyId))
  {
    var w' := SendMsg3(w, ptk, aNonce, gtk, keyId);
    var m := w'.ap.log[|w.ap.log|];
    assert m in w'.ap.log;
    forall f | f in w'.apSent ensures ApFrame(w'.ap, f) {
      if f in w.apSent { assert ApFrame(w.ap, f); }
    }
  }

  /** A msg2 the access point accepts was sent by the station under the same PMK and its own nonce. */
  lemma Msg2NamesTheStation(w: World, f: Frame, ptk: Ptk)
    requires Inv(w) && w.ap.aNonce.Some? && ptk == DerivePtk(w.ap.pmk, w.ap.aNonce.value, f.body.nonce)
    requires Msg(f.body.info) == 2 && Deliverable(w, f, w.ap.pmk) && VerifyMic(Kck(ptk), f)
    ensures DerivedTogether(w, ptk, w.ap.aNonce.value)
  {
    assert !Foreign(f, w.ap.pmk);
    assert f in w.apSent ==> !ApFrame(w.ap, f);
    assert StationFrame(w.sta, f);
  }

  /** A msg4 the access point accepts is the one the station sent for that very msg3. */
  lemma Msg4NamesTheMsg3(w: World, f: Frame)
    requires Inv(w) && w.ap.ptk.Some?
    requires Msg(f.body.info) == 4 && Deliverable(w, f, w.ap.pmk) && VerifyMic(Kck(w.ap.ptk.value), f)
    ensures Acknowledged(w, f.body.replay)
  {
    assert !Foreign(f, w.ap.pmk);
    assert f in w.apSent ==> !ApFrame(w.ap, f);
    assert StationFrame(w.sta, f);
  }

  lemma {:induction false} StepKeepsInv(w: World, e: Event)
    requires Inv(w) && HasKeys(w.sta)
    ensures Inv(Step(w, e))
  {
    var w' := Step(w, e);
    match e
    case ApSendsMsg1(_) =>
      forall f | f in w'.apSent ensures ApFrame(w'.ap, f) {
        if f in w.apSent { assert ApFrame(w.ap, f); }
      }
    case ApGetsMsg2(f, gtk, keyId) =>
      if w' != w {
        Msg2NamesTheStation(w, f, DerivePtk(w.ap.pmk, w.ap.aNonce.value, f.body.nonce));
        SendMsg3KeepsInv(w, DerivePtk(w.ap.pmk, w.ap.aNonce.value, f.body.nonce), w.ap.aNonce.value, gtk, keyId);
      }
    case ApRepeatsMsg3(gtk, keyId) =>
      if w' != w { SendMsg3KeepsInv(w, w.ap.ptk.value, w.ap.aNonce.value, gtk, keyId); }
    case ApGetsMsg4(f) =>
      if w' != w { Msg4NamesTheMsg3(w, f); }
    case StationGets(p, luck) => StationKeepsInv(w, p, luck);
    case StationGivesUp =>
  }

  lemma {:induction false} RunKeepsInv(w: World, events: seq<Event>)
    requires Inv(w) && HasKeys(w.sta)
    ensures Inv(Run(w, events))
  {
    if events != [] {
      var last := |events| - 1;
      RunKeepsInv(w, events[..last]);
      StepKeepsInv(Run(w, events[..last]), events[last]);
    }
  }

  // ---- Main results -----------------------------------------------------------------

  /**
   A return of 0 means agreement.  There is exactly one msg3 in the access
   point's log with the accepted replay counter; both sides derived the same PTK
   (so both hold the same PMK), its TK was installed as the pairwise key, the GTK
   that msg3 wrapped was installed at the index it named, msg4 echoed that replay
   counter under the same KCK, and all three installs were confirmed.
   */
  lemma {:induction false} Agreement(staPmk: nat, apPmk: nat, preOpened: bool, events: seq<Event>)
    returns (m: Msg3)
    requires Run(WorldInit(staPmk, apPmk, preOpened), events).sta.phase == Returned(0)
    ensures var w := Run(WorldInit(staPmk, apPmk, preOpened), events);
            && m in w.ap.log && w.sta.msg3 == Some(Msg3Frame(m))
            && (forall other :: other in w.ap.log && other.replay == m.replay ==> other == m)
            && w.sta.msg1.Some? && w.sta.msg1.value.body.nonce == m.aNonce
            && m.ptk == DerivePtk(w.sta.pmk, w.sta.msg1.value.body.nonce, w.sta.sNonce)
            && w.sta.pmk == w.ap.pmk
            && |w.sta.commands| == 4
            && w.sta.commands[1..] == [AddPtk(Tk(m.ptk), true), AddGtk(m.gtk, m.keyId, true), OpenPort(true)]
            && Msg4Frame(Kck(m.ptk), m.replay) in w.sta.sent
  {
    var w := Run(WorldInit(staPmk, apPmk, preOpened), events);
    RunKeepsInv(WorldInit(staPmk, apPmk, preOpened), events);
    m :| m in w.ap.log && w.sta.msg3.value == Msg3Frame(m) && m.ptk == w.sta.ptk.value;
  }

  /**
   The access point's side: when it accepts a msg4 for replay counter `r`, the
   station has verified exactly the msg3 the access point sent with `r` and holds
   its PTK.
   */
  lemma {:induction false} AcceptedMsg4MeansStationHasMsg3(staPmk: nat, apPmk: nat, preOpened: bool, events: seq<Event>, r: nat)
    requires r in Run(WorldInit(staPmk, apPmk, preOpened), events).ap.accepted
    ensures var w := Run(WorldInit(staPmk, apPmk, preOpened), events);
            exists m :: m in w.ap.log && m.replay == r && w.sta.msg3 == Some(Msg3Frame(m)) && w.sta.ptk == Some(m.ptk)
  {
    RunKeepsInv(WorldInit(staPmk, apPmk, preOpened), events);
  }

  /** The msg4 of a station that took a msg3. */
  function ItsMsg4(s: Station): Frame
    requires s.kck.Some? && s.msg3.Some?
  {
    Msg4Frame(s.kck.value, s.msg3.value.body.replay)
  }

  lemma {:induction false} ReturnedStationStays(w: World, events: seq<Event>)
    requires HasKeys(w.sta) && w.sta.phase.Returned?
    ensures Run(w, events).sta == w.sta
  {
    if events != [] { ReturnedStationStays(w, events[..|events| - 1]); }
  }

  /** The one event by which the access point can finish with a station that has returned 0. */
  lemma {:induction false} OnlyItsMsg4Finishes(w: World, e: Event)
    requires HasKeys(w.sta) && Inv(w) && w.sta.phase == Returned(0)
    ensures w.sta.kck.Some? && w.sta.msg3.Some?
    ensures Step(w, e).ap.accepted != {} <==> w.ap.accepted != {} || (e == ApGetsMsg4(ItsMsg4(w.sta)) && w.ap.ptk == w.sta.ptk)
  {
    if e.ApGetsMsg4? {
      var m :| m in w.ap.log && w.sta.msg3.value == Msg3Frame(m) && m.ptk == w.sta.ptk.value;
      var v := Step(w, e);
      if v.ap.accepted != w.ap.accepted {
        assert !Foreign(e.f, w.ap.pmk);
        assert e.f in w.apSent ==> !ApFrame(w.ap, e.f);
        assert StationFrame(w.sta, e.f);
      }
      if e.f == ItsMsg4(w.sta) && w.ap.ptk == w.sta.ptk { assert e.f.body.replay in v.ap.accepted; }
    }
  }

  predicate ArrivesAt(w: World, after: seq<Event>, i: nat)
    requires HasKeys(w.sta) && w.sta.kck.Some? && w.sta.msg3.Some?
  {
    i < |after| && after[i] == ApGetsMsg4(ItsMsg4(w.sta)) && Run(w, after[..i]).ap.ptk == w.sta.ptk
  }

  lemma {:induction false} FinishesIff(w: World, after: seq<Event>)
    requires HasKeys(w.sta) && Inv(w) && w.sta.phase == Returned(0) && w.ap.accepted == {}
    ensures w.sta.kck.Some? && w.sta.msg3.Some?
    ensures Run(w, after).ap.accepted != {} <==> exists i :: 0 <= i < |after| && ArrivesAt(w, after, i)
  {
    hide Step, ItsMsg4;
    if after != [] {
      var last := |after| - 1;
      var before := after[..last];
      FinishesIff(w, before);
      RunKeepsInv(w, before);
      ReturnedStationStays(w, before);
      OnlyItsMsg4Finishes(Run(w, before), after[last]);
      forall i | 0 <= i < last ensures ArrivesAt(w, before, i) <==> ArrivesAt(w, after, i) {
        assert before[..i] == after[..i];
      }
      if ArrivesAt(w, after, last) { assert after[..last] == before; }
      if i :| 0 <= i < |after| && ArrivesAt(w, after, i) { assert i < last ==> ArrivesAt(w, before, i); }
      if i :| 0 <= i < last && ArrivesAt(w, before, i) { assert ArrivesAt(w, after, i); }
    }
  }

  /**
   Once the station has returned 0, the access point finishes exactly if one copy of its msg4 arrives while the
   access point still holds that PTK. The station sends no second one, whatever the access point retransmits.
   */
  lemma {:induction false} AccessPointFinishesIff(staPmk: nat, apPmk: nat, preOpened: bool, before: seq<Event>, after: seq<Event>)
    requires var w := Run(WorldInit(staPmk, apPmk, preOpened), before); w.sta.phase == Returned(0) && w.ap.accepted == {}
    ensures var w := Run(WorldInit(staPmk, apPmk, preOpened), before);
            && w.sta.kck.Some? && w.sta.msg3.Some? && Run(w, after).sta.sent == w.sta.sent
            && (Run(w, after).ap.accepted != {} <==> exists i :: 0 <= i < |after| && ArrivesAt(w, after, i))
  {
    var w := Run(WorldInit(staPmk, apPmk, preOpened), before);
    RunKeepsInv(WorldInit(staPmk, apPmk, preOpened), before);
    FinishesIff(w, after);
    ReturnedStationStays(w, after);
  }

  /** In every run the KCK and KEK in use derive from the nonce of the msg1 held at that moment. */
  lemma {:induction false} KeysFollowHeldNonce(staPmk: nat, apPmk: nat, preOpened: bool, events: seq<Event>)
    requires Run(WorldInit(staPmk, apPmk, preOpened), events).sta.phase == AwaitMsg3
    ensures var s := Run(WorldInit(staPmk, apPmk, preOpened), events).sta;
            && s.msg1.Some?
            && s.kck == Some(Kck(DerivePtk(s.pmk, s.msg1.value.body.nonce, s.sNonce)))
            && s.kek == Some(Kek(DerivePtk(s.pmk, s.msg1.value.body.nonce, s.sNonce)))
  {
    RunKeepsInv(WorldInit(staPmk, apPmk, preOpened), events);
  }

  /** The two nonces enter the derivation symmetrically, and nothing else collides. */
  lemma PtkSymmetricAndInjective(pmk: nat, a: Nonce, s: Nonce, a': Nonce)
    ensures DerivePtk(pmk, a, s) == DerivePtk(pmk, s, a)
    ensures DerivePtk(pmk, a, s) == DerivePtk(pmk, a', s) <==> a == a'
  {
  }

  // ---- What the loop does not do ----------------------------------------------------

  lemma {:induction false} CommandsGrow(s: Station, inbox: seq<Delivery>)
    requires HasKeys(s)
    ensures s.commands <= StationRun(s, inbox).commands
    decreases |inbox|
  {
    if inbox != [] {
      var t := StationStep(s, inbox[0].packet, inbox[0].luck);
      assert s.commands <= t.commands;
      CommandsGrow(t, inbox[1..]);
    }
  }

  /** Every run opens the control port with its first command, confirmed or not; keys come later if they come. */
  lemma PortOpensBeforeKeys(pmk: nat, preOpened: bool, inbox: seq<Delivery>)
    ensures var c := StationRun(StationInit(pmk, preOpened), inbox).commands;
            c != [] && c[0] == OpenPort(preOpened)
  {
    CommandsGrow(StationInit(pmk, preOpened), inbox);
  }

  /** The same packet but for its replay counter, and verified by the same keys. */
  ghost predicate SameButCounter(p: Packet, q: Packet) {
    || (p.NonKey? && q.NonKey?)
    || (p.Key? && q.Key? && q.frame.body == p.frame.body.(replay := q.frame.body.replay)
        && forall kck :: VerifyMic(kck, p.frame) <==> VerifyMic(kck, q.frame))
  }

  ghost predicate SameButCounters(a: seq<Delivery>, b: seq<Delivery>) {
    |a| == |b| && forall i :: 0 <= i < |a| ==> SameButCounter(a[i].packet, b[i].packet) && a[i].luck == b[i].luck
  }

  predicate AlikeStations(s: Station, t: Station) {
    t == s.(msg1 := t.msg1, msg3 := t.msg3, sent := t.sent) && |t.sent| == |s.sent|
  }

  lemma {:induction false} StepsAlike(s: Station, t: Station, p: Packet, q: Packet, luck: Luck)
    requires HasKeys(s) && AlikeStations(s, t) && SameButCounter(p, q)
    ensures HasKeys(t) && AlikeStations(StationStep(s, p, luck), StationStep(t, q, luck))
  {
  }

  lemma {:induction false} RunsAlike(s: Station, t: Station, a: seq<Delivery>, b: seq<Delivery>)
    requires HasKeys(s) && AlikeStations(s, t) && SameButCounters(a, b)
    ensures HasKeys(t) && AlikeStations(StationRun(s, a), StationRun(t, b))
    decreases |a|
  {
    if a != [] {
      StepsAlike(s, t, a[0].packet, b[0].packet, a[0].luck);
      RunsAlike(StationStep(s, a[0].packet, a[0].luck), StationStep(t, b[0].packet, b[0].luck), a[1..], b[1..]);
    }
  }

  /** Whatever the replay counters of the frames are, the run ends the same way and issues the same commands. */
  lemma CountersDecideNothing(pmk: nat, preOpened: bool, a: seq<Delivery>, b: seq<Delivery>)
    requires SameButCounters(a, b)
    ensures var s, t := StationRun(StationInit(pmk, preOpened), a), StationRun(StationInit(pmk, preOpened), b);
            s.phase == t.phase && s.commands == t.commands
  {
    RunsAlike(StationInit(pmk, preOpened), StationInit(pmk, preOpened), a, b);
  }
}

/**
 EAPOL-Key frames on the wire: the codec, the MIC over the encoded bytes, and
 the search for the GTK in the unwrapped key data (figure 12-33 and section
 12.7.2 of IEEE Std 802.11-2016).
 */
module KeyFrames {
  import opened Common
  import opened Buffers
  import opened Elements
  import H = Handshake

  const KEY_FRAME_FIXED := 99
  const MIC_OFFSET := 81

  const INFO_SHA1 := 0x0002
  const INFO_PAIRWISE := 0x0008
  const INFO_MIC := 0x0100
  const INFO_SECURE := 0x0200

  type Bytes8 = s: seq<Byte> | |s| == 8 witness [0, 0, 0, 0, 0, 0, 0, 0]
  type Bytes16 = s: seq<Byte> | |s| == 16 witness [0, 0, 0, 0, 0, 0, 0, 0, 0, 0, 0, 0, 0, 0, 0, 0]
  type Bytes32 = s: seq<Byte> | |s| == 32 witness [0, 0, 0, 0, 0, 0, 0, 0, 0, 0, 0, 0, 0, 0, 0, 0, 0, 0, 0, 0, 0, 0, 0, 0, 0, 0, 0, 0, 0, 0, 0, 0]
  type Word16 = n: int | 0 <= n < TWO_16
  type Digest = s: seq<Byte> | |s| == 20 witness [0, 0, 0, 0, 0, 0, 0, 0, 0, 0, 0, 0, 0, 0, 0, 0, 0, 0, 0, 0]

  /** The replay counter is kept as its eight bytes; it is only ever copied and compared. */
  datatype KeyFrame = KeyFrame(
    version: Byte, keyInfo: Word16, keyLen: Word16, replay: Bytes8, nonce: Bytes32, iv: Bytes16,
    rsc: Bytes8, reserved: Bytes8, mic: Bytes16, keyData: seq<Byte>, raw: seq<Byte>)

  datatype DecodeResult = Decoded(frame: KeyFrame) | ShortFrame | NotRsnKey | BadDescriptorVersion | ShortKeyData

  function Decode(f: seq<Byte>): (r: DecodeResult) {
    if |f| < KEY_FRAME_FIXED then ShortFrame
    else if f[1] != 3 || f[4] != 2 then NotRsnKey
    else if FromBE16(f[5..7]) % 8 != 2 then BadDescriptorVersion
    else
      var kdl := FromBE16(f[97..99]);
      if |f| < KEY_FRAME_FIXED + kdl then ShortKeyData
      else
        Decoded(KeyFrame(f[0], FromBE16(f[5..7]), FromBE16(f[7..9]), f[9..17], f[17..49], f[49..65],
                         f[65..73], f[73..81], f[81..97], f[99..99 + kdl], f[..99 + kdl]))
  }

  /** The length fields are 16 bits wide and truncate like the source's conversions. */
  function EncodeStart(k: KeyFrame): (r: seq<Byte>)
    ensures |r| == 9
  {
    [if k.version == 0 then 1 else k.version, 3] + BE16((95 + |k.keyData|) % TWO_16) + [2]
    + BE16(k.keyInfo) + BE16(k.keyLen)
  }

  function EncodeMiddle(k: KeyFrame): (r: seq<Byte>)
    ensures |r| == 72
  {
    k.replay + k.nonce + k.iv + k.rsc + k.reserved
  }

  function EncodeSpec(k: KeyFrame): (r: seq<Byte>)
    ensures |r| == KEY_FRAME_FIXED + |k.keyData|
  {
    EncodeStart(k) + EncodeMiddle(k) + (k.mic + BE16(|k.keyData| % TWO_16) + k.keyData)
  }

  /** Encode builds the frame field by field in a zeroed buffer. */
  method Encode(k: KeyFrame) returns (out: array<Byte>)
    ensures fresh(out) && out[..] == EncodeSpec(k)
  {
    out := new Byte[KEY_FRAME_FIXED + |k.keyData|](_ => 0);
    out[0] := k.version;
    if out[0] == 0 { out[0] := 1; }
    out[1] := 3;
    ghost var version := if k.version == 0 then 1 else k.version;
    Put(out, 2, BE16((95 + |k.keyData|) % TWO_16));
    ghost var head := [version, 3] + BE16((95 + |k.keyData|) % TWO_16);
    assert out[..4] == head;
    out[4] := 2;
    assert out[..5] == head + [2];
    Put(out, 5, BE16(k.keyInfo));
    Put(out, 7, BE16(k.keyLen));
    assert out[..9] == EncodeStart(k);
    PutRest(out, k);
  }

  /** The fields behind the first nine bytes, up to the key data. */
  method PutRest(out: array<Byte>, k: KeyFrame)
    requires out.Length == KEY_FRAME_FIXED + |k.keyData| && out[..9] == EncodeStart(k)
    modifies out
    ensures out[..] == EncodeSpec(k)
  {
    Put(out, 9, k.replay);
    Put(out, 17, k.nonce);
    Put(out, 49, k.iv);
    Put(out, 65, k.rsc);
    Put(out, 73, k.reserved);
    Regroup(EncodeStart(k), k.replay, k.nonce, k.iv, k.rsc, k.reserved);
    ghost var soFar := EncodeStart(k) + EncodeMiddle(k);
    assert out[..81] == soFar;
    Put(out, 81, k.mic);
    Put(out, 97, BE16(|k.keyData| % TWO_16));
    Put(out, 99, k.keyData);
    Regroup(soFar, k.mic, BE16(|k.keyData| % TWO_16), k.keyData, [], []);
    assert out[..] == out[..99 + |k.keyData|];
  }

  lemma {:induction false} Regroup(a: seq<Byte>, b: seq<Byte>, c: seq<Byte>, d: seq<Byte>, e: seq<Byte>, f: seq<Byte>)
    ensures a + b + c + d + e + f == a + (b + c + d + e + f)
    ensures a + b + c + d == a + (b + c + d)
  {
  }

  const NO_MIC: Bytes16 := [0, 0, 0, 0, 0, 0, 0, 0, 0, 0, 0, 0, 0, 0, 0, 0]

  /** ComputeMIC: the first 16 bytes of the keyed hash; the hash itself is a parameter. */
  function ComputeMic(hmac: (seq<Byte>, seq<Byte>) -> Digest, kck: seq<Byte>, frame: seq<Byte>): Bytes16 {
    hmac(kck, frame)[..16]
  }

  function ZeroMic(f: seq<Byte>): (r: seq<Byte>)
    requires |f| >= KEY_FRAME_FIXED
    ensures |r| == |f|
  {
    Overwrite(f, MIC_OFFSET, NO_MIC)
  }

  /** The MIC is checked over the bytes as received, or over the encoding of a frame that was not received. */
  predicate VerifyMic(hmac: (seq<Byte>, seq<Byte>) -> Digest, kck: seq<Byte>, k: KeyFrame) {
    var src := if |k.raw| < KEY_FRAME_FIXED then EncodeSpec(k) else k.raw;
    ComputeMic(hmac, kck, ZeroMic(src)) == k.mic
  }

  /** The part of sendEapol (and of the group reply) that signs a frame; returns the payload it transmits. */
  method SendEapol(hmac: (seq<Byte>, seq<Byte>) -> Digest, kck: seq<Byte>, k: KeyFrame) returns (payload: seq<Byte>)
    ensures payload == EncodeSpec(k.(mic := ComputeMic(hmac, kck, EncodeSpec(k.(mic := NO_MIC)))))
  {
    var k := k.(mic := NO_MIC);
    var enc := Encode(k);
    var i := MIC_OFFSET;
    while i < MIC_OFFSET + 16 && i < enc.Length
      invariant MIC_OFFSET <= i <= MIC_OFFSET + 16
      invariant enc[..] == EncodeSpec(k)
    {
      assert EncodeSpec(k)[i] == k.mic[i - MIC_OFFSET];
      enc[i] := 0;
      i := i + 1;
    }
    k := k.(mic := ComputeMic(hmac, kck, enc[..]));
    enc := Encode(k);
    payload := enc[..];
  }

  // ---- Codec -----------------------------------------------------------------------

  lemma FromBe16Injective(a: seq<Byte>)
    requires |a| == 2
    ensures BE16(FromBE16(a)) == a
  {
  }

  /** Where each field sits in an encoded frame. */
  ghost predicate Layout(e: seq<Byte>, k: KeyFrame) {
    && |e| == KEY_FRAME_FIXED + |k.keyData| && |k.keyData| < TWO_16
    && e[0..2] == [if k.version == 0 then 1 else k.version, 3]
    && e[2..4] == BE16((95 + |k.keyData|) % TWO_16) && e[4..5] == [2]
    && e[5..7] == BE16(k.keyInfo) && e[7..9] == BE16(k.keyLen) && e[9..17] == k.replay
    && e[17..49] == k.nonce && e[49..65] == k.iv && e[65..73] == k.rsc && e[73..81] == k.reserved
    && e[81..97] == k.mic && e[97..99] == BE16(|k.keyData|) && e[99..99 + |k.keyData|] == k.keyData
  }

  lemma {:induction false} StartLayout(k: KeyFrame)
    ensures var e := EncodeStart(k);
            && e[0..2] == [if k.version == 0 then 1 else k.version, 3] && e[2..4] == BE16((95 + |k.keyData|) % TWO_16)
            && e[4..5] == [2] && e[5..7] == BE16(k.keyInfo) && e[7..9] == BE16(k.keyLen)
  {
  }

  lemma {:induction false} MiddleLayout(k: KeyFrame)
    ensures var m := EncodeMiddle(k);
            m[0..8] == k.replay && m[8..40] == k.nonce && m[40..56] == k.iv && m[56..64] == k.rsc && m[64..72] == k.reserved
  {
  }

  lemma {:induction false} EndLayout(mic: Bytes16, length: seq<Byte>, data: seq<Byte>)
    requires |length| == 2
    ensures var t := mic + length + data; t[0..16] == mic && t[16..18] == length && t[18..18 + |data|] == data
  {
  }

  lemma {:induction false} SliceOfPart(a: seq<Byte>, b: seq<Byte>, c: seq<Byte>, lo: nat, hi: nat)
    requires lo <= hi <= |b|
    ensures (a + b + c)[|a| + lo..|a| + hi] == b[lo..hi]
  {
  }

  lemma {:induction false} StartInPlace(k: KeyFrame)
    ensures var e, s := EncodeSpec(k), EncodeStart(k);
            e[0..2] == s[0..2] && e[2..4] == s[2..4] && e[4..5] == s[4..5] && e[5..7] == s[5..7] && e[7..9] == s[7..9]
  {
    var e := EncodeSpec(k);
    assert e[..9] == EncodeStart(k);
    assert forall lo, hi :: 0 <= lo <= hi <= 9 ==> e[lo..hi] == e[..9][lo..hi];
  }

  lemma {:induction false} MiddleInPlace(k: KeyFrame)
    ensures var e, m := EncodeSpec(k), EncodeMiddle(k);
            && e[9..17] == m[0..8] && e[17..49] == m[8..40] && e[49..65] == m[40..56]
            && e[65..73] == m[56..64] && e[73..81] == m[64..72]
  {
    var a, b, c := EncodeStart(k), EncodeMiddle(k), k.mic + BE16(|k.keyData| % TWO_16) + k.keyData;
    SliceOfPart(a, b, c, 0, 8);
    SliceOfPart(a, b, c, 8, 40);
    SliceOfPart(a, b, c, 40, 56);
    SliceOfPart(a, b, c, 56, 64);
    SliceOfPart(a, b, c, 64, 72);
  }

  lemma {:induction false} EndInPlace(k: KeyFrame)
    ensures var e := EncodeSpec(k);
            e[81..97] == k.mic && e[97..99] == BE16(|k.keyData| % TWO_16) && e[99..99 + |k.keyData|] == k.keyData
  {
    var a := EncodeStart(k) + EncodeMiddle(k);
    var c := k.mic + BE16(|k.keyData| % TWO_16) + k.keyData;
    EndLayout(k.mic, BE16(|k.keyData| % TWO_16), k.keyData);
    assert EncodeSpec(k) == a + c + [];
    SliceOfPart(a, c, [], 0, 16);
    SliceOfPart(a, c, [], 16, 18);
    SliceOfPart(a, c, [], 18, 18 + |k.keyData|);
  }

  lemma {:induction false} EncodedLayout(k: KeyFrame)
    requires |k.keyData| < TWO_16
    ensures Layout(EncodeSpec(k), k)
  {
    var e, n := EncodeSpec(k), |k.keyData|;
    assert n % TWO_16 == n;
    assert e[0..2] == [if k.version == 0 then 1 else k.version, 3] && e[2..4] == BE16((95 + n) % TWO_16)
           && e[4..5] == [2] && e[5..7] == BE16(k.keyInfo) && e[7..9] == BE16(k.keyLen) by {
      StartLayout(k);
      StartInPlace(k);
    }
    MiddleLayout(k);
    MiddleInPlace(k);
    EndInPlace(k);
  }

  lemma SameSlice(a: seq<Byte>, b: seq<Byte>, lo: nat, hi: nat)
    requires lo <= hi <= |a| && hi <= |b| && a[lo..hi] == b[lo..hi]
    ensures forall i :: lo <= i < hi ==> a[i] == b[i]
  {
    forall i | lo <= i < hi ensures a[i] == b[i] {
      assert a[i] == a[lo..hi][i - lo];
    }
  }

  lemma LayoutIsUnique(a: seq<Byte>, b: seq<Byte>, k: KeyFrame)
    requires Layout(a, k) && Layout(b, k)
    ensures a == b
  {
    SameSlice(a, b, 0, 2);
    SameSlice(a, b, 2, 4);
    SameSlice(a, b, 4, 5);
    SameSlice(a, b, 5, 7);
    SameSlice(a, b, 7, 9);
    SameSlice(a, b, 9, 17);
    SameSlice(a, b, 17, 49);
    SameSlice(a, b, 49, 65);
    SameSlice(a, b, 65, 73);
    SameSlice(a, b, 73, 81);
    SameSlice(a, b, 81, 97);
    SameSlice(a, b, 97, 99);
    SameSlice(a, b, 99, |a|);
  }

  /** Decoding what was encoded gives the frame back, for every frame of descriptor version 2. */
  lemma {:induction false} DecodeEncode(k: KeyFrame)
    requires k.keyInfo % 8 == 2 && |k.keyData| < TWO_16
    ensures Decode(EncodeSpec(k)) == Decoded(k.(version := if k.version == 0 then 1 else k.version, raw := EncodeSpec(k)))
  {
    EncodedLayout(k);
    Be16RoundTrip(k.keyInfo);
    Be16RoundTrip(k.keyLen);
    Be16RoundTrip(|k.keyData|);
    assert EncodeSpec(k)[..99 + |k.keyData|] == EncodeSpec(k);
  }

  /**
   Re-encoding a received frame reproduces its bytes exactly when its version byte
   is not zero and its 802.1X length field agrees with its key-data length.
   */
  lemma EncodeDecode(f: seq<Byte>)
    requires Decode(f).Decoded?
    ensures var k := Decode(f).frame;
            EncodeSpec(k) == k.raw <==> f[0] != 0 && f[2..4] == BE16((95 + |k.keyData|) % TWO_16)
  {
    var k := Decode(f).frame;
    EncodedLayout(k);
    FromBe16Injective(f[5..7]);
    FromBe16Injective(f[7..9]);
    FromBe16Injective(f[97..99]);
    assert k.raw[2..4] == f[2..4];
    if f[0] != 0 && f[2..4] == BE16((95 + |k.keyData|) % TWO_16) {
      assert Layout(k.raw, k) by {
        assert forall lo, hi :: 0 <= lo <= hi <= |k.raw| ==> k.raw[lo..hi] == f[lo..hi];
      }
      LayoutIsUnique(EncodeSpec(k), k.raw, k);
    }
  }

  // ---- MIC ---------------------------------------------------------------------------

  /**
   What SendEapol transmits decodes, and its MIC verifies at a receiver with the
   same KCK, whatever MIC the frame carried before: a resend does not sign the
   previous signature.
   */
  lemma SentFrameVerifies(hmac: (seq<Byte>, seq<Byte>) -> Digest, kck: seq<Byte>, k: KeyFrame, stale: Bytes16)
    requires k.keyInfo % 8 == 2 && |k.keyData| < TWO_16
    ensures var unsigned := EncodeSpec(k.(mic := NO_MIC));
            var sent := EncodeSpec(k.(mic := ComputeMic(hmac, kck, unsigned)));
            && Decode(sent).Decoded? && VerifyMic(hmac, kck, Decode(sent).frame)
            && EncodeSpec(k.(mic := stale).(mic := NO_MIC)) == unsigned
  {
    var signed := k.(mic := ComputeMic(hmac, kck, EncodeSpec(k.(mic := NO_MIC))));
    DecodeEncode(signed);
    ZeroedIsUnsigned(signed);
  }

  lemma ZeroedIsUnsigned(k: KeyFrame)
    requires |k.keyData| < TWO_16
    ensures ZeroMic(EncodeSpec(k)) == EncodeSpec(k.(mic := NO_MIC))
  {
    var e := EncodeSpec(k);
    EncodedLayout(k);
    EncodedLayout(k.(mic := NO_MIC));
    var z := ZeroMic(e);
    assert z[..81] == e[..81] && z[97..] == e[97..];
    assert forall lo, hi :: 0 <= lo <= hi <= 81 ==> z[lo..hi] == e[lo..hi];
    assert forall lo, hi :: 97 <= lo <= hi <= |e| ==> z[lo..hi] == e[lo..hi];
    LayoutIsUnique(z, EncodeSpec(k.(mic := NO_MIC)), k.(mic := NO_MIC));
  }

  // ---- Key-info bits ---------------------------------------------------------------------

  predicate Bit(info: Word16, mask: int)
    requires mask > 0
  {
    info / mask % 2 == 1
  }

  /** The bits of the key-info word that the supplicant reads. */
  function InfoOf(info: Word16): H.Info {
    H.Info(Bit(info, 0x0008), Bit(info, 0x0080), Bit(info, 0x0100), Bit(info, 0x0200), Bit(info, 0x1000), info / 0x10 % 4)
  }

  /** The words the station sends are the ones the symbolic frames stand for. */
  lemma SentInfoWords(index: nat)
    requires index < 4
    ensures InfoOf(INFO_SHA1 + INFO_PAIRWISE + INFO_MIC) == H.Info(true, false, true, false, false, 0)
    ensures InfoOf(INFO_SHA1 + INFO_PAIRWISE + INFO_MIC + INFO_SECURE) == H.Info(true, false, true, true, false, 0)
    ensures InfoOf(INFO_SHA1 + INFO_MIC + INFO_SECURE + index * 0x10) == H.Info(false, false, true, true, false, index)
    ensures H.Msg(InfoOf(INFO_SHA1 + INFO_PAIRWISE + INFO_MIC)) == 2
    ensures H.Msg(InfoOf(INFO_SHA1 + INFO_PAIRWISE + INFO_MIC + INFO_SECURE)) == 4
  {
  }

  // ---- GTK in the key data -----------------------------------------------------------------

  datatype GtkResult = Found(gtk: seq<Byte>, keyId: nat) | BadLength | NoGtk

  predicate IsGtkKde(id: Byte, body: seq<Byte>) {
    id == 0xdd && |body| >= 6 && body[..4] == [0x00, 0x0f, 0xac, 0x01]
  }

  function Judge(body: seq<Byte>): GtkResult
    requires |body| >= 6
  {
    if |body| != 22 then BadLength else Found(body[6..], body[4] % 4)
  }

  /** The meaning of a KDE list: its first GTK KDE decides. */
  function FirstGtk(es: seq<Element>): GtkResult {
    if es == [] then NoGtk
    else if IsGtkKde(es[0].id, es[0].body) then Judge(es[0].body)
    else FirstGtk(es[1..])
  }

  lemma FirstGtkCons(e: Element, es: seq<Element>)
    ensures FirstGtk([e] + es) == if IsGtkKde(e.id, e.body) then Judge(e.body) else FirstGtk(es)
  {
    assert ([e] + es)[1..] == es;
  }

  /** ParseKeyData's walk over the plaintext. */
  method FindGtk(plain: seq<Byte>) returns (r: GtkResult)
    ensures r == FirstGtk(Walk(plain, 0, true))
  {
    var off := 0;
    while off + 2 <= |plain|
      invariant off <= |plain|
      invariant FirstGtk(Walk(plain, off, true)) == FirstGtk(Walk(plain, 0, true))
      decreases |plain| - off
    {
      var id, len := plain[off], plain[off + 1] as int;
      if len == 0 || off + 2 + len > |plain| { break; }
      var body := plain[off + 2..off + 2 + len];
      FirstGtkCons(Element(id, body), Walk(plain, off + 2 + len, true));
      if id == 0xdd && |body| >= 6 && body[..4] == [0x00, 0x0f, 0xac, 0x01] {
        var gtk := body[6..];
        if |gtk| != 16 { return BadLength; }
        return Found(gtk, body[4] % 4);
      }
      off := off + 2 + len;
    }
    return NoGtk;
  }

  lemma {:induction false} FirstGtkBehind(before: seq<Element>, kde: Element, after: seq<Element>)
    requires (forall e :: e in before ==> !IsGtkKde(e.id, e.body)) && IsGtkKde(kde.id, kde.body)
    ensures FirstGtk(before + [kde] + after) == Judge(kde.body)
  {
    if before == [] {
      assert (before + [kde] + after)[0] == kde;
    } else {
      FirstGtkBehind(before[1..], kde, after);
      assert (before + [kde] + after)[1..] == before[1..] + [kde] + after;
    }
  }

  /**
   The bytes of the key data an access point sends: elements that are no GTK, a GTK KDE, further elements, then
   0xdd 0x00 and any padding.  The walk over them finds exactly that KDE's key and index, or refuses its length.
   */
  lemma GtkIsFound(before: seq<Element>, keyId: Byte, reserved: Byte, gtk: seq<Byte>, after: seq<Element>, padding: seq<Byte>)
    requires WellFormed(before, true) && WellFormed(after, true) && |gtk| <= 249
    requires forall e :: e in before ==> !IsGtkKde(e.id, e.body)
    ensures var kde := Element(0xdd, [0x00, 0x0f, 0xac, 0x01, keyId, reserved] + gtk);
            var es := before + [kde] + after;
            && WellFormed(es, true)
            && FirstGtk(Walk(Serialize(es, true) + ([0xdd, 0x00] + padding), 0, true)) ==
               if |gtk| == 16 then Found(gtk, keyId % 4) else BadLength
  {
    var kde := Element(0xdd, [0x00, 0x0f, 0xac, 0x01, keyId, reserved] + gtk);
    var es := before + [kde] + after;
    assert kde.body[..4] == [0x00, 0x0f, 0xac, 0x01] && kde.body[6..] == gtk;
    FirstGtkBehind(before, kde, after);
    WalkSerialized([], es, [0xdd, 0x00] + padding, true);
    assert [] + Serialize(es, true) == Serialize(es, true);
  }
}
