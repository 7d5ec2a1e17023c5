/**
 When the handshake succeeds and what it sends, on any inbox and on frames alone; and that it does succeed
 against an access point that plays by the rules.
 */
module HandshakeRuns {
  import opened Common
  import opened Handshake

  // Frames by what they say

  predicate IsMsg1(p: Packet) { p.Key? && p.frame.body.info.pairwise && Msg(p.frame.body.info) == 1 }

  predicate IsMsg3(p: Packet) { p.Key? && p.frame.body.info.pairwise && Msg(p.frame.body.info) == 3 }

  /** Message 2 under this key: it echoes the counter of the message 1 it answers and carries the station's nonce. */
  predicate IsMsg2(f: Frame, ptk: Ptk, replay: nat, sNonce: Nonce) {
    && f.body.info.pairwise && Msg(f.body.info) == 2 && VerifyMic(Kck(ptk), f)
    && f.body.replay == replay && f.body.nonce == sNonce
  }

  /** Message 4 under this key: it echoes the counter of message 3. */
  predicate IsMsg4(f: Frame, ptk: Ptk, replay: nat) {
    f.body.info.pairwise && Msg(f.body.info) == 4 && VerifyMic(Kck(ptk), f) && f.body.replay == replay
  }

  /** The messages 1 among the first `n` deliveries, in order. */
  function Msg1s(inbox: seq<Delivery>, n: nat): (ms: seq<Frame>)
    requires n <= |inbox|
    ensures |ms| <= n
    ensures ms == [] <==> forall j :: 0 <= j < n ==> !IsMsg1(inbox[j].packet)
  {
    if n == 0 then []
    else if IsMsg1(inbox[n - 1].packet) then Msg1s(inbox, n - 1) + [inbox[n - 1].packet.frame]
    else Msg1s(inbox, n - 1)
  }

  /** The keys that the message 1 `m` leads to. */
  function PtkOf(pmk: nat, m: Frame, sNonce: Nonce): Ptk { DerivePtk(pmk, m.body.nonce, sNonce) }

  /** The keys in use at delivery `i`: those of the last message 1 before it. */
  function PtkAt(pmk: nat, inbox: seq<Delivery>, i: nat, sNonce: Nonce): Ptk
    requires i <= |inbox| && Msg1s(inbox, i) != []
  {
    PtkOf(pmk, Msg1s(inbox, i)[|Msg1s(inbox, i)| - 1], sNonce)
  }

  // What decides the outcome

  /** The first message 1. */
  predicate Opens(inbox: seq<Delivery>, a: nat) {
    a < |inbox| && IsMsg1(inbox[a].packet) && Msg1s(inbox, a) == []
  }

  /** A message 3 that verifies under the keys in use. */
  predicate Good3(pmk: nat, inbox: seq<Delivery>, i: nat, sNonce: Nonce) {
    && i < |inbox| && IsMsg3(inbox[i].packet) && Msg1s(inbox, i) != []
    && VerifyMic(Kck(PtkAt(pmk, inbox, i, sNonce)), inbox[i].packet.frame)
  }

  /** From the first message 1, answered, up to `b` every message 1 could be answered and no message 3 was good. */
  predicate Waiting(pmk: nat, inbox: seq<Delivery>, a: nat, b: nat) {
    && a < b <= |inbox| && Opens(inbox, a) && inbox[a].luck.randOk && inbox[a].luck.sendOk
    && forall j :: a < j < b ==>
         (IsMsg1(inbox[j].packet) ==> inbox[j].luck.sendOk) && !Good3(pmk, inbox, j, inbox[a].luck.sNonce)
  }

  function KeyDataAt(pmk: nat, inbox: seq<Delivery>, a: nat, b: nat): Option<(Gtk, nat)>
    requires a < |inbox| && Good3(pmk, inbox, b, inbox[a].luck.sNonce)
  {
    var f := inbox[b].packet.frame;
    ParseKeyData(Kek(PtkAt(pmk, inbox, b, inbox[a].luck.sNonce)), f.body.keyData, f.body.info.encrypted)
  }

  predicate AllWell(luck: Luck) { luck.sendOk && luck.ptkOk && luck.gtkOk && luck.portOk }

  /** The good message 3 at `b` holds a GTK, its answer goes out, and all three installs are confirmed. */
  predicate Completes(pmk: nat, inbox: seq<Delivery>, a: nat, b: nat) {
    && Waiting(pmk, inbox, a, b) && Good3(pmk, inbox, b, inbox[a].luck.sNonce)
    && KeyDataAt(pmk, inbox, a, b).Some? && AllWell(inbox[b].luck)
  }

  /** The good message 3 at `b` holds a GTK, and its answer goes out. */
  predicate Installs(pmk: nat, inbox: seq<Delivery>, a: nat, b: nat) {
    && Waiting(pmk, inbox, a, b) && Good3(pmk, inbox, b, inbox[a].luck.sNonce)
    && KeyDataAt(pmk, inbox, a, b).Some? && inbox[b].luck.sendOk
  }

  /** The commands that follow: the port was opened first, and now the keys and the port again, however each is answered. */
  function Commands(pmk: nat, preOpened: bool, inbox: seq<Delivery>, a: nat, b: nat): seq<Command>
    requires Installs(pmk, inbox, a, b)
  {
    var (gtk, keyId), luck := KeyDataAt(pmk, inbox, a, b).value, inbox[b].luck;
    [OpenPort(preOpened), AddPtk(Tk(PtkAt(pmk, inbox, b, inbox[a].luck.sNonce)), luck.ptkOk), AddGtk(gtk, keyId, luck.gtkOk), OpenPort(luck.portOk)]
  }

  /** Something goes wrong at `b`: no nonce or no answer to a message 1, or one of the steps after message 3. */
  predicate Breaks(pmk: nat, inbox: seq<Delivery>, a: nat, b: nat) {
    || (a == b && Opens(inbox, a) && !(inbox[a].luck.randOk && inbox[a].luck.sendOk))
    || (&& Waiting(pmk, inbox, a, b) && b < |inbox|
        && if IsMsg1(inbox[b].packet) then !inbox[b].luck.sendOk
           else Good3(pmk, inbox, b, inbox[a].luck.sNonce) && (KeyDataAt(pmk, inbox, a, b).None? || !AllWell(inbox[b].luck)))
  }

  lemma {:induction false} SameFirst(inbox: seq<Delivery>, a: nat, c: nat)
    requires Opens(inbox, a) && Opens(inbox, c)
    ensures a == c
  {
  }

  /** A run breaks or completes at one place only. */
  lemma {:induction false} BreaksOrCompletes(pmk: nat, inbox: seq<Delivery>, a: nat, b: nat, c: nat, d: nat)
    requires Breaks(pmk, inbox, a, b)
    ensures !Completes(pmk, inbox, c, d)
  {
    if Completes(pmk, inbox, c, d) { SameFirst(inbox, a, c); }
  }

  // Answers

  /** The messages 1 were answered in order, each with its own counter and under its own keys. */
  predicate Answered(pmk: nat, sNonce: Nonce, ms: seq<Frame>, sent: seq<Frame>) {
    |ms| <= |sent| && forall k :: 0 <= k < |ms| ==> IsMsg2(sent[k], PtkOf(pmk, ms[k], sNonce), ms[k].body.replay, sNonce)
  }

  // The run, delivery by delivery

  function After(pmk: nat, preOpened: bool, inbox: seq<Delivery>, n: nat): (s: Station)
    requires n <= |inbox|
    ensures HasKeys(s)
  {
    if n == 0 then StationInit(pmk, preOpened)
    else StationStep(After(pmk, preOpened, inbox, n - 1), inbox[n - 1].packet, inbox[n - 1].luck)
  }

  lemma {:induction false} RunIsAfter(pmk: nat, preOpened: bool, inbox: seq<Delivery>, n: nat)
    requires n <= |inbox|
    ensures StationRun(After(pmk, preOpened, inbox, n), inbox[n..]) == StationRun(StationInit(pmk, preOpened), inbox)
  {
    if n > 0 {
      RunIsAfter(pmk, preOpened, inbox, n - 1);
      assert inbox[n - 1..][1..] == inbox[n..];
    } else {
      assert inbox[0..] == inbox;
    }
  }

  /** What is known after `n` deliveries. */
  ghost predicate Known(pmk: nat, preOpened: bool, inbox: seq<Delivery>, n: nat, s: Station)
    requires n <= |inbox|
  {
    s.pmk == pmk &&
    match s.phase
    case AwaitMsg1 => Msg1s(inbox, n) == [] && s.sent == [] && s.commands == [OpenPort(preOpened)]
    case AwaitMsg3 =>
      s.commands == [OpenPort(preOpened)] && exists a :: WaitsSince(pmk, inbox, n, s, a)
    case Returned(rc) =>
      if rc == 0 then exists a, b :: Ended(pmk, preOpened, inbox, n, s, a, b) else rc == 1 && exists a, b :: Broke(pmk, preOpened, inbox, n, s, a, b)
  }

  predicate WaitsSince(pmk: nat, inbox: seq<Delivery>, n: nat, s: Station, a: nat)
    requires n <= |inbox|
  {
    && Waiting(pmk, inbox, a, n) && Msg1s(inbox, n) != [] && s.sNonce == inbox[a].luck.sNonce
    && s.ptk == Some(PtkAt(pmk, inbox, n, s.sNonce)) && s.kck == Some(Kck(s.ptk.value)) && s.kek == Some(Kek(s.ptk.value))
    && |s.sent| == |Msg1s(inbox, n)| && Answered(pmk, s.sNonce, Msg1s(inbox, n), s.sent)
  }

  predicate Ended(pmk: nat, preOpened: bool, inbox: seq<Delivery>, n: nat, s: Station, a: nat, b: nat)
    requires n <= |inbox|
  {
    && b < n && Completes(pmk, inbox, a, b) && s.sNonce == inbox[a].luck.sNonce
    && var (gtk, keyId) := KeyDataAt(pmk, inbox, a, b).value;
       var ptk := PtkAt(pmk, inbox, b, s.sNonce);
    && s.commands == [OpenPort(preOpened), AddPtk(Tk(ptk), true), AddGtk(gtk, keyId, true), OpenPort(true)]
    && |s.sent| == |Msg1s(inbox, b)| + 1 && Answered(pmk, s.sNonce, Msg1s(inbox, b), s.sent)
    && IsMsg4(s.sent[|s.sent| - 1], ptk, inbox[b].packet.frame.body.replay)
  }

  /** It broke at `b`; what was sent are answers to the messages 1 up to there, and perhaps one message 4. */
  predicate Broke(pmk: nat, preOpened: bool, inbox: seq<Delivery>, n: nat, s: Station, a: nat, b: nat)
    requires n <= |inbox|
  {
    && b < n && Breaks(pmk, inbox, a, b)
    && s.commands == (if Installs(pmk, inbox, a, b) then Commands(pmk, preOpened, inbox, a, b) else [OpenPort(preOpened)])
    && if s.sent == [] then true
       else
         && s.sNonce == inbox[a].luck.sNonce
         && if IsMsg1(inbox[b].packet) then |s.sent| == |Msg1s(inbox, b + 1)| && Answered(pmk, s.sNonce, Msg1s(inbox, b + 1), s.sent)
            else
              && Answered(pmk, s.sNonce, Msg1s(inbox, b), s.sent)
              && (|s.sent| == |Msg1s(inbox, b)| ||
                  (|s.sent| == |Msg1s(inbox, b)| + 1 && Msg1s(inbox, b) != []
                   && IsMsg4(s.sent[|s.sent| - 1], PtkAt(pmk, inbox, b, s.sNonce), inbox[b].packet.frame.body.replay)))
  }

  lemma {:induction false} AnswerSaysSo(s: Station, f: Frame, sNonce: Nonce, sendOk: bool)
    ensures var r := AnswerMsg1(s, f, sNonce, sendOk);
            var ptk := PtkOf(s.pmk, f, sNonce);
            && |r.sent| == |s.sent| + 1 && r.sent[..|s.sent|] == s.sent
            && IsMsg2(r.sent[|s.sent|], ptk, f.body.replay, sNonce)
            && r.pmk == s.pmk && r.sNonce == sNonce && r.ptk == Some(ptk) && r.kck == Some(Kck(ptk)) && r.kek == Some(Kek(ptk))
            && r.commands == s.commands && r.phase == if sendOk then AwaitMsg3 else Returned(1)
  {
  }

  lemma {:induction false} OneMoreAnswered(pmk: nat, sNonce: Nonce, ms: seq<Frame>, sent: seq<Frame>, m: Frame, f: Frame)
    requires Answered(pmk, sNonce, ms, sent) && |sent| == |ms|
    requires IsMsg2(f, PtkOf(pmk, m, sNonce), m.body.replay, sNonce)
    ensures Answered(pmk, sNonce, ms + [m], sent + [f])
  {
  }

  lemma {:induction false} FirstMsg1(pmk: nat, preOpened: bool, inbox: seq<Delivery>, n: nat, s: Station)
    requires n < |inbox| && s.phase == AwaitMsg1 && Known(pmk, preOpened, inbox, n, s) && HasKeys(s)
    ensures Known(pmk, preOpened, inbox, n + 1, StationStep(s, inbox[n].packet, inbox[n].luck))
  {
    var p, luck := inbox[n].packet, inbox[n].luck;
    var r := StationStep(s, p, luck);
    if IsMsg1(p) {
      assert Opens(inbox, n) && Msg1s(inbox, n + 1) == [p.frame];
      if !luck.randOk {
        assert Broke(pmk, preOpened, inbox, n + 1, r, n, n);
      } else {
        AnswerSaysSo(s, p.frame, luck.sNonce, luck.sendOk);
        OneMoreAnswered(pmk, luck.sNonce, [], [], p.frame, r.sent[0]);
        assert r.sent == [] + [r.sent[0]] && [] + [p.frame] == [p.frame];
        if luck.sendOk { assert WaitsSince(pmk, inbox, n + 1, r, n); } else { assert Broke(pmk, preOpened, inbox, n + 1, r, n, n); }
      }
    }
  }

  lemma {:induction false} NextMsg1(pmk: nat, preOpened: bool, inbox: seq<Delivery>, n: nat, s: Station, a: nat)
    requires n < |inbox| && s.pmk == pmk && s.phase == AwaitMsg3 && s.commands == [OpenPort(preOpened)]
    requires WaitsSince(pmk, inbox, n, s, a) && HasKeys(s) && IsMsg1(inbox[n].packet)
    ensures Known(pmk, preOpened, inbox, n + 1, StationStep(s, inbox[n].packet, inbox[n].luck))
  {
    var p, luck := inbox[n].packet, inbox[n].luck;
    var r := StationStep(s, p, luck);
    AnswerSaysSo(s, p.frame, s.sNonce, luck.sendOk);
    OneMoreAnswered(pmk, s.sNonce, Msg1s(inbox, n), s.sent, p.frame, r.sent[|s.sent|]);
    assert r.sent == s.sent + [r.sent[|s.sent|]];
    assert Msg1s(inbox, n + 1) == Msg1s(inbox, n) + [p.frame];
    if luck.sendOk { assert WaitsSince(pmk, inbox, n + 1, r, a); } else { assert Broke(pmk, preOpened, inbox, n + 1, r, a, n); }
  }

  lemma {:induction false} TakesMsg3(pmk: nat, preOpened: bool, inbox: seq<Delivery>, n: nat, s: Station, a: nat)
    requires n < |inbox| && s.pmk == pmk && s.phase == AwaitMsg3 && s.commands == [OpenPort(preOpened)]
    requires WaitsSince(pmk, inbox, n, s, a) && HasKeys(s) && Good3(pmk, inbox, n, s.sNonce)
    ensures Known(pmk, preOpened, inbox, n + 1, StationStep(s, inbox[n].packet, inbox[n].luck))
  {
    var p, luck := inbox[n].packet, inbox[n].luck;
    var r := StationStep(s, p, luck);
    assert r == AcceptMsg3(s, p.frame, luck);
    var parsed := KeyDataAt(pmk, inbox, a, n);
    if parsed.None? {
      assert Broke(pmk, preOpened, inbox, n + 1, r, a, n);
    } else {
      assert r.sent[..|s.sent|] == s.sent && IsMsg4(r.sent[|s.sent|], s.ptk.value, p.frame.body.replay);
      assert Answered(pmk, s.sNonce, Msg1s(inbox, n), r.sent);
      if AllWell(luck) { assert Ended(pmk, preOpened, inbox, n + 1, r, a, n); } else { assert Broke(pmk, preOpened, inbox, n + 1, r, a, n); }
    }
  }

  lemma {:induction false} IgnoresRest(pmk: nat, preOpened: bool, inbox: seq<Delivery>, n: nat, s: Station, a: nat)
    requires n < |inbox| && s.pmk == pmk && s.phase == AwaitMsg3 && s.commands == [OpenPort(preOpened)]
    requires WaitsSince(pmk, inbox, n, s, a) && HasKeys(s)
    requires !IsMsg1(inbox[n].packet) && !Good3(pmk, inbox, n, s.sNonce)
    ensures Known(pmk, preOpened, inbox, n + 1, StationStep(s, inbox[n].packet, inbox[n].luck))
  {
    assert StationStep(s, inbox[n].packet, inbox[n].luck) == s;
    assert WaitsSince(pmk, inbox, n + 1, s, a);
  }

  lemma {:induction false} StaysOver(pmk: nat, preOpened: bool, inbox: seq<Delivery>, n: nat, s: Station)
    requires n < |inbox| && s.phase.Returned? && Known(pmk, preOpened, inbox, n, s) && HasKeys(s)
    ensures Known(pmk, preOpened, inbox, n + 1, StationStep(s, inbox[n].packet, inbox[n].luck))
  {
    assert StationStep(s, inbox[n].packet, inbox[n].luck) == s;
    if s.phase == Returned(0) {
      var a, b :| Ended(pmk, preOpened, inbox, n, s, a, b);
      assert Ended(pmk, preOpened, inbox, n + 1, s, a, b);
    } else {
      var a, b :| Broke(pmk, preOpened, inbox, n, s, a, b);
      assert Broke(pmk, preOpened, inbox, n + 1, s, a, b);
    }
  }

  lemma {:induction false} KnownStep(pmk: nat, preOpened: bool, inbox: seq<Delivery>, n: nat, s: Station)
    requires n < |inbox| && Known(pmk, preOpened, inbox, n, s) && HasKeys(s)
    ensures Known(pmk, preOpened, inbox, n + 1, StationStep(s, inbox[n].packet, inbox[n].luck))
  {
    hide StationStep;
    if s.phase == AwaitMsg1 {
      FirstMsg1(pmk, preOpened, inbox, n, s);
    } else if s.phase == AwaitMsg3 {
      var a :| WaitsSince(pmk, inbox, n, s, a);
      if IsMsg1(inbox[n].packet) { NextMsg1(pmk, preOpened, inbox, n, s, a); }
      else if Good3(pmk, inbox, n, s.sNonce) { TakesMsg3(pmk, preOpened, inbox, n, s, a); }
      else { IgnoresRest(pmk, preOpened, inbox, n, s, a); }
    } else {
      StaysOver(pmk, preOpened, inbox, n, s);
    }
  }

  lemma {:induction false} KnownFirst(pmk: nat, preOpened: bool, inbox: seq<Delivery>)
    ensures Known(pmk, preOpened, inbox, 0, StationInit(pmk, preOpened))
  {
  }

  lemma {:induction false} KnownAfter(pmk: nat, preOpened: bool, inbox: seq<Delivery>, n: nat)
    requires n <= |inbox|
    ensures Known(pmk, preOpened, inbox, n, After(pmk, preOpened, inbox, n))
  {
    hide Known, StationStep, StationInit;
    if n == 0 {
      KnownFirst(pmk, preOpened, inbox);
    } else {
      KnownAfter(pmk, preOpened, inbox, n - 1);
      KnownStep(pmk, preOpened, inbox, n - 1, After(pmk, preOpened, inbox, n - 1));
    }
  }

  // Results

  lemma {:induction false} KnownAtEnd(pmk: nat, preOpened: bool, inbox: seq<Delivery>)
    ensures Known(pmk, preOpened, inbox, |inbox|, StationRun(StationInit(pmk, preOpened), inbox))
  {
    KnownAfter(pmk, preOpened, inbox, |inbox|);
    RunIsAfter(pmk, preOpened, inbox, |inbox|);
    assert inbox[|inbox|..] == [];
  }

  /**
   On any inbox the handshake returns 0 exactly if it completes: the first message 1 gets its nonce and its answer,
   so does every further one up to the first good message 3, that one holds a GTK, its answer goes out, and all three
   installs are confirmed.
   */
  lemma {:induction false} ReturnsZeroIff(pmk: nat, preOpened: bool, inbox: seq<Delivery>)
    ensures StationRun(StationInit(pmk, preOpened), inbox).phase == Returned(0) <==> exists a, b :: Completes(pmk, inbox, a, b)
  {
    var s := StationRun(StationInit(pmk, preOpened), inbox);
    KnownAtEnd(pmk, preOpened, inbox);
    if c, d :| Completes(pmk, inbox, c, d) {
      if s.phase == AwaitMsg3 {
        var a :| WaitsSince(pmk, inbox, |inbox|, s, a);
        SameFirst(inbox, a, c);
      } else if s.phase.Returned? && s.phase.rc != 0 {
        var a, b :| Broke(pmk, preOpened, inbox, |inbox|, s, a, b);
        BreaksOrCompletes(pmk, inbox, a, b, c, d);
      }
    }
  }

  lemma {:induction false} SamePlace(pmk: nat, inbox: seq<Delivery>, a: nat, b: nat, c: nat, d: nat)
    requires Completes(pmk, inbox, a, b) && Completes(pmk, inbox, c, d)
    ensures a == c && b == d
  {
    SameFirst(inbox, a, c);
  }

  /**
   And then it has issued these four commands and sent these frames: for each message 1 in order a message 2 with its
   counter, under its keys, and one message 4 with the counter of message 3.
   */
  lemma {:induction false} CompletedRun(pmk: nat, preOpened: bool, inbox: seq<Delivery>, a: nat, b: nat)
    requires Completes(pmk, inbox, a, b)
    ensures var s, ms, sNonce := StationRun(StationInit(pmk, preOpened), inbox), Msg1s(inbox, b), inbox[a].luck.sNonce;
            var (gtk, keyId), ptk := KeyDataAt(pmk, inbox, a, b).value, PtkAt(pmk, inbox, b, sNonce);
            && s.phase == Returned(0)
            && s.commands == [OpenPort(preOpened), AddPtk(Tk(ptk), true), AddGtk(gtk, keyId, true), OpenPort(true)]
            && |s.sent| == |ms| + 1
            && (forall k :: 0 <= k < |ms| ==> IsMsg2(s.sent[k], PtkOf(pmk, ms[k], sNonce), ms[k].body.replay, sNonce))
            && IsMsg4(s.sent[|ms|], ptk, inbox[b].packet.frame.body.replay)
  {
    var s := StationRun(StationInit(pmk, preOpened), inbox);
    ReturnsZeroIff(pmk, preOpened, inbox);
    KnownAtEnd(pmk, preOpened, inbox);
    var c, d :| Ended(pmk, preOpened, inbox, |inbox|, s, c, d);
    SamePlace(pmk, inbox, a, b, c, d);
  }

  lemma {:induction false} InstallsOnce(pmk: nat, inbox: seq<Delivery>, a: nat, b: nat, c: nat, d: nat)
    requires Installs(pmk, inbox, a, b)
    requires Installs(pmk, inbox, c, d) || Breaks(pmk, inbox, c, d) || Completes(pmk, inbox, c, d)
    ensures a == c && b == d
  {
    SameFirst(inbox, a, c);
  }

  lemma {:induction false} WaitingHasNotInstalled(pmk: nat, inbox: seq<Delivery>, a: nat, c: nat, d: nat)
    requires Waiting(pmk, inbox, a, |inbox|)
    ensures !Installs(pmk, inbox, c, d)
  {
    if Installs(pmk, inbox, c, d) { SameFirst(inbox, a, c); }
  }

  /**
   On any inbox, keys are handed to the firmware exactly if a good message 3 with a GTK was answered: then all three
   commands follow, whatever becomes of each; and otherwise none does.
   */
  lemma {:induction false} InstallsIff(pmk: nat, preOpened: bool, inbox: seq<Delivery>)
    ensures var s := StationRun(StationInit(pmk, preOpened), inbox);
            && (forall a: nat, b: nat :: Installs(pmk, inbox, a, b) ==> s.commands == Commands(pmk, preOpened, inbox, a, b))
            && ((forall a: nat, b: nat :: !Installs(pmk, inbox, a, b)) ==> s.commands == [OpenPort(preOpened)])
  {
    hide StationRun, Installs, Breaks, Completes, Waiting;
    var s := StationRun(StationInit(pmk, preOpened), inbox);
    KnownAtEnd(pmk, preOpened, inbox);
    if s.phase == AwaitMsg1 {
      forall a: nat, b: nat ensures !Installs(pmk, inbox, a, b) { UnopenedHasNotInstalled(pmk, inbox, a, b); }
    } else if s.phase == AwaitMsg3 {
      var a: nat :| WaitsSince(pmk, inbox, |inbox|, s, a);
      forall c: nat, d: nat ensures !Installs(pmk, inbox, c, d) { WaitingHasNotInstalled(pmk, inbox, a, c, d); }
    } else if s.phase == Returned(0) {
      var a: nat, b: nat :| Ended(pmk, preOpened, inbox, |inbox|, s, a, b);
      EndedCommands(pmk, preOpened, inbox, s, a, b);
      forall c: nat, d: nat | Installs(pmk, inbox, c, d) ensures c == a && d == b { InstallsOnce(pmk, inbox, c, d, a, b); }
    } else {
      var a: nat, b: nat :| Broke(pmk, preOpened, inbox, |inbox|, s, a, b);
      forall c: nat, d: nat | Installs(pmk, inbox, c, d) ensures c == a && d == b { InstallsOnce(pmk, inbox, c, d, a, b); }
    }
  }

  lemma {:induction false} UnopenedHasNotInstalled(pmk: nat, inbox: seq<Delivery>, a: nat, b: nat)
    requires Msg1s(inbox, |inbox|) == []
    ensures !Installs(pmk, inbox, a, b)
  {
  }

  lemma {:induction false} EndedCommands(pmk: nat, preOpened: bool, inbox: seq<Delivery>, s: Station, a: nat, b: nat)
    requires Ended(pmk, preOpened, inbox, |inbox|, s, a, b)
    ensures Installs(pmk, inbox, a, b) && s.commands == Commands(pmk, preOpened, inbox, a, b)
  {
  }

  lemma {:induction false} Msg1sPrefix(inbox: seq<Delivery>, i: nat, n: nat)
    requires i <= n <= |inbox|
    ensures Msg1s(inbox, i) <= Msg1s(inbox, n)
  {
    if i < n { Msg1sPrefix(inbox, i, n - 1); }
  }

  /** The first `n` frames sent answer the first `n` messages 1, each with its counter; at most a message 4 follows. */
  predicate Echoes(pmk: nat, s: Station, ms: seq<Frame>, n: nat) {
    && n <= |ms| && n <= |s.sent| <= n + 1
    && (forall k :: 0 <= k < n ==> IsMsg2(s.sent[k], PtkOf(pmk, ms[k], s.sNonce), ms[k].body.replay, s.sNonce))
    && (|s.sent| == n + 1 ==> Msg(s.sent[n].body.info) == 4)
  }

  lemma {:induction false} EchoesFirst(pmk: nat, s: Station, inbox: seq<Delivery>, i: nat)
    requires i <= |inbox| && Answered(pmk, s.sNonce, Msg1s(inbox, i), s.sent) && |s.sent| <= |Msg1s(inbox, i)| + 1
    requires |s.sent| == |Msg1s(inbox, i)| + 1 ==> Msg(s.sent[|s.sent| - 1].body.info) == 4
    ensures Echoes(pmk, s, Msg1s(inbox, |inbox|), |Msg1s(inbox, i)|)
  {
    Msg1sPrefix(inbox, i, |inbox|);
    assert forall k :: 0 <= k < |Msg1s(inbox, i)| ==> Msg1s(inbox, |inbox|)[k] == Msg1s(inbox, i)[k];
  }

  lemma {:induction false} BrokenEchoes(pmk: nat, preOpened: bool, inbox: seq<Delivery>, s: Station, a: nat, b: nat)
    requires Broke(pmk, preOpened, inbox, |inbox|, s, a, b) && s.sent != []
    ensures exists n: nat :: Echoes(pmk, s, Msg1s(inbox, |inbox|), n)
  {
    EchoesFirst(pmk, s, inbox, if IsMsg1(inbox[b].packet) then b + 1 else b);
  }

  lemma {:induction false} SilentEchoes(pmk: nat, s: Station, ms: seq<Frame>)
    requires s.sent == []
    ensures Echoes(pmk, s, ms, 0)
  {
  }

  lemma {:induction false} EndedEchoes(pmk: nat, preOpened: bool, inbox: seq<Delivery>, s: Station, a: nat, b: nat)
    requires Ended(pmk, preOpened, inbox, |inbox|, s, a, b)
    ensures Echoes(pmk, s, Msg1s(inbox, |inbox|), |Msg1s(inbox, b)|)
  {
    EchoesFirst(pmk, s, inbox, b);
  }

  /** However a run ends, every message 2 it has sent carries the counter of the message 1 it answers. */
  lemma {:induction false} EveryAnswerEchoes(pmk: nat, preOpened: bool, inbox: seq<Delivery>)
    ensures exists n: nat :: Echoes(pmk, StationRun(StationInit(pmk, preOpened), inbox), Msg1s(inbox, |inbox|), n)
  {
    var s := StationRun(StationInit(pmk, preOpened), inbox);
    hide StationRun, Ended, Broke, Echoes;
    KnownAtEnd(pmk, preOpened, inbox);
    if s.sent == [] {
      SilentEchoes(pmk, s, Msg1s(inbox, |inbox|));
    } else if s.phase == AwaitMsg3 {
      EchoesFirst(pmk, s, inbox, |inbox|);
    } else if s.phase == Returned(0) {
      var a: nat, b: nat :| Ended(pmk, preOpened, inbox, |inbox|, s, a, b);
      EndedEchoes(pmk, preOpened, inbox, s, a, b);
    } else {
      var a: nat, b: nat :| Broke(pmk, preOpened, inbox, |inbox|, s, a, b);
      BrokenEchoes(pmk, preOpened, inbox, s, a, b);
    }
  }

  // Against an access point that plays by the rules

  function Good(sNonce: Nonce): Luck { Luck(sNonce, true, true, true, true, true) }

  function Copies(f: Frame, sNonce: Nonce, n: nat): seq<Event> {
    if n == 0 then [] else Copies(f, sNonce, n - 1) + [StationGets(Key(f), Good(sNonce))]
  }

  function Repeated(f: Frame, n: nat): seq<Frame> { if n == 0 then [] else Repeated(f, n - 1) + [f] }

  /** The four messages of a handshake with these nonces: what they say, and who signs them. */
  function M1(aNonce: Nonce): Frame { Frame(Body(Info(true, true, false, false, false, 0), 1, aNonce, Clear(NoGtk)), NoMic) }

  function M2(ptk: Ptk, sNonce: Nonce): Frame { Sign(Kck(ptk), Body(Info(true, false, true, false, false, 0), 1, sNonce, Clear(NoGtk))) }

  function M3(ptk: Ptk, aNonce: Nonce, gtk: Gtk, keyId: nat): Frame {
    Sign(Kck(ptk), Body(Info(true, true, true, true, true, 0), 2, aNonce, Wrapped(Kek(ptk), GtkKde(gtk, keyId))))
  }

  function M4(ptk: Ptk): Frame { Sign(Kck(ptk), Body(Info(true, false, true, true, false, 0), 2, 0, Clear(NoGtk))) }

  /** Message 1, taken `n + 1` times, its answer, message 3, its answer. */
  function HonestRun(ptk: Ptk, aNonce: Nonce, sNonce: Nonce, gtk: Gtk, keyId: nat, n: nat): seq<Event> {
    [ApSendsMsg1(aNonce)] + Copies(M1(aNonce), sNonce, n + 1)
    + [ApGetsMsg2(M2(ptk, sNonce), gtk, keyId)] + [StationGets(Key(M3(ptk, aNonce, gtk, keyId)), Good(sNonce))] + [ApGetsMsg4(M4(ptk))]
  }

  lemma {:induction false} RunSnoc(w: World, events: seq<Event>, e: Event)
    requires HasKeys(w.sta)
    ensures Run(w, events + [e]) == Step(Run(w, events), e)
  {
    assert (events + [e])[..|events|] == events;
  }

  /** The world after `n` copies of message 1. */
  predicate Asked(w: World, pmk: nat, preOpened: bool, aNonce: Nonce, sNonce: Nonce, n: nat) {
    var ptk := DerivePtk(pmk, aNonce, sNonce);
    && w.ap == Ap(pmk, 1, Some(aNonce), None, [], {}) && M1(aNonce) in w.apSent
    && w.sta.pmk == pmk && w.sta.commands == [OpenPort(preOpened)] && w.sta.sent == Repeated(M2(ptk, sNonce), n)
    && if n == 0 then w.sta.phase == AwaitMsg1
       else w.sta.phase == AwaitMsg3 && w.sta.sNonce == sNonce && w.sta.ptk == Some(ptk) && w.sta.kck == Some(Kck(ptk)) && w.sta.kek == Some(Kek(ptk))
  }

  lemma {:induction false} CopyAsked(w: World, pmk: nat, preOpened: bool, aNonce: Nonce, sNonce: Nonce, n: nat)
    requires HasKeys(w.sta) && Asked(w, pmk, preOpened, aNonce, sNonce, n)
    ensures Asked(Step(w, StationGets(Key(M1(aNonce)), Good(sNonce))), pmk, preOpened, aNonce, sNonce, n + 1)
  {
    var v := Step(w, StationGets(Key(M1(aNonce)), Good(sNonce)));
    assert v.sta.sent == w.sta.sent + [M2(DerivePtk(pmk, aNonce, sNonce), sNonce)];
  }

  lemma {:induction false} AskedFirst(pmk: nat, preOpened: bool, aNonce: Nonce, sNonce: Nonce)
    ensures Asked(Step(WorldInit(pmk, pmk, preOpened), ApSendsMsg1(aNonce)), pmk, preOpened, aNonce, sNonce, 0)
  {
  }

  lemma {:induction false} CopiesAsked(pmk: nat, preOpened: bool, aNonce: Nonce, sNonce: Nonce, n: nat)
    ensures Asked(Run(WorldInit(pmk, pmk, preOpened), [ApSendsMsg1(aNonce)] + Copies(M1(aNonce), sNonce, n)), pmk, preOpened, aNonce, sNonce, n)
  {
    hide Step, Asked, M1;
    var w := WorldInit(pmk, pmk, preOpened);
    var first := [ApSendsMsg1(aNonce)];
    if n == 0 {
      assert first + Copies(M1(aNonce), sNonce, 0) == [] + first;
      RunSnoc(w, [], ApSendsMsg1(aNonce));
      AskedFirst(pmk, preOpened, aNonce, sNonce);
    } else {
      var e := StationGets(Key(M1(aNonce)), Good(sNonce));
      var before := first + Copies(M1(aNonce), sNonce, n - 1);
      CopiesAsked(pmk, preOpened, aNonce, sNonce, n - 1);
      RunSnoc(w, before, e);
      assert before + [e] == first + Copies(M1(aNonce), sNonce, n);
      CopyAsked(Run(w, before), pmk, preOpened, aNonce, sNonce, n - 1);
    }
  }

  lemma {:induction false} InRepeated(f: Frame, n: nat)
    ensures f in Repeated(f, n + 1) && |Repeated(f, n)| == n
  {
    if n > 0 { InRepeated(f, n - 1); }
  }

  /** The access point takes message 2 and sends message 3; the station takes that and finishes. */
  lemma {:induction false} LastSteps(w: World, pmk: nat, preOpened: bool, aNonce: Nonce, sNonce: Nonce, gtk: Gtk, keyId: nat, n: nat)
    requires HasKeys(w.sta) && Asked(w, pmk, preOpened, aNonce, sNonce, n + 1)
    ensures var ptk := DerivePtk(pmk, aNonce, sNonce);
            var w2 := Step(w, ApGetsMsg2(M2(ptk, sNonce), gtk, keyId));
            var w3 := Step(w2, StationGets(Key(M3(ptk, aNonce, gtk, keyId)), Good(sNonce)));
            && w3.sta.phase == Returned(0) && w3.sta.sent == Repeated(M2(ptk, sNonce), n + 1) + [M4(ptk)]
            && w3.sta.commands == [OpenPort(preOpened), AddPtk(Tk(ptk), true), AddGtk(gtk, keyId, true), OpenPort(true)]
            && w3.ap == Ap(pmk, 2, Some(aNonce), Some(ptk), [Msg3(2, aNonce, ptk, gtk, keyId)], {})
  {
    InRepeated(M2(DerivePtk(pmk, aNonce, sNonce), sNonce), n);
  }

  lemma {:induction false} Msg4Arrives(w: World, pmk: nat, ptk: Ptk, aNonce: Nonce, gtk: Gtk, keyId: nat)
    requires HasKeys(w.sta) && M4(ptk) in w.sta.sent
    requires w.ap == Ap(pmk, 2, Some(aNonce), Some(ptk), [Msg3(2, aNonce, ptk, gtk, keyId)], {})
    ensures Step(w, ApGetsMsg4(M4(ptk))).ap.accepted == {2} && Step(w, ApGetsMsg4(M4(ptk))).sta == w.sta
  {
    var m := w.ap.log[0];
    assert m in w.ap.log && m.replay == 2;
  }

  /**
   With the same PMK on both sides, however often message 1 is repeated, the handshake succeeds: it returns 0, the
   keys are the access point's, each message 1 was answered once, and the access point accepts message 4.
   */
  lemma {:induction false} HonestRunCompletes(pmk: nat, preOpened: bool, aNonce: Nonce, sNonce: Nonce, gtk: Gtk, keyId: nat, n: nat)
    ensures var ptk := DerivePtk(pmk, aNonce, sNonce);
            var w := Run(WorldInit(pmk, pmk, preOpened), HonestRun(ptk, aNonce, sNonce, gtk, keyId, n));
            && w.sta.phase == Returned(0) && w.sta.sent == Repeated(M2(ptk, sNonce), n + 1) + [M4(ptk)]
            && w.sta.commands == [OpenPort(preOpened), AddPtk(Tk(ptk), true), AddGtk(gtk, keyId, true), OpenPort(true)]
            && w.ap.accepted == {2}
  {
    hide Step, Run, Asked;
    var ptk, w := DerivePtk(pmk, aNonce, sNonce), WorldInit(pmk, pmk, preOpened);
    var first := [ApSendsMsg1(aNonce)] + Copies(M1(aNonce), sNonce, n + 1);
    var e2, e3, e4 := ApGetsMsg2(M2(ptk, sNonce), gtk, keyId), StationGets(Key(M3(ptk, aNonce, gtk, keyId)), Good(sNonce)), ApGetsMsg4(M4(ptk));
    CopiesAsked(pmk, preOpened, aNonce, sNonce, n + 1);
    LastSteps(Run(w, first), pmk, preOpened, aNonce, sNonce, gtk, keyId, n);
    RunSnoc(w, first, e2);
    RunSnoc(w, first + [e2], e3);
    RunSnoc(w, first + [e2] + [e3], e4);
    Msg4Arrives(Run(w, first + [e2] + [e3]), pmk, ptk, aNonce, gtk, keyId);
  }
}
