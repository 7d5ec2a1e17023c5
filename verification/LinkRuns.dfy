/** Where the runs of Lifecycle lead, and in which surroundings they give up. */
module LinkRuns {
  import opened Common
  import opened Lifecycle

  // What may come before the flash: a run may find the chip anywhere, behind ejects, empty ports and wedged boot ROMs

  /**
   `Absent`: an empty port, some polls, and the dongle is plugged in. `Eject`: the eject works, and after some polls the
   boot ROM is there. `Wedged`: the upload fails, and after some polls the dongle is unplugged and, later, back as ZeroCD.
   */
  datatype Leg = Absent(polls: nat, toRom: bool) | Eject(polls: nat) | Wedged(polls: nat, away: nat)

  function Does(e: Event): Turn { Turn([e], true, false, false) }

  function Turns(leg: Leg, rest: seq<Turn>): seq<Turn> {
    match leg
    case Absent(n, toRom) => Oks(n + 1, [Does(PlugIn(toRom))] + rest)
    case Eject(n) => Oks(n + 2, [Does(Switch)] + rest)
    case Wedged(n, m) => Oks(2, [FAILED] + Oks(n, [Does(Unplug)] + Oks(m, [Does(PlugIn(false))] + rest)))
  }

  function Plugged(toRom: bool): Place { if toRom then Rom else ZeroCD }

  function From(leg: Leg): Place {
    match leg
    case Absent(_, _) => Unplugged
    case Eject(_) => ZeroCD
    case Wedged(_, _) => Rom
  }

  function To(leg: Leg): Place {
    match leg
    case Absent(_, toRom) => Plugged(toRom)
    case Eject(_) => Rom
    case Wedged(_, _) => ZeroCD
  }

  /** The legs lead from `place` to the boot ROM. */
  predicate Leads(place: Place, legs: seq<Leg>)
    decreases |legs|
  {
    if legs == [] then place == Rom else place == From(legs[0]) && Leads(To(legs[0]), legs[1..])
  }

  function AllTurns(legs: seq<Leg>, rest: seq<Turn>): seq<Turn> {
    if legs == [] then rest else Turns(legs[0], AllTurns(legs[1..], rest))
  }

  lemma DoesPass(w: World, e: Event, rest: seq<Turn>)
    requires w.script == [Does(e)] + rest
    ensures Now(w) == Does(e) && Pass(w) == w.(script := rest, chip := React(w.chip, e))
  {
    assert w.script[0] == Does(e) && w.script[1..] == rest && [e][1..] == [];
    assert ReactAll(w.chip, [e]) == ReactAll(React(w.chip, e), []);
  }

  /** The event that a wait is for ends it, and the polls before it see nothing. */
  lemma {:induction false} StageComes(w: World, want: Stage, timed: bool, n: nat, e: Event, rest: seq<Turn>)
    requires w.script == Oks(n, [Does(e)] + rest)
    requires Detected(OK, w.chip) != Some(want) && Detected(OK, React(w.chip, e)) == Some(want)
    ensures WaitForStage(w, want, timed) == (w.(script := rest, chip := React(w.chip, e)), true)
    decreases n
  {
    if n == 0 {
      DoesPass(w, e, rest);
    } else {
      OkPass(w, n - 1, [Does(e)] + rest);
      StageComes(w.(script := Oks(n - 1, [Does(e)] + rest)), want, timed, n - 1, e, rest);
    }
  }

  /** Polls that do not see what is waited for change nothing. */
  lemma {:induction false} StageWaits(w: World, want: Stage, n: nat, rest: seq<Turn>)
    requires w.script == Oks(n, rest) && Detected(OK, w.chip) != Some(want)
    ensures WaitForStage(w, want, false) == WaitForStage(w.(script := rest), want, false)
    decreases n
  {
    if n > 0 {
      OkPass(w, n - 1, rest);
      StageWaits(w.(script := Oks(n - 1, rest)), want, n - 1, rest);
    }
  }

  lemma {:induction false} AnyComes(w: World, n: nat, toRom: bool, rest: seq<Turn>)
    requires w.script == Oks(n, [Does(PlugIn(toRom))] + rest) && w.chip.place == Unplugged
    ensures WaitForAnyAic(w) == (w.(script := rest, chip := w.chip.(place := Plugged(toRom))), true)
    decreases n
  {
    if n == 0 {
      DoesPass(w, PlugIn(toRom), rest);
    } else {
      OkPass(w, n - 1, [Does(PlugIn(toRom))] + rest);
      AnyComes(w.(script := Oks(n - 1, [Does(PlugIn(toRom))] + rest)), n - 1, toRom, rest);
    }
  }

  /** The dongle leaves and comes back. */
  lemma {:induction false} ReplugSeen(w: World, n: nat, m: nat, rest: seq<Turn>)
    requires w.script == Oks(n, [Does(Unplug)] + Oks(m, [Does(PlugIn(false))] + rest)) && w.chip.place == Rom
    ensures WaitForStage(w, StageZeroCD, false) == (w.(script := rest, chip := w.chip.(place := ZeroCD, pending := false)), true)
  {
    var back := Oks(m, [Does(PlugIn(false))] + rest);
    var w1 := w.(script := [Does(Unplug)] + back);
    var w2 := w.(script := back, chip := w.chip.(place := Unplugged, pending := false));
    StageWaits(w, StageZeroCD, n, [Does(Unplug)] + back);
    DoesPass(w1, Unplug, back);
    assert WaitForStage(w1, StageZeroCD, false) == WaitForStage(w2, StageZeroCD, false);
    StageComes(w2, StageZeroCD, false, m, PlugIn(false), rest);
  }

  lemma {:induction false} AbsentRound(w: World, n: nat, toRom: bool, rest: seq<Turn>)
    requires w.script == Turns(Absent(n, toRom), rest) && w.chip.place == Unplugged
    ensures BootstrapRound(w) == (w.(script := rest, chip := w.chip.(place := Plugged(toRom))), None)
  {
    hide WaitForAnyAic, WaitForStage;
    var tail := [Does(PlugIn(toRom))] + rest;
    OkPass(w, n, tail);
    AnyComes(w.(script := Oks(n, tail)), n, toRom, rest);
  }

  lemma {:induction false} EjectRound(w: World, n: nat, rest: seq<Turn>)
    requires w.script == Turns(Eject(n), rest) && w.chip.place == ZeroCD
    ensures BootstrapRound(w) == (w.(script := rest, chip := w.chip.(place := Rom)), None)
  {
    hide WaitForAnyAic, WaitForStage;
    var tail := [Does(Switch)] + rest;
    OkPass(w, n + 1, tail);
    OkPass(w.(script := Oks(n + 1, tail)), n, tail);
    StageComes(w.(script := Oks(n, tail)), StageRom, true, n, Switch, rest);
  }

  lemma FailedPass(w: World, rest: seq<Turn>)
    requires w.script == [FAILED] + rest
    ensures Now(w) == FAILED && Pass(w) == w.(script := rest)
  {
    assert w.script[0] == FAILED && w.script[1..] == rest;
  }

  lemma {:induction false} WedgedRound(w: World, n: nat, m: nat, rest: seq<Turn>)
    requires w.script == Turns(Wedged(n, m), rest) && w.chip.place == Rom
    ensures BootstrapRound(w) == (w.(script := rest, chip := w.chip.(place := ZeroCD, pending := false)), None)
  {
    hide WaitForAnyAic, WaitForStage;
    var replug := Oks(n, [Does(Unplug)] + Oks(m, [Does(PlugIn(false))] + rest));
    var tail := [FAILED] + replug;
    OkPass(w, 1, tail);
    OkPass(w.(script := Oks(1, tail)), 0, tail);
    FailedPass(w.(script := tail), replug);
    assert LoadFirmware(w.(script := Oks(1, tail))) == (w.(script := replug), false);
    ReplugSeen(w.(script := replug), n, m, rest);
  }

  /** After a leg the bootstrap goes round again from where the leg has led. */
  lemma {:induction false} LegGoesRound(w: World, leg: Leg, rest: seq<Turn>)
    requires w.script == Turns(leg, rest) && w.chip.place == From(leg)
    ensures var (v, result) := BootstrapRound(w);
            && result == None && v == w.(script := rest, chip := v.chip) && v.chip.place == To(leg) && v.chip.next == w.chip.next
  {
    hide BootstrapRound;
    match leg
    case Absent(n, toRom) => AbsentRound(w, n, toRom, rest);
    case Eject(n) => EjectRound(w, n, rest);
    case Wedged(n, m) => WedgedRound(w, n, m, rest);
  }

  function Booted(c: Chip): Chip { Chip(Running(c.next), false, c.next + 1) }

  /**
   Whatever the chip is found as, and whatever legs it takes to reach the boot ROM, the bootstrap takes them, and boots
   one new instance.
   */
  lemma {:induction false} BootstrapTakesLegs(w: World, legs: seq<Leg>, rest: seq<Turn>)
    requires w.script == AllTurns(legs, Oks(3, [BOOTED] + rest)) && Leads(w.chip.place, legs)
    ensures Bootstrap(w) == (w.(script := rest, chip := Booted(w.chip)), true)
    decreases |legs|
  {
    hide BootstrapRound;
    if legs == [] {
      UndisturbedBootstrap(w, rest);
    } else {
      LegGoesRound(w, legs[0], AllTurns(legs[1..], Oks(3, [BOOTED] + rest)));
      BootstrapTakesLegs(BootstrapRound(w).0, legs[1..], rest);
    }
  }

  /** The world after a run that flashed and connected: one new instance, started once, reset once. */
  function Linked(w: World, rest: seq<Turn>): World {
    var i := w.chip.next;
    World(Booted(w.chip), w.frames + [StackStart(i, w.sessions, true), MmReset(i, w.sessions + 1)], w.sessions + 2, rest)
  }

  /** What follows the legs of a link run: the flash and the two sessions. */
  function ToTheLink(legs: seq<Leg>, rest: seq<Turn>): seq<Turn> { AllTurns(legs, Oks(3, [BOOTED] + Oks(6, rest))) }

  lemma {:induction false} LegsThenConnect(w: World, legs: seq<Leg>, rest: seq<Turn>)
    requires w.script == ToTheLink(legs, rest) && Leads(w.chip.place, legs)
    ensures FlashAndConnect(w) == (Linked(w, rest), true)
  {
    hide Bootstrap, StartAndConnect;
    BootstrapTakesLegs(w, legs, Oks(6, rest));
    UndisturbedConnect(w.(chip := Booted(w.chip), script := Oks(6, rest)), rest);
  }

  lemma {:induction false} LinkBootstraps(w: World, o: Options)
    requires Detected(Now(w), Pass(w).chip) == Some(StageRom) || Detected(Now(w), Pass(w).chip) == Some(StageZeroCD)
    requires Now(Pass(w)).ok
    ensures Link(w, o) == FlashAndConnect(Pass(Pass(w)))
  {
  }

  /** A link run from ZeroCD or the boot ROM, through any legs: one new instance, started once and reset once. */
  lemma {:induction false} LinkTakesLegs(w: World, o: Options, legs: seq<Leg>, rest: seq<Turn>)
    requires w.script == Oks(2, ToTheLink(legs, rest)) && Leads(w.chip.place, legs) && w.chip.place != Unplugged
    ensures Link(w, o) == (Linked(w, rest), true)
  {
    hide Link, FlashAndConnect;
    var tail := ToTheLink(legs, rest);
    OkPass(w, 1, tail);
    OkPass(w.(script := Oks(1, tail)), 0, tail);
    LinkBootstraps(w, o);
    LegsThenConnect(w.(script := tail), legs, rest);
  }

  lemma {:induction false} FlashableComes(w: World, sawGone: bool, n: nat, toRom: bool, rest: seq<Turn>)
    requires w.script == Oks(n, [Does(PlugIn(toRom))] + rest) && w.chip.place == Unplugged && (sawGone || n > 0)
    ensures WaitForFlashable(w, sawGone) == (w.(script := rest, chip := w.chip.(place := Plugged(toRom))), true)
    decreases n
  {
    if n == 0 {
      DoesPass(w, PlugIn(toRom), rest);
    } else {
      OkPass(w, n - 1, [Does(PlugIn(toRom))] + rest);
      FlashableComes(w.(script := Oks(n - 1, [Does(PlugIn(toRom))] + rest)), true, n - 1, toRom, rest);
    }
  }

  /** The script of a power cycle: some polls, the unplugging, some polls without the dongle, and the plugging in. */
  function PowerCycle(n: nat, m: nat, toRom: bool, rest: seq<Turn>): seq<Turn> {
    Oks(n, [Does(Unplug)] + Oks(m, [Does(PlugIn(toRom))] + rest))
  }

  lemma {:induction false} PowerCycleSeen(w: World, n: nat, m: nat, toRom: bool, rest: seq<Turn>)
    requires w.script == PowerCycle(n, m, toRom, rest) && w.chip.place.Running?
    ensures WaitForFlashable(w, false) == (w.(script := rest, chip := w.chip.(place := Plugged(toRom), pending := false)), true)
    decreases n
  {
    var back := Oks(m, [Does(PlugIn(toRom))] + rest);
    if n == 0 {
      DoesPass(w, Unplug, back);
      FlashableComes(w.(script := back, chip := w.chip.(place := Unplugged, pending := false)), true, m, toRom, rest);
    } else {
      OkPass(w, n - 1, [Does(Unplug)] + back);
      PowerCycleSeen(w.(script := PowerCycle(n - 1, m, toRom, rest)), n - 1, m, toRom, rest);
    }
  }

  lemma {:induction false} LinkWaits(w: World, o: Options)
    requires Detected(Now(w), Pass(w).chip) == Some(StageOperational) && !Reuses(o) && o.waitReplug
    requires WaitForFlashable(Pass(w), false).1
    ensures Link(w, o) == FlashAndConnect(WaitForFlashable(Pass(w), false).0)
  {
  }

  /** A link run that finds firmware running, told to wait, sees the power cycle and flashes a new instance. */
  lemma {:induction false} LinkAfterPowerCycle(w: World, o: Options, n: nat, m: nat, toRom: bool, legs: seq<Leg>, rest: seq<Turn>)
    requires w.script == [OK] + PowerCycle(n, m, toRom, ToTheLink(legs, rest)) && w.chip.place.Running?
    requires !Reuses(o) && o.waitReplug && Leads(Plugged(toRom), legs)
    ensures Link(w, o) == (Linked(w, rest), true)
  {
    hide Link, FlashAndConnect, WaitForFlashable;
    var tail := ToTheLink(legs, rest);
    var cycle := PowerCycle(n, m, toRom, tail);
    assert Oks(0, cycle) == cycle && Oks(1, cycle) == [OK] + cycle;
    OkPass(w, 0, cycle);
    PowerCycleSeen(w.(script := cycle), n, m, toRom, tail);
    LinkWaits(w, o);
    LegsThenConnect(w.(script := tail, chip := w.chip.(place := Plugged(toRom), pending := false)), legs, rest);
  }

  // Giving up

  const EXPIRED := Turn([], true, false, true)
  const CANCELLED := Turn([], true, true, false)

  lemma EmptyPass(w: World, t: Turn, rest: seq<Turn>)
    requires w.script == [t] + rest && t.events == []
    ensures Now(w) == t && Pass(w) == w.(script := rest)
  {
    assert w.script[0] == t && w.script[1..] == rest;
  }

  /** Waiting for a replug ends without one when the time is up, whatever is on the bus. */
  lemma {:induction false} NoReplug(w: World, n: nat, rest: seq<Turn>)
    requires w.script == Oks(n, [EXPIRED] + rest) && w.chip.place.Running?
    ensures WaitForFlashable(w, false) == (w.(script := rest), false)
    decreases n
  {
    if n == 0 {
      EmptyPass(w, EXPIRED, rest);
    } else {
      OkPass(w, n - 1, [EXPIRED] + rest);
      NoReplug(w.(script := Oks(n - 1, [EXPIRED] + rest)), n - 1, rest);
    }
  }

  /**
   The refusals of a link run: an empty bus, firmware running without leave to reuse it or to wait, a wait that sees no
   power cycle, and no firmware set for a chip that needs one. Nothing is sent and nothing is changed.
   */
  predicate Refused(w: World, o: Options, n: nat, rest: seq<Turn>) {
    match w.chip.place
    case Unplugged => w.script == [OK] + rest
    case Running(_) => !Reuses(o) && if o.waitReplug then w.script == [OK] + Oks(n, [EXPIRED] + rest) else w.script == [OK] + rest
    case _ => w.script == [OK] + ([FAILED] + rest)
  }

  lemma {:induction false} LinkRefuses(w: World, o: Options, n: nat, rest: seq<Turn>)
    requires Refused(w, o, n, rest)
    ensures Link(w, o) == (w.(script := rest), false)
  {
    hide WaitForFlashable, FlashAndConnect, StartAndConnect;
    var tail := w.script[1..];
    assert w.script == [OK] + tail;
    EmptyPass(w, OK, tail);
    match w.chip.place
    case Unplugged =>
    case Running(_) => if o.waitReplug { NoReplug(w.(script := tail), n, rest); }
    case _ => FailedPass(w.(script := tail), rest);
  }

  lemma {:induction false} RomMissing(w: World, n: nat, rest: seq<Turn>)
    requires w.script == Oks(n, [EXPIRED] + rest) && w.chip.place == ZeroCD
    ensures WaitForStage(w, StageRom, true) == (w.(script := rest), false)
    decreases n
  {
    if n == 0 {
      EmptyPass(w, EXPIRED, rest);
    } else {
      OkPass(w, n - 1, [EXPIRED] + rest);
      RomMissing(w.(script := Oks(n - 1, [EXPIRED] + rest)), n - 1, rest);
    }
  }

  /** A bootstrap fails where the eject does, and where the boot ROM does not appear in time. */
  lemma {:induction false} BootstrapFails(w: World, ejected: bool, n: nat, rest: seq<Turn>)
    requires w.script == [OK] + (if ejected then [OK] + Oks(n, [EXPIRED] + rest) else [FAILED] + rest) && w.chip.place == ZeroCD
    ensures Bootstrap(w) == (w.(script := rest), false)
  {
    hide WaitForAnyAic, WaitForStage;
    var tail := w.script[1..];
    assert w.script == [OK] + tail;
    EmptyPass(w, OK, tail);
    if ejected {
      EmptyPass(w.(script := tail), OK, Oks(n, [EXPIRED] + rest));
      RomMissing(w.(script := Oks(n, [EXPIRED] + rest)), n, rest);
    } else {
      FailedPass(w.(script := tail), rest);
    }
  }

  /** A cancelled bootstrap ends at once, and one that finds firmware running has nothing to do. */
  lemma {:induction false} BootstrapEndsAtOnce(w: World, rest: seq<Turn>)
    requires w.script == [CANCELLED] + rest || (w.script == [OK] + rest && w.chip.place.Running?)
    ensures Bootstrap(w) == (w.(script := rest), w.script == [OK] + rest)
  {
    hide WaitForAnyAic, WaitForStage;
    if w.script == [CANCELLED] + rest {
      assert w.script[0] == CANCELLED;
      EmptyPass(w, CANCELLED, rest);
    } else {
      EmptyPass(w, OK, rest);
    }
  }

  /** The turn of the two sessions that fails: the device, stack_start's answer, a cancellation between them, the device again, the connection. */
  predicate FailsAt(i: nat) { i <= 3 || i == 5 }

  function FailingTurn(i: nat): Turn { if i == 2 then CANCELLED else FAILED }

  /** What has been sent by then. */
  function SentBefore(i: nat, inst: nat, session: nat): seq<Frame> {
    if i == 0 then []
    else if i <= 3 then [StackStart(inst, session, i != 1)]
    else [StackStart(inst, session, true), MmReset(inst, session + 1)]
  }

  function GivenUp(w: World, i: nat, inst: nat, rest: seq<Turn>): World {
    World(w.chip, w.frames + SentBefore(i, inst, w.sessions), w.sessions + (if i == 0 then 0 else if i <= 3 then 1 else 2), rest)
  }

  lemma TurnPass(w: World, t: Turn, n: nat, rest: seq<Turn>)
    requires w.script == Oks(n, [t] + rest) && t.events == []
    ensures if n == 0 then Now(w) == t && Pass(w) == w.(script := rest) else Now(w) == OK && Pass(w) == w.(script := Oks(n - 1, [t] + rest))
  {
    if n == 0 { EmptyPass(w, t, rest); } else { OkPass(w, n - 1, [t] + rest); }
  }

  /** The stack session. */
  lemma {:induction false} StackFails(w: World, i: nat, rest: seq<Turn>)
    requires i <= 1 && w.script == Oks(i, [FAILED] + rest) && w.chip.place.Running?
    ensures StartAndConnect(w) == (GivenUp(w, i, w.chip.place.inst, rest), false)
  {
    assert w.frames + [] == w.frames;
    TurnPass(w, FAILED, i, rest);
    if i == 1 { TurnPass(w.(script := Oks(0, [FAILED] + rest), sessions := w.sessions + 1), FAILED, 0, rest); }
  }

  lemma {:induction false} StackStarts(w: World, tail: seq<Turn>)
    requires w.script == Oks(2, tail) && w.chip.place.Running?
    ensures Bringup(w, true) == (World(w.chip, w.frames + [StackStart(w.chip.place.inst, w.sessions, true)], w.sessions + 1, tail), true)
  {
    OkPass(w, 1, tail);
    OkPass(w.(script := Oks(1, tail), sessions := w.sessions + 1), 0, tail);
  }

  lemma {:induction false} ConnectFails(w: World, i: nat, rest: seq<Turn>)
    requires 2 <= i && FailsAt(i) && w.script == Oks(i - 2, [FailingTurn(i)] + rest) && w.chip.place.Running?
    ensures var t, v := Now(w), Pass(w);
            var r := if t.cancelled then (v, false) else Bringup(v, false);
            r == (World(w.chip, w.frames + (if i == 5 then [MmReset(w.chip.place.inst, w.sessions)] else []),
                        w.sessions + (if i == 5 then 1 else 0), rest), false)
  {
    assert w.frames + [] == w.frames;
    var t := FailingTurn(i);
    TurnPass(w, t, i - 2, rest);
    if i > 2 {
      var v := w.(script := Oks(i - 3, [t] + rest));
      TurnPass(v, t, i - 3, rest);
      if i == 5 {
        var v2 := v.(script := Oks(1, [t] + rest), sessions := v.sessions + 1);
        TurnPass(v2, t, 1, rest);
        TurnPass(v2.(script := Oks(0, [t] + rest), frames := v2.frames + [MmReset(w.chip.place.inst, w.sessions)]), t, 0, rest);
      }
    }
  }

  /** A link run fails wherever its two sessions do, with what has been sent by then. */
  lemma {:induction false} SessionsFail(w: World, i: nat, rest: seq<Turn>)
    requires FailsAt(i) && w.script == Oks(i, [FailingTurn(i)] + rest) && w.chip.place.Running?
    ensures StartAndConnect(w) == (GivenUp(w, i, w.chip.place.inst, rest), false)
  {
    hide Bringup, Pass, Now;
    if i <= 1 {
      StackFails(w, i, rest);
    } else {
      var tail, inst := Oks(i - 2, [FailingTurn(i)] + rest), w.chip.place.inst;
      OksTwice(2, i - 2, [FailingTurn(i)] + rest);
      StackStarts(w, tail);
      var v := World(w.chip, w.frames + [StackStart(inst, w.sessions, true)], w.sessions + 1, tail);
      ConnectFails(v, i, rest);
      assert v.frames + [] == v.frames;
      assert w.frames + [StackStart(inst, w.sessions, true)] + [MmReset(inst, w.sessions + 1)] ==
             w.frames + [StackStart(inst, w.sessions, true), MmReset(inst, w.sessions + 1)];
    }
  }

  lemma {:induction false} OksTwice(a: nat, b: nat, rest: seq<Turn>)
    ensures Oks(a + b, rest) == Oks(a, Oks(b, rest))
  {
    if a > 0 { OksTwice(a - 1, b, rest); }
  }

  /** So does one that has flashed the chip first. */
  lemma {:induction false} LinkFailsLate(w: World, o: Options, legs: seq<Leg>, i: nat, rest: seq<Turn>)
    requires FailsAt(i) && w.script == Oks(2, AllTurns(legs, Oks(3, [BOOTED] + Oks(i, [FailingTurn(i)] + rest))))
    requires Leads(w.chip.place, legs) && w.chip.place != Unplugged
    ensures Link(w, o) == (GivenUp(w.(chip := Booted(w.chip)), i, w.chip.next, rest), false)
  {
    hide Link, Bootstrap, StartAndConnect;
    var sessions := Oks(i, [FailingTurn(i)] + rest);
    var tail := AllTurns(legs, Oks(3, [BOOTED] + sessions));
    OkPass(w, 1, tail);
    OkPass(w.(script := Oks(1, tail)), 0, tail);
    LinkBootstraps(w, o);
    BootstrapTakesLegs(w.(script := tail), legs, sessions);
    SessionsFail(w.(chip := Booted(w.chip), script := sessions), i, rest);
  }

  // Every run

  /** Every call works, nothing is cancelled and no time is up; the owner and the chip do as they like. */
  predicate Fine(script: seq<Turn>) {
    forall i :: 0 <= i < |script| ==> script[i].ok && !script[i].cancelled && !script[i].expired
  }

  lemma FinePass(w: World)
    requires Fine(w.script)
    ensures Fine(Pass(w).script)
  {
  }

  lemma {:induction false} FineStage(w: World, want: Stage, timed: bool)
    requires Fine(w.script)
    ensures var (v, seen) := WaitForStage(w, want, timed); Fine(v.script) && (!seen ==> v.script == [])
    decreases |w.script|
  {
    FinePass(w);
    if w.script != [] { FineStage(Pass(w), want, timed); }
  }

  lemma {:induction false} FineAny(w: World)
    requires Fine(w.script)
    ensures var (v, seen) := WaitForAnyAic(w); Fine(v.script) && (!seen ==> v.script == [])
    decreases |w.script|
  {
    FinePass(w);
    if w.script != [] { FineAny(Pass(w)); }
  }

  lemma {:induction false} FineUpload(w: World)
    requires Fine(w.script)
    ensures var (v, up) := UploadFirmware(w); Fine(v.script) && (up ==> v.chip.place.Running?)
  {
    var v := Pass(w);
    FinePass(w);
    FinePass(v.(chip := v.chip.(pending := true)));
  }

  lemma {:induction false} FineLoad(w: World)
    requires Fine(w.script)
    ensures Fine(LoadFirmware(w).0.script)
  {
    hide UploadFirmware;
    FinePass(w);
    FinePass(Pass(w));
    FineUpload(Pass(w));
    FineUpload(Pass(Pass(w)));
  }

  lemma {:induction false} FineRound(w: World)
    requires Fine(w.script)
    ensures var (v, result) := BootstrapRound(w); Fine(v.script) && (result == Some(false) ==> v.script == [])
  {
    hide LoadFirmware, WaitForStage, WaitForAnyAic;
    var v := Pass(w);
    FinePass(w);
    FinePass(v);
    FineAny(v);
    FineStage(Pass(v), StageRom, true);
    FineLoad(v);
    FineStage(LoadFirmware(v).0, StageZeroCD, false);
  }

  /**
   However the dongle is pulled, plugged in, switched and crashed: as long as calls work, no time is up and nobody
   cancels, the bootstrap never gives up. It fails only when the course of events is over.
   */
  lemma {:induction false} NeverGivesUp(w: World)
    requires Fine(w.script)
    ensures !Bootstrap(w).1 ==> Bootstrap(w).0.script == []
    decreases |w.script|
  {
    hide BootstrapRound;
    FineRound(w);
    var (v, result) := BootstrapRound(w);
    if result == None { NeverGivesUp(v); }
  }

  lemma {:induction false} LoadedMeansRunning(w: World)
    ensures LoadFirmware(w).1 ==> LoadFirmware(w).0.chip.place.Running?
  {
  }

  lemma {:induction false} RoundMeansRunning(w: World)
    ensures BootstrapRound(w).1 == Some(true) ==> BootstrapRound(w).0.chip.place.Running?
  {
    hide LoadFirmware;
    LoadedMeansRunning(Pass(w));
  }

  /** In any surroundings, a bootstrap that succeeds leaves firmware running. */
  lemma {:induction false} SuccessMeansRunning(w: World)
    ensures Bootstrap(w).1 ==> Bootstrap(w).0.chip.place.Running?
    decreases |w.script|
  {
    hide BootstrapRound;
    RoundMeansRunning(w);
    var (v, result) := BootstrapRound(w);
    if result == None { SuccessMeansRunning(v); }
  }

  lemma {:induction false} ConnectStarts(w: World)
    requires StartAndConnect(w).1
    ensures var v := StartAndConnect(w).0;
            |w.frames| < |v.frames| && v.frames[|w.frames|].StackStart? && v.frames[|w.frames|].confirmed
  {
    hide Pass;
    PassSendsNothing(w);
    var w1 := Pass(w).(sessions := Pass(w).sessions + 1);
    PassSendsNothing(w1);
    PassSendsNothing(Bringup(w, true).0);
    BringupExtends(Pass(Bringup(w, true).0), false);
  }

  lemma PassSendsNothing(w: World)
    ensures Pass(w).frames == w.frames
  {
  }

  /** In any surroundings, a link run that succeeds begins with a confirmed stack_start. */
  lemma {:induction false} LinkedMeansStarted(w: World, o: Options)
    requires Link(w, o).1
    ensures var v := Link(w, o).0;
            |w.frames| < |v.frames| && v.frames[|w.frames|].StackStart? && v.frames[|w.frames|].confirmed
  {
    hide StartAndConnect, Bootstrap, WaitForFlashable;
    var v := Pass(w);
    PassSendsNothing(w);
    PassSendsNothing(v);
    if Detected(Now(w), v.chip) == Some(StageOperational) {
      if Reuses(o) {
        ConnectStarts(v);
      } else {
        FlashableSendsNothing(v, false);
        var v2 := WaitForFlashable(v, false).0;
        BootstrapSendsNothing(v2);
        ConnectStarts(Bootstrap(v2).0);
      }
    } else {
      BootstrapSendsNothing(Pass(v));
      ConnectStarts(Bootstrap(Pass(v)).0);
    }
  }

  /** A loader run from ZeroCD ejects and loads; one that finds firmware running has nothing to do. */
  lemma {:induction false} LoaderFromZeroCd(w: World, rest: seq<Turn>)
    requires w.script == [OK] + ([Does(Switch)] + ([OK] + ([BOOTED] + rest))) && w.chip.place == ZeroCD
    ensures LoadFirmware(w) == (w.(script := rest, chip := Booted(w.chip)), true)
  {
    hide Oks;
    var t1 := [BOOTED] + rest;
    EmptyPass(w, OK, [Does(Switch)] + ([OK] + t1));
    DoesPass(w.(script := [Does(Switch)] + ([OK] + t1)), Switch, [OK] + t1);
    var w2 := w.(script := [OK] + t1, chip := w.chip.(place := Rom));
    EmptyPass(w2, OK, t1);
    BootedPass(w2.(script := t1, chip := w2.chip.(pending := true)), rest);
  }

  lemma {:induction false} LoaderWithoutWork(w: World, rest: seq<Turn>)
    requires w.script == [OK] + rest && (w.chip.place.Running? || w.chip.place.Unplugged?)
    ensures LoadFirmware(w) == (w.(script := rest), w.chip.place.Running?)
  {
    EmptyPass(w, OK, rest);
  }
}
