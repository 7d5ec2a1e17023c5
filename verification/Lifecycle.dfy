/** The life of a firmware instance: link.go, bootstrap.go, bringup_scan.go and the stage logic of loader.go. */
module Lifecycle {
  // The program runs against a chip whose owner pulls it out, plugs it in and lets it crash at will. The radio's rule
  // is one MM_RESET for each time firmware is booted.

  import opened Common

  // The chip and its surroundings

  datatype Place = Unplugged | ZeroCD | Rom | Running(inst: nat)

  /** `pending`: START_APP was sent and the boot has not happened. `next` numbers the instances. */
  datatype Chip = Chip(place: Place, pending: bool, next: nat)

  datatype Event =
    | Unplug                // power is gone, and with it everything the chip held
    | PlugIn(toRom: bool)
    | Switch                // the eject took effect, or the ZeroCD phase timed out
    | RomReset              // the boot ROM restarted as ZeroCD
    | Crash(toRom: bool)    // the firmware died
    | Boot                  // the started firmware came up, however late

  function React(c: Chip, e: Event): Chip {
    match e
    case Unplug => c.(place := Unplugged, pending := false)
    case PlugIn(toRom) => if c.place.Unplugged? then c.(place := if toRom then Rom else ZeroCD) else c
    case Switch => if c.place.ZeroCD? then c.(place := Rom) else c
    case RomReset => if c.place.Rom? then c.(place := ZeroCD) else c
    case Crash(toRom) => if c.place.Running? then c.(place := if toRom then Rom else ZeroCD) else c
    case Boot => if c.place.Rom? && c.pending then Chip(Running(c.next), false, c.next + 1) else c
  }

  function ReactAll(c: Chip, events: seq<Event>): Chip
    decreases |events|
  {
    if events == [] then c else ReactAll(React(c, events[0]), events[1..])
  }

  /**
   What the surroundings do between two steps of the program, and how they answer the next one:
   `ok` for a call that works or a confirmation that arrives, `cancelled` for a context that has
   ended, `expired` for a deadline that has passed.
   */
  datatype Turn = Turn(events: seq<Event>, ok: bool, cancelled: bool, expired: bool)

  /** Frames the chip received. `session` numbers the USB sessions. */
  datatype Frame =
    | StackStart(inst: nat, session: nat, confirmed: bool)
    | MmReset(inst: nat, session: nat)

  datatype World = World(chip: Chip, frames: seq<Frame>, sessions: nat, script: seq<Turn>)

  /** When the script has run out the context is cancelled. */
  function Now(w: World): Turn {
    if w.script == [] then Turn([], false, true, true) else w.script[0]
  }

  function Pass(w: World): World {
    if w.script == [] then w else w.(chip := ReactAll(w.chip, w.script[0].events), script := w.script[1..])
  }

  // The program as a function of the world

  datatype Stage = StageZeroCD | StageRom | StageOperational

  /** DetectAICStage once the turn has been taken. */
  function Detected(t: Turn, c: Chip): Option<Stage> {
    if !t.ok then None
    else match c.place
      case Unplugged => None
      case ZeroCD => Some(StageZeroCD)
      case Rom => Some(StageRom)
      case Running(_) => Some(StageOperational)
  }

  function WaitForStage(w: World, want: Stage, timed: bool): (World, bool)
    decreases |w.script|
  {
    var t, v := Now(w), Pass(w);
    if t.cancelled then (v, false)
    else if Detected(t, v.chip) == Some(want) then (v, true)
    else if (timed && t.expired) || w.script == [] then (v, false)
    else WaitForStage(v, want, timed)
  }

  function WaitForAnyAic(w: World): (World, bool)
    decreases |w.script|
  {
    var t, v := Now(w), Pass(w);
    if t.cancelled then (v, false)
    else if Detected(t, v.chip).Some? then (v, true)
    else if w.script == [] then (v, false)
    else WaitForAnyAic(v)
  }

  /** The uploads and START_APP, then the wait for the operational identity. */
  function UploadFirmware(w: World): (World, bool) {
    var t, v := Now(w), Pass(w);
    if !t.ok || !v.chip.place.Rom? then (v, false)
    else
      var started := v.(chip := v.chip.(pending := true));
      var t2, v2 := Now(started), Pass(started);
      (v2, t2.ok && v2.chip.place.Running?)
  }

  function LoadFirmware(w: World): (World, bool) {
    var t, v := Now(w), Pass(w);
    match Detected(t, v.chip)
    case None => (v, false)
    case Some(StageOperational) => (v, true)
    case Some(StageRom) => UploadFirmware(v)
    case Some(StageZeroCD) =>
      var t2, v2 := Now(v), Pass(v);
      if t2.ok then UploadFirmware(v2) else (v2, false)
  }

  /** One round of the bootstrap loop: the result, or `None` to go round again. */
  function BootstrapRound(w: World): (r: (World, Option<bool>))
    ensures |r.0.script| <= |w.script| && (r.1 == None ==> |r.0.script| < |w.script|)
  {
    var t, v := Now(w), Pass(w);
    if t.cancelled || w.script == [] then (v, Some(false))
    else
      match Detected(t, v.chip)
      case None =>
        ShorterWaits(v);
        var (v2, seen) := WaitForAnyAic(v);
        (v2, if seen then None else Some(false))
      case Some(StageOperational) => (v, Some(true))
      case Some(StageZeroCD) =>
        var ejected, v2 := Now(v).ok, Pass(v);
        ShorterWaits(v2);
        var (v3, inRom) := WaitForStage(v2, StageRom, true);
        if !ejected then (v2, Some(false)) else (v3, if inRom then None else Some(false))
      case Some(StageRom) =>
        var (v2, up) := LoadFirmware(v);
        ShorterWaits(v2);
        var (v3, replugged) := WaitForStage(v2, StageZeroCD, false);
        if up then (v2, Some(true)) else (v3, if replugged then None else Some(false))
  }

  function Bootstrap(w: World): (World, bool)
    decreases |w.script|
  {
    var (v, result) := BootstrapRound(w);
    if result.Some? then (v, result.value) else Bootstrap(v)
  }

  lemma ShorterWaits(w: World)
    ensures |WaitForAnyAic(w).0.script| <= |w.script|
    ensures forall s, b :: |WaitForStage(w, s, b).0.script| <= |w.script|
  {
    ShorterAny(w);
    forall s, b ensures |WaitForStage(w, s, b).0.script| <= |w.script| { ShorterStage(w, s, b); }
  }

  lemma ShorterAny(w: World)
    ensures |WaitForAnyAic(w).0.script| <= |w.script|
    decreases |w.script|
  {
    if w.script != [] { ShorterAny(Pass(w)); }
  }

  lemma ShorterStage(w: World, s: Stage, b: bool)
    ensures |WaitForStage(w, s, b).0.script| <= |w.script|
    decreases |w.script|
  {
    if w.script != [] { ShorterStage(Pass(w), s, b); }
  }

  function WaitForFlashable(w: World, sawGone: bool): (World, bool)
    decreases |w.script|
  {
    var t, v := Now(w), Pass(w);
    if t.expired || t.cancelled || w.script == [] then (v, false)
    else
      var stage := Detected(t, v.chip);
      if stage == None then WaitForFlashable(v, true)
      else if sawGone && (stage.value == StageZeroCD || stage.value == StageRom) then (v, true)
      else WaitForFlashable(v, sawGone)
  }

  /** A bring-up session: with `stack` it ends after stack_start, without it resets the MAC and connects. */
  function Bringup(w: World, stack: bool): (World, bool) {
    var t, v := Now(w), Pass(w);
    if !t.ok || !v.chip.place.Running? then (v, false)
    else
      var inst, session := v.chip.place.inst, v.sessions;
      var claimed := v.(sessions := v.sessions + 1);
      var t2, v2 := Now(claimed), Pass(claimed);
      var there := v2.chip.place == Running(inst);
      if stack then
        if there then (v2.(frames := v2.frames + [StackStart(inst, session, t2.ok)]), t2.ok) else (v2, false)
      else
        var v3 := if there then v2.(frames := v2.frames + [MmReset(inst, session)]) else v2;
        (Pass(v3), Now(v3).ok)
  }

  datatype Options = Options(skipFlash: bool, force: bool, waitReplug: bool)

  predicate Reuses(o: Options) { o.skipFlash || o.force }

  /** The two sessions of a link run once firmware is up. */
  function StartAndConnect(w: World): (World, bool) {
    var (v, started) := Bringup(w, true);
    if !started then (v, false)
    else
      var t, v2 := Now(v), Pass(v);
      if t.cancelled then (v2, false) else Bringup(v2, false)
  }

  function FlashAndConnect(w: World): (World, bool) {
    var (v, up) := Bootstrap(w);
    if up then StartAndConnect(v) else (v, false)
  }

  function Link(w: World, o: Options): (World, bool) {
    var t, v := Now(w), Pass(w);
    match Detected(t, v.chip)
    case None => (v, false)
    case Some(StageOperational) =>
      if Reuses(o) then StartAndConnect(v)
      else if !o.waitReplug then (v, false)
      else
        var (v2, replugged) := WaitForFlashable(v, false);
        if replugged then FlashAndConnect(v2) else (v2, false)
    case Some(_) =>
      var present, v2 := Now(v).ok, Pass(v);
      if present then FlashAndConnect(v2) else (v2, false)
  }

  function Links(w: World, runs: seq<Options>): World
    decreases |runs|
  {
    if runs == [] then w else Links(Link(w, runs[0]).0, runs[1..])
  }

  // The rule

  predicate ResetAt(frames: seq<Frame>, k: int, inst: nat) {
    0 <= k < |frames| && frames[k].MmReset? && frames[k].inst == inst
  }

  predicate OneResetEach(frames: seq<Frame>) {
    forall j, k :: 0 <= j < k < |frames| && frames[j].MmReset? && frames[k].MmReset? ==> frames[j].inst != frames[k].inst
  }

  predicate StartedBefore(frames: seq<Frame>, k: int, inst: nat, session: nat) {
    exists j :: 0 <= j < k && j < |frames| && frames[j].StackStart? && frames[j].confirmed && frames[j].inst == inst && frames[j].session < session
  }

  /** Every reset goes to an instance whose stack_start was confirmed in an earlier session. */
  predicate StartedFirst(frames: seq<Frame>) {
    forall k :: 0 <= k < |frames| && frames[k].MmReset? ==> StartedBefore(frames, k, frames[k].inst, frames[k].session)
  }

  predicate Safe(frames: seq<Frame>) { OneResetEach(frames) && StartedFirst(frames) }

  predicate Inv(w: World) {
    && Safe(w.frames)
    && (forall k :: 0 <= k < |w.frames| ==> w.frames[k].inst < w.chip.next && w.frames[k].session < w.sessions)
    && (w.chip.place.Running? ==> w.chip.place.inst < w.chip.next && !w.chip.pending)
  }

  /** The instance that is running now, if one is, has had no reset. */
  predicate Clean(w: World) {
    w.chip.place.Running? ==> forall k :: 0 <= k < |w.frames| ==> !ResetAt(w.frames, k, w.chip.place.inst)
  }

  /** No boot is outstanding, and the running instance, if one is left, had its stack_start confirmed. */
  predicate Started(w: World) {
    !w.chip.pending && (w.chip.place.Running? ==> StartedBefore(w.frames, |w.frames|, w.chip.place.inst, w.sessions))
  }

  lemma {:induction false} EventsKeep(w: World, events: seq<Event>)
    requires Inv(w)
    ensures var v := w.(chip := ReactAll(w.chip, events));
            Inv(v) && (Clean(w) ==> Clean(v)) && (Started(w) ==> Started(v))
    decreases |events|
  {
    if events != [] {
      var v := w.(chip := React(w.chip, events[0]));
      EventsKeep(v, events[1..]);
    }
  }

  lemma PassKeeps(w: World)
    requires Inv(w)
    ensures Inv(Pass(w)) && (Clean(w) ==> Clean(Pass(w))) && (Started(w) ==> Started(Pass(w)))
    ensures Pass(w).frames == w.frames && Pass(w).sessions == w.sessions
  {
    if w.script != [] { EventsKeep(w, w.script[0].events); }
  }

  lemma {:induction false} WaitForStageKeeps(w: World, want: Stage, timed: bool)
    requires Inv(w) && Clean(w)
    ensures var v := WaitForStage(w, want, timed).0; Inv(v) && Clean(v)
    decreases |w.script|
  {
    PassKeeps(w);
    if w.script != [] { WaitForStageKeeps(Pass(w), want, timed); }
  }

  lemma {:induction false} WaitForAnyKeeps(w: World)
    requires Inv(w) && Clean(w)
    ensures var v := WaitForAnyAic(w).0; Inv(v) && Clean(v)
    decreases |w.script|
  {
    PassKeeps(w);
    if w.script != [] { WaitForAnyKeeps(Pass(w)); }
  }

  lemma UploadKeeps(w: World)
    requires Inv(w) && Clean(w)
    ensures var v := UploadFirmware(w).0; Inv(v) && Clean(v)
  {
    PassKeeps(w);
    var v := Pass(w);
    if Now(w).ok && v.chip.place.Rom? { PassKeeps(v.(chip := v.chip.(pending := true))); }
  }

  lemma LoadKeeps(w: World)
    requires Inv(w) && Clean(w)
    ensures var v := LoadFirmware(w).0; Inv(v) && Clean(v)
  {
    PassKeeps(w);
    PassKeeps(Pass(w));
    UploadKeeps(Pass(w));
    UploadKeeps(Pass(Pass(w)));
  }

  lemma EjectKeeps(w: World)
    requires Inv(w) && Clean(w)
    ensures var v := WaitForStage(Pass(w), StageRom, true).0; Inv(v) && Clean(v) && Inv(Pass(w)) && Clean(Pass(w))
  {
    PassKeeps(w);
    WaitForStageKeeps(Pass(w), StageRom, true);
  }

  lemma FlashOrReplugKeeps(w: World)
    requires Inv(w) && Clean(w)
    ensures var v := LoadFirmware(w).0; Inv(v) && Clean(v)
    ensures var v := WaitForStage(LoadFirmware(w).0, StageZeroCD, false).0; Inv(v) && Clean(v)
  {
    LoadKeeps(w);
    WaitForStageKeeps(LoadFirmware(w).0, StageZeroCD, false);
  }

  lemma RoundKeeps(w: World)
    requires Inv(w) && Clean(w)
    ensures var v := BootstrapRound(w).0; Inv(v) && Clean(v)
  {
    var t, v := Now(w), Pass(w);
    PassKeeps(w);
    if !t.cancelled && w.script != [] {
      match Detected(t, v.chip)
      case None => WaitForAnyKeeps(v);
      case Some(StageOperational) =>
      case Some(StageZeroCD) => EjectKeeps(v);
      case Some(StageRom) => FlashOrReplugKeeps(v);
    }
  }

  lemma {:induction false} BootstrapKeeps(w: World)
    requires Inv(w) && Clean(w)
    ensures var v := Bootstrap(w).0; Inv(v) && Clean(v)
    decreases |w.script|
  {
    RoundKeeps(w);
    var (v, result) := BootstrapRound(w);
    if result == None { BootstrapKeeps(v); }
  }

  /** A replug that was seen leaves no instance running. */
  lemma {:induction false} WaitForFlashableKeeps(w: World, sawGone: bool)
    requires Inv(w)
    ensures var r := WaitForFlashable(w, sawGone); Inv(r.0) && (r.1 ==> Clean(r.0))
    decreases |w.script|
  {
    PassKeeps(w);
    if w.script != [] {
      WaitForFlashableKeeps(Pass(w), true);
      WaitForFlashableKeeps(Pass(w), sawGone);
    }
  }

  lemma {:induction false} StackSessionKeeps(w: World)
    requires Inv(w)
    ensures var r := Bringup(w, true); Inv(r.0) && (Clean(w) ==> Clean(r.0)) && (r.1 ==> Started(r.0))
  {
    hide Pass, Safe;
    PassKeeps(w);
    var v := Pass(w);
    if Now(w).ok && v.chip.place.Running? {
      var inst, session := v.chip.place.inst, v.sessions;
      var claimed := v.(sessions := v.sessions + 1);
      PassKeeps(claimed);
      var v2 := Pass(claimed);
      if v2.chip.place == Running(inst) {
        var frames := v2.frames + [StackStart(inst, session, Now(claimed).ok)];
        StartKeepsSafe(v2.frames, frames[|v2.frames|]);
        assert Now(claimed).ok ==> frames[|v2.frames|].confirmed;
        forall k | 0 <= k < |frames| ensures ResetAt(frames, k, inst) ==> ResetAt(v2.frames, k, inst) {
        }
      }
    }
  }

  lemma StartKeepsSafe(frames: seq<Frame>, f: Frame)
    requires Safe(frames) && f.StackStart?
    ensures Safe(frames + [f])
  {
    forall k | 0 <= k < |frames| && frames[k].MmReset?
      ensures StartedBefore(frames + [f], k, frames[k].inst, frames[k].session)
    {
      assert StartedBefore(frames, k, frames[k].inst, frames[k].session);
      var j :| 0 <= j < k && frames[j].StackStart? && frames[j].confirmed && frames[j].inst == frames[k].inst && frames[j].session < frames[k].session;
      assert (frames + [f])[j] == frames[j];
    }
  }

  lemma ResetKeepsSafe(frames: seq<Frame>, f: Frame)
    requires Safe(frames) && f.MmReset?
    requires forall k :: 0 <= k < |frames| ==> !ResetAt(frames, k, f.inst)
    requires StartedBefore(frames, |frames|, f.inst, f.session)
    ensures Safe(frames + [f])
  {
    var longer := frames + [f];
    forall k | 0 <= k < |longer| && longer[k].MmReset?
      ensures StartedBefore(longer, k, longer[k].inst, longer[k].session)
    {
      assert StartedBefore(frames, k, longer[k].inst, longer[k].session);
      var j :| 0 <= j < k && j < |frames| && frames[j].StackStart? && frames[j].confirmed && frames[j].inst == longer[k].inst && frames[j].session < longer[k].session;
      assert longer[j] == frames[j];
    }
    forall k | 0 <= k < |frames| && frames[k].MmReset? ensures frames[k].inst != f.inst {
      assert !ResetAt(frames, k, f.inst);
    }
  }

  lemma ConnectSessionKeeps(w: World)
    requires Inv(w) && Clean(w) && Started(w)
    ensures Inv(Bringup(w, false).0)
  {
    PassKeeps(w);
    var v := Pass(w);
    if Now(w).ok && v.chip.place.Running? {
      var inst, session := v.chip.place.inst, v.sessions;
      var claimed := v.(sessions := v.sessions + 1);
      PassKeeps(claimed);
      var v2 := Pass(claimed);
      if v2.chip.place == Running(inst) {
        ResetKeepsSafe(v2.frames, MmReset(inst, session));
        PassKeeps(v2.(frames := v2.frames + [MmReset(inst, session)]));
      } else {
        PassKeeps(v2);
      }
    }
  }

  /** From a clean world the two sessions keep the rule. */
  lemma StartAndConnectKeeps(w: World)
    requires Inv(w) && Clean(w)
    ensures Inv(StartAndConnect(w).0)
  {
    StackSessionKeeps(w);
    var r := Bringup(w, true);
    if r.1 {
      PassKeeps(r.0);
      ConnectSessionKeeps(Pass(r.0));
    }
  }

  lemma FlashAndConnectKeeps(w: World)
    requires Inv(w) && Clean(w)
    ensures Inv(FlashAndConnect(w).0)
  {
    BootstrapKeeps(w);
    StartAndConnectKeeps(Bootstrap(w).0);
  }

  /** One link run keeps the rule, unless it reuses an instance that has been reset. */
  lemma LinkKeeps(w: World, o: Options)
    requires Inv(w) && (Reuses(o) ==> Clean(w))
    ensures Inv(Link(w, o).0)
  {
    PassKeeps(w);
    var v := Pass(w);
    match Detected(Now(w), v.chip)
    case None =>
    case Some(StageOperational) =>
      if Reuses(o) {
        StartAndConnectKeeps(v);
      } else {
        WaitForFlashableKeeps(v, false);
        var r := WaitForFlashable(v, false);
        if r.1 { FlashAndConnectKeeps(r.0); }
      }
    case Some(_) =>
      PassKeeps(v);
      FlashAndConnectKeeps(Pass(v));
  }

  /** Over any number of runs that do not reuse an instance, against any chip, the rule holds. */
  lemma {:induction false} LinksKeep(w: World, runs: seq<Options>)
    requires Inv(w) && forall i :: 0 <= i < |runs| ==> !Reuses(runs[i])
    ensures Inv(Links(w, runs))
    decreases |runs|
  {
    if runs != [] {
      LinkKeeps(w, runs[0]);
      LinksKeep(Link(w, runs[0]).0, runs[1..]);
    }
  }

  // When runs may reuse an instance

  predicate Consistent(c: Chip) { c.place.Running? ==> c.place.inst < c.next && !c.pending }

  /** Whatever the chip was and whatever happens to it, the runs keep the rule. */
  ghost predicate AlwaysSafe(runs: seq<Options>) {
    forall chip: Chip, script: seq<Turn> :: Consistent(chip) ==> Safe(Links(World(chip, [], 0, script), runs).frames)
  }

  const OK := Turn([], true, false, false)
  const BOOTED := Turn([Boot], true, false, false)
  const FAILED := Turn([], false, false, false)

  function Oks(n: nat, rest: seq<Turn>): seq<Turn> { if n == 0 then rest else [OK] + Oks(n - 1, rest) }

  lemma OkPass(w: World, n: nat, rest: seq<Turn>)
    requires w.script == Oks(n + 1, rest)
    ensures Now(w) == OK && Pass(w) == w.(script := Oks(n, rest))
  {
    assert w.script[1..] == Oks(n, rest);
  }

  /** In undisturbed surroundings the two sessions send exactly one stack_start and one reset. */
  lemma UndisturbedConnect(w: World, rest: seq<Turn>)
    requires w.script == Oks(6, rest) && w.chip.place.Running?
    ensures var i := w.chip.place.inst;
            StartAndConnect(w) == (World(w.chip, w.frames + [StackStart(i, w.sessions, true), MmReset(i, w.sessions + 1)], w.sessions + 2, rest), true)
  {
    var i := w.chip.place.inst;
    OkPass(w, 5, rest);
    var w1 := w.(script := Oks(5, rest), sessions := w.sessions + 1);
    OkPass(w1, 4, rest);
    var w2 := w1.(script := Oks(4, rest), frames := w.frames + [StackStart(i, w.sessions, true)]);
    assert Bringup(w, true) == (w2, true);
    OkPass(w2, 3, rest);
    var w3 := w2.(script := Oks(3, rest));
    OkPass(w3, 2, rest);
    var w4 := w3.(script := Oks(2, rest), sessions := w3.sessions + 1);
    OkPass(w4, 1, rest);
    var w5 := w4.(script := Oks(1, rest), frames := w2.frames + [MmReset(i, w.sessions + 1)]);
    OkPass(w5, 0, rest);
    assert w5.frames == w.frames + [StackStart(i, w.sessions, true), MmReset(i, w.sessions + 1)];
  }

  function FlashScript(rest: seq<Turn>): seq<Turn> { Oks(5, [BOOTED] + Oks(6, rest)) }

  /** The turn in which a started firmware comes up. */
  lemma BootedPass(w: World, rest: seq<Turn>)
    requires w.script == [BOOTED] + rest && w.chip.place.Rom? && w.chip.pending
    ensures Now(w) == BOOTED && Pass(w) == w.(script := rest, chip := Chip(Running(w.chip.next), false, w.chip.next + 1))
  {
    assert w.script[0] == BOOTED && w.script[1..] == rest && [Boot][1..] == [];
    assert ReactAll(w.chip, [Boot]) == ReactAll(React(w.chip, Boot), []);
  }

  /** The upload, the boot, and the wait that sees it. */
  lemma UndisturbedLoad(w: World, rest: seq<Turn>)
    requires w.script == Oks(2, [BOOTED] + rest) && w.chip.place.Rom?
    ensures LoadFirmware(w) == (w.(script := rest, chip := Chip(Running(w.chip.next), false, w.chip.next + 1)), true)
  {
    var tail := [BOOTED] + rest;
    OkPass(w, 1, tail);
    var w1 := w.(script := Oks(1, tail));
    OkPass(w1, 0, tail);
    BootedPass(w1.(script := tail, chip := w.chip.(pending := true)), rest);
  }

  lemma UndisturbedBootstrap(w: World, rest: seq<Turn>)
    requires w.script == Oks(3, [BOOTED] + rest) && w.chip.place.Rom?
    ensures Bootstrap(w) == (w.(script := rest, chip := Chip(Running(w.chip.next), false, w.chip.next + 1)), true)
  {
    OkPass(w, 2, [BOOTED] + rest);
    UndisturbedLoad(w.(script := Oks(2, [BOOTED] + rest)), rest);
  }

  /** With the chip in a flashable stage and the firmware set at hand, a run flashes and connects. */
  lemma LinkFlashes(w: World, o: Options)
    requires Detected(Now(w), Pass(w).chip) == Some(StageRom) && Now(Pass(w)).ok
    ensures Link(w, o) == FlashAndConnect(Pass(Pass(w)))
  {
  }

  lemma {:induction false} UndisturbedFlashAndConnect(w: World, rest: seq<Turn>)
    requires w.script == Oks(3, [BOOTED] + Oks(6, rest)) && w.chip.place.Rom?
    ensures var i := w.chip.next;
            FlashAndConnect(w) == (World(Chip(Running(i), false, i + 1), w.frames + [StackStart(i, w.sessions, true), MmReset(i, w.sessions + 1)], w.sessions + 2, rest), true)
  {
    hide Bootstrap, StartAndConnect;
    UndisturbedBootstrap(w, Oks(6, rest));
    UndisturbedConnect(World(Chip(Running(w.chip.next), false, w.chip.next + 1), w.frames, w.sessions, Oks(6, rest)), rest);
  }

  lemma {:induction false} UndisturbedStart(w: World, o: Options, tail: seq<Turn>)
    requires w.script == Oks(5, tail) && w.chip.place.Rom?
    ensures Link(w, o) == FlashAndConnect(w.(script := Oks(3, tail)))
  {
    OkPass(w, 4, tail);
    OkPass(w.(script := Oks(4, tail)), 3, tail);
    LinkFlashes(w, o);
  }

  /** A run against a chip in its boot ROM, undisturbed: one new instance, started and reset once. */
  lemma {:induction false} UndisturbedFlash(w: World, o: Options, rest: seq<Turn>)
    requires w.script == FlashScript(rest) && w.chip.place.Rom?
    ensures var i := w.chip.next;
            Link(w, o) == (World(Chip(Running(i), false, i + 1), w.frames + [StackStart(i, w.sessions, true), MmReset(i, w.sessions + 1)], w.sessions + 2, rest), true)
  {
    hide Link, FlashAndConnect;
    UndisturbedStart(w, o, [BOOTED] + Oks(6, rest));
    UndisturbedFlashAndConnect(w.(script := Oks(3, [BOOTED] + Oks(6, rest))), rest);
  }

  lemma UndisturbedReuse(w: World, o: Options, rest: seq<Turn>)
    requires w.script == Oks(7, rest) && w.chip.place.Running? && Reuses(o)
    ensures var i := w.chip.place.inst;
            Link(w, o) == (World(w.chip, w.frames + [StackStart(i, w.sessions, true), MmReset(i, w.sessions + 1)], w.sessions + 2, rest), true)
  {
    OkPass(w, 6, rest);
    UndisturbedConnect(w.(script := Oks(6, rest)), rest);
  }

  lemma {:induction false} LinksConcat(w: World, a: seq<Options>, b: seq<Options>)
    ensures Links(w, a + b) == Links(Links(w, a), b)
    decreases |a|
  {
    if a == [] {
      assert a + b == b;
    } else {
      assert (a + b)[1..] == a[1..] + b;
      LinksConcat(Link(w, a[0]).0, a[1..], b);
    }
  }

  function Failures(n: nat, rest: seq<Turn>): seq<Turn> { if n == 0 then rest else [FAILED] + Failures(n - 1, rest) }

  /** Runs that never see the dongle do nothing. */
  lemma {:induction false} IdleLinks(w: World, runs: seq<Options>, rest: seq<Turn>)
    requires w.script == Failures(|runs|, rest)
    ensures Links(w, runs) == w.(script := rest)
    decreases |runs|
  {
    if runs != [] {
      assert w.script[1..] == Failures(|runs| - 1, rest);
      IdleLinks(w.(script := w.script[1..]), runs[1..], rest);
    }
  }

  /** Links only ever adds frames, so a broken rule stays broken. */
  lemma {:induction false} LinksExtend(w: World, runs: seq<Options>)
    ensures w.frames <= Links(w, runs).frames
    decreases |runs|
  {
    if runs != [] {
      LinkExtends(w, runs[0]);
      LinksExtend(Link(w, runs[0]).0, runs[1..]);
    }
  }

  lemma BringupExtends(w: World, stack: bool)
    ensures w.frames <= Bringup(w, stack).0.frames
  {
  }

  lemma ConnectExtends(w: World)
    ensures w.frames <= StartAndConnect(w).0.frames
  {
    BringupExtends(w, true);
    BringupExtends(Pass(Bringup(w, true).0), false);
  }

  lemma FlashExtends(w: World)
    ensures w.frames <= FlashAndConnect(w).0.frames
  {
    BootstrapSendsNothing(w);
    ConnectExtends(Bootstrap(w).0);
  }

  lemma LinkExtends(w: World, o: Options)
    ensures w.frames <= Link(w, o).0.frames
  {
    var v := Pass(w);
    ConnectExtends(v);
    FlashExtends(Pass(v));
    FlashableSendsNothing(v, false);
    FlashExtends(WaitForFlashable(v, false).0);
  }

  lemma {:induction false} WaitsSendNothing(w: World, want: Stage, timed: bool)
    ensures WaitForAnyAic(w).0.frames == w.frames && WaitForStage(w, want, timed).0.frames == w.frames
    decreases |w.script|
  {
    if w.script != [] { WaitsSendNothing(Pass(w), want, timed); }
  }

  lemma {:induction false} FlashableSendsNothing(w: World, sawGone: bool)
    ensures WaitForFlashable(w, sawGone).0.frames == w.frames
    decreases |w.script|
  {
    if w.script != [] {
      FlashableSendsNothing(Pass(w), true);
      FlashableSendsNothing(Pass(w), sawGone);
    }
  }

  lemma RoundSendsNothing(w: World)
    ensures BootstrapRound(w).0.frames == w.frames
  {
    var t, v := Now(w), Pass(w);
    if !t.cancelled && w.script != [] {
      WaitsSendNothing(v, StageRom, true);
      WaitsSendNothing(Pass(v), StageRom, true);
      WaitsSendNothing(LoadFirmware(v).0, StageZeroCD, false);
    }
  }

  lemma {:induction false} BootstrapSendsNothing(w: World)
    ensures Bootstrap(w).0.frames == w.frames
    decreases |w.script|
  {
    RoundSendsNothing(w);
    var (v, result) := BootstrapRound(w);
    if result == None { BootstrapSendsNothing(v); }
  }

  lemma LinksTwo(w: World, first: Options, second: Options)
    ensures Links(w, [first, second]) == Link(Link(w, first).0, second).0
  {
    assert [first, second][1..] == [second] && [second][1..] == [];
    var v := Link(w, first).0;
    assert Links(w, [first, second]) == Links(v, [second]) == Links(Link(v, second).0, []);
  }

  lemma TwiceIsTooOften(frames: seq<Frame>, j: nat, k: nat)
    requires j < k < |frames| && frames[j].MmReset? && frames[k].MmReset? && frames[j].inst == frames[k].inst
    ensures !OneResetEach(frames)
  {
  }

  /** Two undisturbed runs, the second reusing: the instance the first one booted is reset twice. */
  lemma ReuseResetsTwice(w: World, first: Options, second: Options)
    requires w.script == FlashScript(Oks(7, [])) && w.chip.place.Rom? && w.frames == [] && Reuses(second)
    ensures !OneResetEach(Links(w, [first, second]).frames)
  {
    UndisturbedFlash(w, first, Oks(7, []));
    var w2 := Link(w, first).0;
    assert |w2.frames| == 2 && w2.frames[1] == MmReset(w.chip.next, w.sessions + 1);
    UndisturbedReuse(w2, second, []);
    LinksTwo(w, first, second);
    TwiceIsTooOften(Link(w2, second).0.frames, 1, 3);
  }

  lemma PrefixKeepsRule(a: seq<Frame>, b: seq<Frame>)
    requires a <= b && OneResetEach(b)
    ensures OneResetEach(a)
  {
  }

  lemma PairBreaksTheRule(w: World, first: Options, second: Options, after: seq<Options>)
    requires w.script == FlashScript(Oks(7, [])) && w.chip.place.Rom? && w.frames == [] && Reuses(second)
    ensures !OneResetEach(Links(w, [first, second] + after).frames)
  {
    ReuseResetsTwice(w, first, second);
    LinksConcat(w, [first, second], after);
    var v := Links(w, [first, second]);
    LinksExtend(v, after);
    if OneResetEach(Links(v, after).frames) { PrefixKeepsRule(v.frames, Links(v, after).frames); }
  }

  lemma IdleThen(w: World, idle: seq<Options>, runs: seq<Options>, rest: seq<Turn>)
    requires w.script == Failures(|idle|, rest)
    ensures Links(w, idle + runs) == Links(w.(script := rest), runs)
  {
    LinksConcat(w, idle, runs);
    IdleLinks(w, idle, rest);
  }

  lemma IdleThenPair(idle: seq<Options>, first: Options, second: Options, after: seq<Options>)
    requires Reuses(second)
    ensures !AlwaysSafe(idle + ([first, second] + after))
  {
    var flash := FlashScript(Oks(7, []));
    var chip, script := Chip(Rom, false, 0), Failures(|idle|, flash);
    IdleThen(World(chip, [], 0, script), idle, [first, second] + after, flash);
    PairBreaksTheRule(World(chip, [], 0, flash), first, second, after);
    NotAlways(idle + ([first, second] + after), chip, script);
  }

  /** A run that reuses the instance the run before it reset breaks the rule. */
  lemma ReuseBreaksTheRule(runs: seq<Options>, j: nat)
    requires 1 <= j < |runs| && Reuses(runs[j])
    ensures !AlwaysSafe(runs)
  {
    assert runs == runs[..j - 1] + ([runs[j - 1], runs[j]] + runs[j + 1..]);
    IdleThenPair(runs[..j - 1], runs[j - 1], runs[j], runs[j + 1..]);
  }

  lemma NotAlways(runs: seq<Options>, chip: Chip, script: seq<Turn>)
    requires Consistent(chip) && !OneResetEach(Links(World(chip, [], 0, script), runs).frames)
    ensures !AlwaysSafe(runs)
  {
    assert !Safe(Links(World(chip, [], 0, script), runs).frames);
  }

  /** The rule holds for every chip and every course of events exactly when only the first run reuses an instance. */
  lemma SafeIffOnlyFirstReuses(runs: seq<Options>)
    ensures AlwaysSafe(runs) <==> forall j :: 1 <= j < |runs| ==> !Reuses(runs[j])
  {
    if j :| 1 <= j < |runs| && Reuses(runs[j]) {
      ReuseBreaksTheRule(runs, j);
    } else {
      forall chip: Chip, script: seq<Turn> | Consistent(chip)
        ensures Safe(Links(World(chip, [], 0, script), runs).frames)
      {
        var w := World(chip, [], 0, script);
        if runs != [] {
          LinkKeeps(w, runs[0]);
          LinksKeep(Link(w, runs[0]).0, runs[1..]);
        }
      }
    }
  }

  // The program as it runs

  class Host {
    var chip: Chip
    var frames: seq<Frame>
    var sessions: nat
    var script: seq<Turn>

    function State(): World
      reads this
    {
      World(chip, frames, sessions, script)
    }

    constructor (chip: Chip, script: seq<Turn>)
      ensures State() == World(chip, [], 0, script)
    {
      this.chip, frames, sessions, this.script := chip, [], 0, script;
    }

    /** The surroundings take their turn. */
    method Wait() returns (t: Turn)
      modifies this
      ensures t == Now(old(State())) && State() == Pass(old(State()))
    {
      t := Turn([], false, true, true);
      if script != [] {
        t := script[0];
        chip, script := ReactAll(chip, t.events), script[1..];
      }
    }

    method DetectStage() returns (t: Turn, stage: Option<Stage>)
      modifies this
      ensures t == Now(old(State())) && State() == Pass(old(State())) && stage == Detected(t, chip)
    {
      t := Wait();
      stage := Detected(t, chip);
    }

    method AwaitStage(want: Stage, timed: bool) returns (seen: bool)
      modifies this
      ensures (State(), seen) == WaitForStage(old(State()), want, timed)
    {
      while true
        invariant WaitForStage(State(), want, timed) == WaitForStage(old(State()), want, timed)
        decreases |script|
      {
        var t, stage := DetectStage();
        if t.cancelled { return false; }
        if stage == Some(want) { return true; }
        if timed && t.expired { return false; }
      }
    }

    method AwaitAnyAic() returns (seen: bool)
      modifies this
      ensures (State(), seen) == WaitForAnyAic(old(State()))
    {
      while true
        invariant WaitForAnyAic(State()) == WaitForAnyAic(old(State()))
        decreases |script|
      {
        var t, stage := DetectStage();
        if t.cancelled { return false; }
        if stage.Some? { return true; }
      }
    }

    method Upload() returns (up: bool)
      modifies this
      ensures (State(), up) == UploadFirmware(old(State()))
    {
      var t := Wait();
      if !t.ok || !chip.place.Rom? { return false; }
      chip := chip.(pending := true);
      t := Wait();
      up := t.ok && chip.place.Running?;
    }

    method LoaderRun() returns (up: bool)
      modifies this
      ensures (State(), up) == LoadFirmware(old(State()))
    {
      var t, stage := DetectStage();
      if stage == None { return false; }
      if stage.value == StageOperational { return true; }
      if stage.value == StageZeroCD {
        t := Wait();
        if !t.ok { return false; }
      }
      up := Upload();
    }

    /** The body of the bootstrap loop. */
    method RunBootstrapRound() returns (result: Option<bool>)
      modifies this
      ensures (State(), result) == BootstrapRound(old(State()))
    {
      var t, stage := DetectStage();
      if t.cancelled { return Some(false); }
      if stage == None {
        var seen := AwaitAnyAic();
        return if seen then None else Some(false);
      }
      match stage.value {
        case StageOperational => return Some(true);
        case StageZeroCD =>
          t := Wait();
          if !t.ok { return Some(false); }
          var inRom := AwaitStage(StageRom, true);
          return if inRom then None else Some(false);
        case StageRom =>
          var up := LoaderRun();
          if up { return Some(true); }
          var replugged := AwaitStage(StageZeroCD, false);
          return if replugged then None else Some(false);
      }
    }

    method RunBootstrap() returns (up: bool)
      modifies this
      ensures (State(), up) == Bootstrap(old(State()))
    {
      while true
        invariant Bootstrap(State()) == Bootstrap(old(State()))
        decreases |script|
      {
        var result := RunBootstrapRound();
        if result.Some? { return result.value; }
      }
    }

    method AwaitFlashable() returns (replugged: bool)
      modifies this
      ensures (State(), replugged) == WaitForFlashable(old(State()), false)
    {
      var sawGone := false;
      while true
        invariant WaitForFlashable(State(), sawGone) == WaitForFlashable(old(State()), false)
        decreases |script|
      {
        var t, stage := DetectStage();
        if t.expired || t.cancelled { return false; }
        if stage == None {
          sawGone := true;
          continue;
        }
        if sawGone && (stage.value == StageZeroCD || stage.value == StageRom) { return true; }
      }
    }

    method RunBringup(stack: bool) returns (ok: bool)
      modifies this
      ensures (State(), ok) == Bringup(old(State()), stack)
    {
      var t := Wait();
      if !t.ok || !chip.place.Running? { return false; }
      var inst, session := chip.place.inst, sessions;
      sessions := sessions + 1;
      t := Wait();
      if stack {
        if chip.place != Running(inst) { return false; }
        frames := frames + [StackStart(inst, session, t.ok)];
        return t.ok;
      }
      if chip.place == Running(inst) { frames := frames + [MmReset(inst, session)]; }
      t := Wait();
      ok := t.ok;
    }

    method RunLink(o: Options) returns (ok: bool)
      modifies this
      ensures (State(), ok) == Link(old(State()), o)
    {
      var t, stage := DetectStage();
      if stage == None { return false; }
      if stage.value == StageOperational {
        if !o.skipFlash && !o.force {
          if !o.waitReplug { return false; }
          var replugged := AwaitFlashable();
          if !replugged { return false; }
        }
        if !(o.skipFlash || o.force) {
          var up := RunBootstrap();
          if !up { return false; }
        }
      } else {
        t := Wait();
        if !t.ok { return false; }
        var up := RunBootstrap();
        if !up { return false; }
      }
      var started := RunBringup(true);
      if !started { return false; }
      t := Wait();
      if t.cancelled { return false; }
      ok := RunBringup(false);
    }
  }
}
