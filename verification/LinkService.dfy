/** linkservice.go: the daemon's link service. */
module LinkServices {
  // One mutex guards the status, the cancel function, the done channel and the history; a bring-up runs in a goroutine
  // of its own, and any number of callers start, stop and watch it.

  import opened Common

  datatype State =
    | Idle | NoDongle | NeedsReplug | Flashing | Associating | Handshaking | Configuring | Up | Down | Failed

  datatype Status = Status(state: State, detail: string, ssid: string, attempts: nat)

  datatype Transition = Transition(from: State, to: State, detail: string)

  const MAX_LINK_HISTORY := 64

  /** The fields the mutex guards. `cancel` and `done` name the bring-up they belong to. */
  datatype Service = Service(status: Status, cancel: Option<nat>, done: Option<nat>, history: seq<Transition>)

  const INITIAL := Service(Status(Idle, "no link attempted", "", 0), None, None, [])

  // The critical sections as functions

  function SetLocked(s: Service, state: State, detail: string): Service {
    s.(history := LastN(s.history + [Transition(s.status.state, state, detail)], MAX_LINK_HISTORY),
       status := s.status.(state := state, detail := detail))
  }

  function Started(s: Service, run: nat, ssid: string): Service {
    Service(Status(Flashing, "starting bring-up", ssid, s.status.attempts + 1), Some(run), Some(run), s.history)
  }

  /** The completion handler: a stopped run leaves the state to Stop, the others end in Failed or Down. */
  function Completed(s: Service, cancelled: bool, rc: int): Service {
    var freed := s.(cancel := None);
    if cancelled then freed
    else if rc != 0 then
      var detail :=
        if s.status.state == NeedsReplug then "gave up waiting for the power cycle; start the link again"
        else if s.status.detail == "" then "bring-up failed; see the daemon log"
        else s.status.detail;
      freed.(status := s.status.(state := Failed, detail := detail))
    else freed.(status := s.status.(state := Down, detail := "the link ended — the dongle was unplugged, or the bridge exited"))
  }

  class LinkService {
    var status: Status
    var cancel: Option<nat>
    var done: Option<nat>
    var history: seq<Transition>

    function View(): Service
      reads this
    {
      Service(status, cancel, done, history)
    }

    constructor ()
      ensures View() == INITIAL
    {
      status, cancel, done, history := Status(Idle, "no link attempted", "", 0), None, None, [];
    }

    /** The state and a copy of the history. */
    method GetStatus() returns (s: Status, h: seq<Transition>)
      ensures s == status && h == history
    {
      s, h := status, history;
    }

    method Set(state: State, detail: string)
      modifies this
      ensures View() == SetLocked(old(View()), state, detail)
    {
      history := history + [Transition(status.state, state, detail)];
      if |history| > MAX_LINK_HISTORY { history := history[|history| - MAX_LINK_HISTORY..]; }
      status := status.(state := state, detail := detail);
    }

    /** Start up to the unlock; `run` names the new bring-up. */
    method Start(run: nat, ssid: string) returns (ok: bool, s: Status)
      modifies this
      ensures ok <==> old(cancel) == None
      ensures View() == if ok then Started(old(View()), run, ssid) else old(View())
      ensures s == status
    {
      if cancel != None { return false, status; }
      cancel, done := Some(run), Some(run);
      status := Status(Flashing, "starting bring-up", ssid, status.attempts + 1);
      return true, status;
    }

    method Complete(cancelled: bool, rc: int)
      modifies this
      ensures View() == Completed(old(View()), cancelled, rc)
    {
      cancel := None;
      if cancelled {
      } else if rc != 0 {
        if status.state == NeedsReplug {
          status := status.(detail := "gave up waiting for the power cycle; start the link again");
        } else if status.detail == "" {
          status := status.(detail := "bring-up failed; see the daemon log");
        }
        status := status.(state := Failed);
      } else {
        status := status.(state := Down, detail := "the link ended — the dongle was unplugged, or the bridge exited");
      }
    }

    /** What Stop reads under the lock. */
    method StopTarget() returns (c: Option<nat>, d: Option<nat>)
      ensures c == cancel && d == done
    {
      c, d := cancel, done;
    }
  }

  // All interleavings

  /** Where a bring-up goroutine is; `Launching` until Start has installed the progress hook. */
  datatype Phase = Launching | Running | Returned(rc: int) | Released | Cleared | Finished

  datatype Run = Run(phase: Phase, cancelled: bool)

  /**
   A Stop call on a run: it has read the target, has cancelled it, is about to report idle, or is over.
   `late`: it gave up waiting. `at`: where in the log its report stands.
   */
  datatype Stop = Captured(run: nat) | Waiting(run: nat) | Reporting(run: nat, late: bool) | Over(run: nat, late: bool, at: nat)

  /** What happened to the status, in order: through setLocked, by a run or by anyone else, or written beside it. */
  datatype Entry = Recorded(t: Transition, writer: Option<nat>) | Beside(state: State)

  /** `early` remembers that some Start came before the run before it had cleared the progress hook. */
  datatype World = World(service: Service, runs: seq<Run>, stops: seq<Stop>, progress: bool, log: seq<Entry>, early: bool)

  const INIT := World(INITIAL, [], [], false, [], false)

  datatype Event =
    | CallStart(ssid: string)
    | Launch(run: nat)
    | Report(run: nat, state: State, detail: string)   // by the run itself
    | Stray(detail: string)                            // "link dropped", by the event loop, at any time
    | Return(run: nat, rc: int)
    | Release(run: nat)
    | Clear(run: nat)
    | Close(run: nat)
    | CallStop
    | Cancel(stop: nat)
    | Wake(stop: nat)
    | TimeOut(stop: nat)
    | SayIdle(stop: nat)

  predicate In(w: World, run: nat, phase: Phase) { run < |w.runs| && w.runs[run].phase == phase }

  function At(w: World, run: nat, phase: Phase): World
    requires run < |w.runs|
  {
    w.(runs := w.runs[run := w.runs[run].(phase := phase)])
  }

  /** setLocked, with the entry it makes. */
  function Write(w: World, writer: Option<nat>, state: State, detail: string): World {
    w.(service := SetLocked(w.service, state, detail),
       log := w.log + [Recorded(Transition(w.service.status.state, state, detail), writer)])
  }

  function Step(w: World, e: Event): World {
    match e
    case CallStart(ssid) =>
      if w.service.cancel != None then w
      else
        var s := Started(w.service, |w.runs|, ssid);
        w.(service := s, runs := w.runs + [Run(Launching, false)], log := w.log + [Beside(Flashing)],
           early := w.early || exists r :: 0 <= r < |w.runs| && w.runs[r].phase == Released)
    case Launch(r) => if In(w, r, Launching) then At(w, r, Running).(progress := true) else w
    case Report(r, state, detail) => if In(w, r, Running) then Write(w, Some(r), state, detail) else w
    case Stray(detail) => if w.progress then Write(w, None, Down, detail) else w
    case Return(r, rc) =>
      if !In(w, r, Running) then w
      else if rc == 0 then At(Write(w, Some(r), Up, "link is up"), r, Returned(0))
      else At(w, r, Returned(rc))
    case Release(r) =>
      if r < |w.runs| && w.runs[r].phase.Returned? then
        var s := Completed(w.service, w.runs[r].cancelled, w.runs[r].phase.rc);
        At(w, r, Released).(service := s, log := if w.runs[r].cancelled then w.log else w.log + [Beside(s.status.state)])
      else w
    case Clear(r) => if In(w, r, Released) then At(w, r, Cleared).(progress := false) else w
    case Close(r) => if In(w, r, Cleared) then At(w, r, Finished) else w
    case CallStop => if w.service.cancel == None then w else w.(stops := w.stops + [Captured(w.service.cancel.value)])
    case Cancel(k) =>
      if k < |w.stops| && w.stops[k].Captured? && w.stops[k].run < |w.runs| then
        var r := w.stops[k].run;
        w.(runs := w.runs[r := w.runs[r].(cancelled := true)], stops := w.stops[k := Waiting(r)])
      else w
    case Wake(k) =>
      if k < |w.stops| && w.stops[k].Waiting? && In(w, w.stops[k].run, Finished) then
        w.(stops := w.stops[k := Reporting(w.stops[k].run, false)])
      else w
    case TimeOut(k) =>
      if k < |w.stops| && w.stops[k].Waiting? then w.(stops := w.stops[k := Reporting(w.stops[k].run, true)]) else w
    case SayIdle(k) =>
      if k < |w.stops| && w.stops[k].Reporting? then
        Write(w, None, Idle, "stopped").(stops := w.stops[k := Over(w.stops[k].run, w.stops[k].late, |w.log|)])
      else w
  }

  function Play(w: World, events: seq<Event>): World
    decreases |events|
  {
    if events == [] then w else Play(Step(w, events[0]), events[1..])
  }

  // Mutual exclusion

  predicate Active(r: Run) { r.phase.Launching? || r.phase.Running? || r.phase.Returned? }

  /** `cancel` names the one bring-up that has not been released; there is never a second one. */
  predicate Exclusive(w: World) {
    && (forall r :: 0 <= r < |w.runs| && Active(w.runs[r]) ==> w.service.cancel == Some(r))
    && (w.service.cancel.Some? ==> w.service.cancel.value < |w.runs| && Active(w.runs[w.service.cancel.value]))
    && w.service.status.attempts == |w.runs|
  }

  lemma {:induction false} StepExclusive(w: World, e: Event)
    requires Exclusive(w)
    ensures Exclusive(Step(w, e))
  {
  }

  lemma {:induction false} RunExclusive(w: World, events: seq<Event>)
    requires Exclusive(w)
    ensures Exclusive(Play(w, events))
    decreases |events|
  {
    if events != [] {
      StepExclusive(w, events[0]);
      RunExclusive(Step(w, events[0]), events[1..]);
    }
  }

  /** In every interleaving `cancel` is set exactly while one bring-up is under way, and never two are. */
  lemma BringUpsNeverOverlap(events: seq<Event>)
    ensures var w := Play(INIT, events);
            && (w.service.cancel.Some? <==> exists r :: 0 <= r < |w.runs| && Active(w.runs[r]))
            && (forall r, q :: 0 <= r < |w.runs| && 0 <= q < |w.runs| && Active(w.runs[r]) && Active(w.runs[q]) ==> r == q)
            && w.service.status.attempts == |w.runs|
  {
    RunExclusive(INIT, events);
  }

  // The history

  /** The transitions recorded so far, oldest first. */
  function RecordedOf(log: seq<Entry>): seq<Transition>
    decreases |log|
  {
    if log == [] then []
    else
      var before, last := RecordedOf(log[..|log| - 1]), log[|log| - 1];
      if last.Recorded? then before + [last.t] else before
  }

  /** The state the log leads to. */
  function StateOf(log: seq<Entry>): State {
    if log == [] then Idle
    else match log[|log| - 1]
      case Recorded(t, _) => t.to
      case Beside(s) => s
  }

  predicate Chained(log: seq<Entry>) {
    forall k :: 0 <= k < |log| && log[k].Recorded? ==> log[k].t.from == StateOf(log[..k])
  }

  predicate HistoryKept(w: World) {
    w.service.history == LastN(RecordedOf(w.log), MAX_LINK_HISTORY) && w.service.status.state == StateOf(w.log) && Chained(w.log)
  }

  lemma LastNOfLonger(s: seq<Transition>, t: Transition, n: nat)
    requires n > 0
    ensures LastN(LastN(s, n) + [t], n) == LastN(s + [t], n)
  {
  }

  lemma LogGrows(w: World, entry: Entry)
    requires HistoryKept(w) && (entry.Recorded? ==> entry.t.from == w.service.status.state)
    ensures Chained(w.log + [entry])
    ensures RecordedOf(w.log + [entry]) == if entry.Recorded? then RecordedOf(w.log) + [entry.t] else RecordedOf(w.log)
    ensures entry.Recorded? ==> LastN(w.service.history + [entry.t], MAX_LINK_HISTORY) == LastN(RecordedOf(w.log + [entry]), MAX_LINK_HISTORY)
  {
    var log := w.log + [entry];
    assert log[..|w.log|] == w.log;
    forall k | 0 <= k < |log| && log[k].Recorded? ensures log[k].t.from == StateOf(log[..k]) {
      if k < |w.log| { assert log[..k] == w.log[..k]; }
    }
    if entry.Recorded? { LastNOfLonger(RecordedOf(w.log), entry.t, MAX_LINK_HISTORY); }
  }

  lemma WriteKeepsHistory(w: World, writer: Option<nat>, state: State, detail: string)
    requires HistoryKept(w)
    ensures HistoryKept(Write(w, writer, state, detail))
  {
    LogGrows(w, Recorded(Transition(w.service.status.state, state, detail), writer));
  }

  /** A write beside setLocked leaves the history alone and is noted. */
  lemma BesideKeepsHistory(w: World, v: World, state: State)
    requires HistoryKept(w)
    requires v.log == w.log + [Beside(state)] && v.service.history == w.service.history && v.service.status.state == state
    ensures HistoryKept(v)
  {
    LogGrows(w, Beside(state));
  }

  lemma SameHistory(w: World, v: World)
    requires HistoryKept(w)
    requires v.log == w.log && v.service.history == w.service.history && v.service.status.state == w.service.status.state
    ensures HistoryKept(v)
  {
  }

  predicate Writes(w: World, e: Event) {
    match e
    case Report(r, _, _) => In(w, r, Running)
    case Stray(_) => w.progress
    case Return(r, rc) => In(w, r, Running) && rc == 0
    case SayIdle(k) => k < |w.stops| && w.stops[k].Reporting?
    case _ => false
  }

  function Written(w: World, e: Event): World
    requires Writes(w, e)
  {
    match e
    case Report(r, state, detail) => Write(w, Some(r), state, detail)
    case Stray(detail) => Write(w, None, Down, detail)
    case Return(r, _) => Write(w, Some(r), Up, "link is up")
    case SayIdle(_) => Write(w, None, Idle, "stopped")
  }

  lemma StepHistory(w: World, e: Event)
    requires HistoryKept(w)
    ensures HistoryKept(Step(w, e))
  {
    var v := Step(w, e);
    if Writes(w, e) {
      var u := Written(w, e);
      assert HistoryKept(u) by {
        match e
        case Report(r, state, detail) => WriteKeepsHistory(w, Some(r), state, detail);
        case Stray(detail) => WriteKeepsHistory(w, None, Down, detail);
        case Return(r, _) => WriteKeepsHistory(w, Some(r), Up, "link is up");
        case SayIdle(_) => WriteKeepsHistory(w, None, Idle, "stopped");
      }
      SameHistory(u, v);
    } else if v.log == w.log {
      SameHistory(w, v);
    } else {
      BesideKeepsHistory(w, v, v.service.status.state);
    }
  }

  lemma {:induction false} RunHistory(w: World, events: seq<Event>)
    requires HistoryKept(w)
    ensures HistoryKept(Play(w, events))
    decreases |events|
  {
    if events != [] {
      StepHistory(w, events[0]);
      RunHistory(Step(w, events[0]), events[1..]);
    }
  }

  /**
   In every interleaving the history is the last 64 of all recorded transitions, and each one starts
   where the write before it, recorded or not, had left the state.
   */
  lemma HistoryIsTheRecord(events: seq<Event>)
    ensures HistoryKept(Play(INIT, events))
  {
    RunHistory(INIT, events);
  }

  // The settled state

  predicate Settled(w: World) {
    (forall r :: 0 <= r < |w.runs| ==> !Active(w.runs[r])) && forall k :: 0 <= k < |w.stops| ==> w.stops[k].Over?
  }

  predicate Woken(s: Stop) { (s.Reporting? || s.Over?) && !s.late }

  predicate TimedOut(s: Stop) { (s.Reporting? || s.Over?) && s.late }

  predicate CancelledBy(s: Stop, r: nat) { !s.Captured? && s.run == r }

  predicate Wrote(entry: Entry, r: nat) { entry.Recorded? && entry.writer == Some(r) }

  predicate SaidIdle(entry: Entry) { entry.Recorded? && entry.writer == None && entry.t.to == Idle }

  /** Every cancelled run was cancelled by some Stop. */
  predicate CancelsHaveStops(w: World) {
    && (forall k :: 0 <= k < |w.stops| ==> w.stops[k].run < |w.runs|)
    && forall r :: 0 <= r < |w.runs| && w.runs[r].cancelled ==> exists k :: 0 <= k < |w.stops| && CancelledBy(w.stops[k], r)
  }

  /** A Stop that did not time out has seen the end of its run. */
  predicate WokenAfterEnd(w: World) {
    forall k :: 0 <= k < |w.stops| && Woken(w.stops[k]) ==> In(w, w.stops[k].run, Finished)
  }

  predicate SilentSince(log: seq<Entry>, s: Stop)
    requires s.Over?
  {
    s.at < |log| && SaidIdle(log[s.at]) && (s.late || forall i :: s.at < i < |log| ==> !Wrote(log[i], s.run))
  }

  /** A Stop that is over has said idle, and unless it timed out its run has written nothing since. */
  predicate IdleIsTheLastWord(w: World) {
    forall k :: 0 <= k < |w.stops| && w.stops[k].Over? ==> SilentSince(w.log, w.stops[k])
  }

  /** "Up" stands as the word of a run that is under way, or of one that was cancelled. */
  predicate UpIsSomeRuns(w: World) {
    w.service.status.state == Up ==>
      && w.log != [] && var last := w.log[|w.log| - 1];
      && last.Recorded? && last.t.to == Up && last.writer.Some? && last.writer.value < |w.runs|
      && (Active(w.runs[last.writer.value]) || w.runs[last.writer.value].cancelled)
  }

  predicate Spoken(w: World) { CancelsHaveStops(w) && WokenAfterEnd(w) && IdleIsTheLastWord(w) && UpIsSomeRuns(w) }

  lemma {:induction false} CancelKeeps(w: World, stop: nat)
    requires CancelsHaveStops(w)
    ensures CancelsHaveStops(Step(w, Cancel(stop)))
  {
    var v := Step(w, Cancel(stop));
    forall r | 0 <= r < |v.runs| && v.runs[r].cancelled ensures exists k :: 0 <= k < |v.stops| && CancelledBy(v.stops[k], r) {
      if v != w && r == w.stops[stop].run {
        assert CancelledBy(v.stops[stop], r);
      } else {
        var k :| 0 <= k < |w.stops| && CancelledBy(w.stops[k], r);
        assert CancelledBy(v.stops[k], r);
      }
    }
  }

  /** No other step cancels a run, and none makes a Stop forget that it has. */
  lemma {:induction false} OthersCancelNothing(w: World, e: Event)
    requires CancelsHaveStops(w) && !e.Cancel?
    ensures var v := Step(w, e);
            && |v.stops| >= |w.stops| && (forall k :: 0 <= k < |w.stops| ==> v.stops[k].run == w.stops[k].run)
            && (forall k :: 0 <= k < |w.stops| && v.stops[k].Captured? ==> w.stops[k].Captured?)
            && |v.runs| >= |w.runs|
            && forall r :: 0 <= r < |v.runs| && v.runs[r].cancelled ==> r < |w.runs| && w.runs[r].cancelled
  {
  }

  lemma {:induction false} StepCancels(w: World, e: Event)
    requires Exclusive(w) && CancelsHaveStops(w)
    ensures CancelsHaveStops(Step(w, e))
  {
    if e.Cancel? {
      CancelKeeps(w, e.stop);
    } else {
      var v := Step(w, e);
      OthersCancelNothing(w, e);
      forall r | 0 <= r < |v.runs| && v.runs[r].cancelled ensures exists k :: 0 <= k < |v.stops| && CancelledBy(v.stops[k], r) {
        var k :| 0 <= k < |w.stops| && CancelledBy(w.stops[k], r);
        assert CancelledBy(v.stops[k], r);
      }
    }
  }

  lemma {:induction false} FinishedStays(w: World, e: Event, r: nat)
    requires In(w, r, Finished)
    ensures In(Step(w, e), r, Finished)
  {
  }

  /** Only the end of its run wakes a Stop. */
  lemma {:induction false} WokenBefore(w: World, e: Event, k: nat)
    requires k < |Step(w, e).stops| && Woken(Step(w, e).stops[k])
    ensures k < |w.stops| && w.stops[k].run == Step(w, e).stops[k].run
    ensures Woken(w.stops[k]) || In(w, w.stops[k].run, Finished)
  {
  }

  lemma {:induction false} StepWoken(w: World, e: Event)
    requires CancelsHaveStops(w) && WokenAfterEnd(w)
    ensures WokenAfterEnd(Step(w, e))
  {
    var v := Step(w, e);
    forall k | 0 <= k < |v.stops| && Woken(v.stops[k]) ensures In(v, v.stops[k].run, Finished) {
      WokenBefore(w, e, k);
      FinishedStays(w, e, w.stops[k].run);
    }
  }

  /** A step adds at most one entry, and only a running bring-up writes in its own name. */
  lemma {:induction false} LogStep(w: World, e: Event)
    ensures var log := Step(w, e).log;
            log == w.log || (|log| == |w.log| + 1 && w.log <= log && forall r :: Wrote(log[|w.log|], r) ==> In(w, r, Running))
  {
  }

  /** A Stop that is over was so before, or has just said idle. */
  lemma {:induction false} OverBefore(w: World, e: Event, k: nat)
    requires k < |Step(w, e).stops| && Step(w, e).stops[k].Over?
    ensures var v := Step(w, e);
            || (k < |w.stops| && w.stops[k] == v.stops[k])
            || (v.stops[k].at == |w.log| && |v.log| == |w.log| + 1 && SaidIdle(v.log[|w.log|]))
  {
  }

  lemma {:induction false} StepIdle(w: World, e: Event)
    requires CancelsHaveStops(w) && WokenAfterEnd(w) && IdleIsTheLastWord(w)
    ensures IdleIsTheLastWord(Step(w, e))
  {
    hide Step;
    var v := Step(w, e);
    LogStep(w, e);
    forall k | 0 <= k < |v.stops| && v.stops[k].Over? ensures SilentSince(v.log, v.stops[k]) {
      OverBefore(w, e, k);
      if k < |w.stops| && w.stops[k] == v.stops[k] { assert Woken(w.stops[k]) || w.stops[k].late; }
    }
  }

  lemma {:induction false} StepUp(w: World, e: Event)
    requires Exclusive(w) && UpIsSomeRuns(w)
    ensures UpIsSomeRuns(Step(w, e))
  {
  }

  lemma {:induction false} RunSpoken(w: World, events: seq<Event>)
    requires Exclusive(w) && Spoken(w)
    ensures Spoken(Play(w, events))
    decreases |events|
  {
    if events != [] {
      var e := events[0];
      StepCancels(w, e);
      StepWoken(w, e);
      StepIdle(w, e);
      StepUp(w, e);
      StepExclusive(w, e);
      RunSpoken(Step(w, e), events[1..]);
    }
  }

  /** Stop `k` timed out and said idle, and after that its run wrote "up", which is the last word. */
  predicate LateUp(w: World, k: nat) {
    && k < |w.stops| && w.stops[k].Over? && w.stops[k].late
    && w.stops[k].at < |w.log| - 1 && SaidIdle(w.log[w.stops[k].at])
    && var last := w.log[|w.log| - 1];
    Wrote(last, w.stops[k].run) && last.t.to == Up
  }

  lemma {:induction false} SettledUpHasLateStop(w: World)
    requires Spoken(w) && Settled(w) && w.service.status.state == Up
    ensures exists k :: 0 <= k < |w.stops| && LateUp(w, k)
  {
    var last := w.log[|w.log| - 1];
    var k :| 0 <= k < |w.stops| && CancelledBy(w.stops[k], last.writer.value);
    assert LateUp(w, k);
  }

  lemma {:induction false} LateStopMeansUp(w: World, k: nat)
    requires LateUp(w, k) && w.service.status.state == StateOf(w.log)
    ensures w.service.status.state == Up
  {
  }

  /**
   A service with no run and no Stop under way claims to be up exactly if a Stop timed out and said idle, and
   the run it had cancelled then wrote "up" as the last word.
   */
  lemma {:induction false} SettledUpIff(events: seq<Event>)
    requires Settled(Play(INIT, events))
    ensures var w := Play(INIT, events);
            w.service.status.state == Up <==> exists k :: 0 <= k < |w.stops| && LateUp(w, k)
  {
    var w := Play(INIT, events);
    RunExclusive(INIT, events);
    RunSpoken(INIT, events);
    RunHistory(INIT, events);
    if w.service.status.state == Up { SettledUpHasLateStop(w); }
    if k :| 0 <= k < |w.stops| && LateUp(w, k) { LateStopMeansUp(w, k); }
  }

  /** As long as no Stop has timed out, a service with no run and no Stop under way does not claim to be up. */
  lemma {:induction false} SettledIsNotUp(events: seq<Event>)
    ensures var w := Play(INIT, events);
            Settled(w) && (forall k :: 0 <= k < |w.stops| ==> !TimedOut(w.stops[k])) ==> w.service.status.state != Up
  {
    if Settled(Play(INIT, events)) { SettledUpIff(events); }
  }

  lemma {:induction false} PlayConcat(w: World, a: seq<Event>, b: seq<Event>)
    ensures Play(w, a + b) == Play(Play(w, a), b)
    decreases |a|
  {
    if a == [] {
      assert a + b == b;
    } else {
      assert (a + b)[1..] == a[1..] + b;
      PlayConcat(Step(w, a[0]), a[1..], b);
    }
  }

  lemma PlayTwo(w: World, a: Event, b: Event)
    ensures Play(w, [a, b]) == Step(Step(w, a), b)
  {
    assert [a, b][1..] == [b] && [b][1..] == [];
    var one := Step(w, a);
    assert Play(w, [a, b]) == Play(one, [b]) == Play(Step(one, b), []);
  }

  /** A run that is up and running, and a Stop that has cancelled it. */
  lemma StartThenStop() returns (events: seq<Event>)
    ensures var w := Play(INIT, events);
            w.runs == [Run(Running, true)] && w.stops == [Waiting(0)] && w.service.cancel == Some(0) && w.progress
  {
    PlayTwo(INIT, CallStart("home"), Launch(0));
    var w := Play(INIT, [CallStart("home"), Launch(0)]);
    assert w.runs == [Run(Running, false)] && w.stops == [] && w.service.cancel == Some(0);
    PlayTwo(w, CallStop, Cancel(0));
    PlayConcat(INIT, [CallStart("home"), Launch(0)], [CallStop, Cancel(0)]);
    events := [CallStart("home"), Launch(0)] + [CallStop, Cancel(0)];
  }

  /** The Stop gives up and says idle. */
  lemma TimeOutThenIdle(w: World)
    requires w.runs == [Run(Running, true)] && w.stops == [Waiting(0)]
    ensures var v := Play(w, [TimeOut(0), SayIdle(0)]); v.runs == w.runs && v.stops == [Over(0, true, |w.log|)]
  {
    PlayTwo(w, TimeOut(0), SayIdle(0));
  }

  lemma ReturnsUp(w: World)
    requires w.runs == [Run(Running, true)]
    ensures var v := Step(w, Return(0, 0));
            v.runs == [Run(Returned(0), true)] && v.stops == w.stops && v.service.status.state == Up
  {
  }

  lemma ReleasedUp(w: World)
    requires w.runs == [Run(Returned(0), true)] && |w.stops| == 1 && w.stops[0].Over? && w.service.status.state == Up
    ensures var v := Step(w, Release(0)); Settled(v) && v.service.status.state == Up
  {
  }

  /** Then the run returns. */
  lemma ReturnThenRelease(w: World)
    requires w.runs == [Run(Running, true)] && |w.stops| == 1 && w.stops[0].Over?
    ensures var v := Play(w, [Return(0, 0), Release(0)]);
            Settled(v) && v.service.status.state == Up
  {
    PlayTwo(w, Return(0, 0), Release(0));
    ReturnsUp(w);
    ReleasedUp(Step(w, Return(0, 0)));
  }

  /** With a timeout it may: the run reports up after Stop has reported idle, and the handler leaves that standing. */
  lemma TimedOutStopCanSettleUp() returns (events: seq<Event>)
    ensures var w := Play(INIT, events); Settled(w) && w.service.status.state == Up
  {
    var first := StartThenStop();
    var second := [TimeOut(0), SayIdle(0)];
    var third := [Return(0, 0), Release(0)];
    TimeOutThenIdle(Play(INIT, first));
    ReturnThenRelease(Play(Play(INIT, first), second));
    PlayConcat(INIT, first, second);
    PlayConcat(INIT, first + second, third);
    events := first + second + third;
  }

  // The progress hook

  /** As long as no Start comes early, a run that reports has its hook in place. */
  predicate Hooked(w: World) {
    !w.early ==>
      && (forall r :: 0 <= r < |w.runs| && w.runs[r].phase == Running ==> w.progress)
      && forall r, q :: 0 <= r < |w.runs| && 0 <= q < |w.runs| && w.runs[r].phase == Released ==> !Active(w.runs[q])
  }

  lemma {:induction false} RunHooked(w: World, events: seq<Event>)
    requires Exclusive(w) && Hooked(w)
    ensures Hooked(Play(w, events))
    decreases |events|
  {
    if events != [] {
      StepExclusive(w, events[0]);
      StepHooked(w, events[0]);
      RunHooked(Step(w, events[0]), events[1..]);
    }
  }

  lemma {:induction false} StepHooked(w: World, e: Event)
    requires Exclusive(w) && Hooked(w)
    ensures Hooked(Step(w, e))
  {
    if e.Release? && e.run < |w.runs| && w.runs[e.run].phase.Returned? {
      assert w.service.cancel == Some(e.run);
    }
  }

  /** The hook of a running bring-up is missing only if a Start came before the run before it had cleared its own. */
  lemma ProgressIsReported(events: seq<Event>)
    ensures var w := Play(INIT, events);
            forall r :: 0 <= r < |w.runs| && w.runs[r].phase == Running && !w.early ==> w.progress
  {
    RunHooked(INIT, events);
  }

  predicate NoStart(events: seq<Event>) { forall i :: 0 <= i < |events| ==> !events[i].CallStart? }

  predicate Unreleased(w: World) { forall q :: 0 <= q < |w.runs| ==> w.runs[q].phase != Released }

  /** `events` hold no Start and leave the bring-up running without its hook. */
  predicate LosesHook(w: World, r: nat, events: seq<Event>) {
    NoStart(events) && In(Play(w, events), r, Running) && !Play(w, events).progress
  }

  /** The bring-up has its hook or has yet to install it, or has returned and will not run again. */
  predicate HookHeld(w: World, r: nat) {
    && r < |w.runs|
    && (Active(w.runs[r]) ==> Unreleased(w) && (w.runs[r].phase == Running ==> w.progress))
  }

  lemma {:induction false} StepHeld(w: World, r: nat, e: Event)
    requires Exclusive(w) && HookHeld(w, r) && !e.CallStart?
    ensures HookHeld(Step(w, e), r)
  {
  }

  lemma {:induction false} RunHeld(w: World, r: nat, events: seq<Event>)
    requires Exclusive(w) && HookHeld(w, r) && NoStart(events)
    ensures HookHeld(Play(w, events), r)
    decreases |events|
  {
    if events != [] {
      StepHeld(w, r, events[0]);
      StepExclusive(w, events[0]);
      RunHeld(Step(w, events[0]), r, events[1..]);
    }
  }

  lemma ClearingLosesIt(w: World, r: nat, q: nat)
    requires (In(w, r, Launching) || In(w, r, Running)) && In(w, q, Released)
    ensures exists events :: LosesHook(w, r, events)
  {
    PlayTwo(w, Launch(r), Clear(q));
    assert LosesHook(w, r, [Launch(r), Clear(q)]);
  }

  /**
   A bring-up that has its hook, or is about to install it, can lose it without a further Start exactly if an
   older run has been released and has not cleared its own yet.
   */
  lemma HookCanBeLostIff(before: seq<Event>, r: nat)
    requires var w := Play(INIT, before); In(w, r, Launching) || (In(w, r, Running) && w.progress)
    ensures var w := Play(INIT, before); (exists events :: LosesHook(w, r, events)) <==> !Unreleased(w)
  {
    var w := Play(INIT, before);
    RunExclusive(INIT, before);
    if Unreleased(w) {
      forall events | NoStart(events) ensures !LosesHook(w, r, events) {
        RunHeld(w, r, events);
      }
    } else {
      var q :| 0 <= q < |w.runs| && w.runs[q].phase == Released;
      ClearingLosesIt(w, r, q);
    }
  }

  /** A run has failed and been released, but its goroutine has not cleared the hook yet. */
  lemma FailedRun() returns (events: seq<Event>)
    ensures var w := Play(INIT, events); w.runs == [Run(Released, false)] && w.service.cancel == None
  {
    PlayTwo(INIT, CallStart("a"), Launch(0));
    var w := Play(INIT, [CallStart("a"), Launch(0)]);
    assert w.runs == [Run(Running, false)];
    PlayTwo(w, Return(0, 1), Release(0));
    PlayConcat(INIT, [CallStart("a"), Launch(0)], [Return(0, 1), Release(0)]);
    events := [CallStart("a"), Launch(0)] + [Return(0, 1), Release(0)];
  }

  /** And then it can be missing: the old run clears the hook the new one has just installed. */
  lemma {:induction false} EarlyStartCanLoseProgress() returns (events: seq<Event>)
    ensures var w := Play(INIT, events); In(w, 1, Running) && !w.progress
  {
    var first := FailedRun();
    var w := Play(INIT, first);
    PlayTwo(w, CallStart("b"), Launch(1));
    var w2 := Play(w, [CallStart("b"), Launch(1)]);
    assert w2.runs == [Run(Released, false), Run(Running, false)];
    PlayTwo(w2, Clear(0), Close(0));
    PlayConcat(w, [CallStart("b"), Launch(1)], [Clear(0), Close(0)]);
    PlayConcat(INIT, first, [CallStart("b"), Launch(1)] + [Clear(0), Close(0)]);
    events := first + ([CallStart("b"), Launch(1)] + [Clear(0), Close(0)]);
  }
}

/**
 linkservice.go's reportLink reads the progress hook twice: once to test it, once to call it. Between the two
 anybody may clear it, and calling a nil function ends the daemon.
 */
module HookCalls {
  import opened Common
  import opened LinkServices

  /** A report that has passed the test: by a bring-up, or by the event loop, which outlives it. */
  datatype Call = Call(writer: Option<nat>, done: bool)

  datatype HookWorld = HookWorld(world: World, calls: seq<Call>, panicked: bool)

  const FRESH := HookWorld(INIT, [], false)

  datatype HookEvent =
    | Other(e: Event)
    | Test(writer: Option<nat>)
    | CallHook(k: nat, state: State, detail: string)

  predicate Open(h: HookWorld, k: nat) { k < |h.calls| && !h.calls[k].done }

  /** The bring-up is inside a report. */
  predicate Busy(h: HookWorld, r: nat) { exists k :: 0 <= k < |h.calls| && Open(h, k) && h.calls[k].writer == Some(r) }

  predicate MayTest(h: HookWorld, writer: Option<nat>) {
    h.world.progress && (writer.Some? ==> In(h.world, writer.value, Running) && !Busy(h, writer.value))
  }

  /** What a bring-up does next has to wait for its report. */
  predicate Waits(h: HookWorld, e: Event) { (e.Return? || e.Report?) && Busy(h, e.run) }

  /** The call itself, on the service: the event loop reports nothing but a dropped link. */
  function Effect(writer: Option<nat>, state: State, detail: string): Event {
    if writer.Some? then Report(writer.value, state, detail) else Stray(detail)
  }

  function HookStep(h: HookWorld, e: HookEvent): HookWorld {
    if h.panicked then h
    else match e
      case Other(o) => if Waits(h, o) then h else h.(world := Step(h.world, o))
      case Test(writer) => if MayTest(h, writer) then h.(calls := h.calls + [Call(writer, false)]) else h
      case CallHook(k, state, detail) =>
        if !Open(h, k) then h
        else if !h.world.progress then h.(panicked := true)
        else
          HookWorld(Step(h.world, Effect(h.calls[k].writer, state, detail)), h.calls[k := h.calls[k].(done := true)], false)
  }

  function HookPlay(h: HookWorld, events: seq<HookEvent>): HookWorld
    decreases |events|
  {
    if events == [] then h else HookPlay(HookStep(h, events[0]), events[1..])
  }

  // Every run is a run of the service

  lemma {:induction false} WorldStep(h: HookWorld, e: HookEvent) returns (events: seq<Event>)
    ensures Play(h.world, events) == HookStep(h, e).world
    ensures |events| <= 1 && ((e.Other? ==> !e.e.CallStart?) ==> NoStart(events))
  {
    var v := HookStep(h, e);
    if v.world == h.world {
      events := [];
    } else {
      var o := if e.Other? then e.e else Effect(h.calls[e.k].writer, e.state, e.detail);
      events := [o];
      assert events[1..] == [];
      assert Play(h.world, events) == Play(Step(h.world, o), []);
    }
  }

  /** Whatever interleaving of tests and calls: the service is where some run of whole reports has it, too. */
  lemma {:induction false} HookRunsAreRuns(h: HookWorld, events: seq<HookEvent>) returns (plain: seq<Event>)
    ensures HookPlay(h, events).world == Play(h.world, plain)
    decreases |events|
  {
    if events == [] {
      plain := [];
    } else {
      var first := WorldStep(h, events[0]);
      var rest := HookRunsAreRuns(HookStep(h, events[0]), events[1..]);
      PlayConcat(h.world, first, rest);
      plain := first + rest;
    }
  }

  // What holds in every interleaving

  /** Only running bring-ups are inside a report, and each in one. */
  predicate Reporting(h: HookWorld) {
    && (forall k :: 0 <= k < |h.calls| && Open(h, k) && h.calls[k].writer.Some? ==> In(h.world, h.calls[k].writer.value, Running))
    && forall j, k :: 0 <= j < k < |h.calls| && Open(h, j) && Open(h, k) && h.calls[j].writer.Some? ==> h.calls[j].writer != h.calls[k].writer
  }

  predicate Uncleared(r: Run) { r.phase.Running? || r.phase.Returned? || r.phase.Released? }

  /** A hook that is in place belongs to a run that has yet to clear it. */
  predicate Installed(w: World) { w.progress ==> exists r :: 0 <= r < |w.runs| && Uncleared(w.runs[r]) }

  predicate HookInv(h: HookWorld) { Exclusive(h.world) && Reporting(h) && Installed(h.world) }

  lemma {:induction false} OnlyReturnEnds(w: World, e: Event, r: nat)
    requires In(w, r, Running) && !(e.Return? && e.run == r)
    ensures In(Step(w, e), r, Running)
  {
  }

  lemma {:induction false} StepInstalled(w: World, e: Event)
    requires Installed(w)
    ensures Installed(Step(w, e))
  {
    var v := Step(w, e);
    if v.progress && v != w {
      if e.Launch? {
        assert Uncleared(v.runs[e.run]);
      } else {
        var r :| 0 <= r < |w.runs| && Uncleared(w.runs[r]);
        assert Uncleared(v.runs[r]);
      }
    }
  }

  lemma {:induction false} StepReporting(h: HookWorld, e: HookEvent)
    requires Reporting(h)
    ensures Reporting(HookStep(h, e))
  {
    hide Step;
    var v := HookStep(h, e);
    forall k | 0 <= k < |v.calls| && Open(v, k) && v.calls[k].writer.Some? ensures In(v.world, v.calls[k].writer.value, Running) {
      var r := v.calls[k].writer.value;
      if k < |h.calls| {
        assert Open(h, k) && Busy(h, r);
        match e
        case Other(o) =>
          if !Waits(h, o) { OnlyReturnEnds(h.world, o, r); }
        case CallHook(j, state, detail) =>
          if Open(h, j) { OnlyReturnEnds(h.world, Effect(h.calls[j].writer, state, detail), r); }
        case Test(_) =>
      }
    }
    forall j, k | 0 <= j < k < |v.calls| && Open(v, j) && Open(v, k) && v.calls[j].writer.Some? ensures v.calls[j].writer != v.calls[k].writer {
      assert Open(h, j) && Busy(h, v.calls[j].writer.value);
      if k < |h.calls| { assert Open(h, k); }
    }
  }

  lemma {:induction false} HookStepKeeps(h: HookWorld, e: HookEvent)
    requires HookInv(h)
    ensures HookInv(HookStep(h, e))
  {
    hide Step, Exclusive, Installed;
    StepReporting(h, e);
    match e
    case Other(o) =>
      StepExclusive(h.world, o);
      StepInstalled(h.world, o);
    case CallHook(k, state, detail) =>
      if Open(h, k) {
        StepExclusive(h.world, Effect(h.calls[k].writer, state, detail));
        StepInstalled(h.world, Effect(h.calls[k].writer, state, detail));
      }
    case Test(_) =>
  }

  lemma {:induction false} HookPlayKeeps(h: HookWorld, events: seq<HookEvent>)
    requires HookInv(h)
    ensures HookInv(HookPlay(h, events))
    decreases |events|
  {
    if events != [] {
      HookStepKeeps(h, events[0]);
      HookPlayKeeps(HookStep(h, events[0]), events[1..]);
    }
  }

  // Who can panic

  predicate NoHookStart(events: seq<HookEvent>) { forall i :: 0 <= i < |events| && events[i].Other? ==> !events[i].e.CallStart? }

  /** Report `k` is still to call the hook, and the hook is gone. */
  predicate Doomed(h: HookWorld, k: nat) { !h.panicked && Open(h, k) && !h.world.progress }

  lemma DoomedPanics(h: HookWorld, k: nat, state: State, detail: string)
    requires Doomed(h, k)
    ensures HookStep(h, CallHook(k, state, detail)).panicked
  {
  }

  predicate Dooms(h: HookWorld, k: nat, events: seq<HookEvent>) { NoHookStart(events) && Doomed(HookPlay(h, events), k) }

  lemma {:induction false} StepHolds(h: HookWorld, r: nat, e: HookEvent)
    requires HookInv(h) && HookHeld(h.world, r) && (e.Other? ==> !e.e.CallStart?)
    ensures HookHeld(HookStep(h, e).world, r)
  {
    hide Step, HookHeld, Exclusive;
    match e
    case Other(o) => StepHeld(h.world, r, o);
    case CallHook(k, state, detail) =>
      if Open(h, k) { StepHeld(h.world, r, Effect(h.calls[k].writer, state, detail)); }
    case Test(_) =>
  }

  lemma {:induction false} PlayHolds(h: HookWorld, r: nat, events: seq<HookEvent>)
    requires HookInv(h) && HookHeld(h.world, r) && NoHookStart(events)
    ensures HookHeld(HookPlay(h, events).world, r)
    decreases |events|
  {
    if events != [] {
      StepHolds(h, r, events[0]);
      HookStepKeeps(h, events[0]);
      PlayHolds(HookStep(h, events[0]), r, events[1..]);
    }
  }

  lemma {:induction false} CallStays(h: HookWorld, e: HookEvent, k: nat)
    requires k < |h.calls|
    ensures k < |HookStep(h, e).calls| && HookStep(h, e).calls[k].writer == h.calls[k].writer
  {
  }

  lemma {:induction false} WriterStays(h: HookWorld, events: seq<HookEvent>, k: nat)
    requires k < |h.calls|
    ensures k < |HookPlay(h, events).calls| && HookPlay(h, events).calls[k].writer == h.calls[k].writer
    decreases |events|
  {
    if events != [] {
      CallStays(h, events[0], k);
      WriterStays(HookStep(h, events[0]), events[1..], k);
    }
  }

  lemma HookPlayOne(h: HookWorld, e: HookEvent)
    ensures HookPlay(h, [e]) == HookStep(h, e)
  {
    assert [e][1..] == [];
    assert HookPlay(h, [e]) == HookPlay(HookStep(h, e), []);
  }

  /**
   A bring-up's own report that has passed the test can panic without a further Start exactly if an older run has
   been released and has not cleared the hook yet.
   */
  lemma {:induction false} OwnReportCanPanicIff(before: seq<HookEvent>, k: nat)
    requires var h := HookPlay(FRESH, before); !h.panicked && Open(h, k) && h.calls[k].writer.Some? && h.world.progress
    ensures var h := HookPlay(FRESH, before); (exists events :: Dooms(h, k, events)) <==> !Unreleased(h.world)
  {
    var h := HookPlay(FRESH, before);
    var r := h.calls[k].writer.value;
    HookPlayKeeps(FRESH, before);
    if Unreleased(h.world) {
      forall events | NoHookStart(events) ensures !Doomed(HookPlay(h, events), k) {
        PlayHolds(h, r, events);
        HookPlayKeeps(h, events);
        WriterStays(h, events, k);
      }
    } else {
      var q :| 0 <= q < |h.world.runs| && h.world.runs[q].phase == Released;
      HookPlayOne(h, Other(Clear(q)));
      assert Dooms(h, k, [Other(Clear(q))]);
    }
  }

  // The event loop's report

  lemma {:induction false} DoomedLater(h: HookWorld, k: nat, e: HookEvent, events: seq<HookEvent>)
    requires Dooms(HookStep(h, e), k, events) && (e.Other? ==> !e.e.CallStart?)
    ensures Dooms(h, k, [e] + events)
  {
    assert ([e] + events)[1..] == events;
  }

  /** The run whose hook it is ends and clears it. */
  lemma {:induction false} OwnerClears(h: HookWorld, k: nat, r: nat) returns (events: seq<HookEvent>)
    requires HookInv(h) && !h.panicked && Open(h, k) && h.calls[k].writer == None && h.world.progress
    requires r < |h.world.runs| && Uncleared(h.world.runs[r])
    ensures Dooms(h, k, events)
    decreases if Busy(h, r) then 4 else if In(h.world, r, Running) then 3 else if h.world.runs[r].phase.Returned? then 2 else 1
  {
    if In(h.world, r, Released) {
      HookPlayOne(h, Other(Clear(r)));
      events := [Other(Clear(r))];
    } else {
      var e :=
        if h.world.runs[r].phase.Returned? then Other(Release(r))
        else if !Busy(h, r) then Other(Return(r, 1))
        else (var j :| 0 <= j < |h.calls| && Open(h, j) && h.calls[j].writer == Some(r); CallHook(j, Down, ""));
      HookStepKeeps(h, e);
      var v := HookStep(h, e);
      assert Open(v, k) && v.calls[k].writer == None && v.world.progress && !v.panicked;
      assert Uncleared(v.world.runs[r]) && !Busy(v, r);
      var rest := OwnerClears(v, k, r);
      DoomedLater(h, k, e, rest);
      events := [e] + rest;
    }
  }

  /** A report of the event loop that has passed the test can always panic: the run ends before the call. */
  lemma {:induction false} StrayReportCanPanic(before: seq<HookEvent>, k: nat)
    requires var h := HookPlay(FRESH, before); !h.panicked && Open(h, k) && h.calls[k].writer == None && h.world.progress
    ensures exists events :: Dooms(HookPlay(FRESH, before), k, events)
  {
    var h := HookPlay(FRESH, before);
    HookPlayKeeps(FRESH, before);
    var r :| 0 <= r < |h.world.runs| && Uncleared(h.world.runs[r]);
    var events := OwnerClears(h, k, r);
  }
}
