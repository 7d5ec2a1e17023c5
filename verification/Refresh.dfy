/**
 DeviceDiagnosticsStore.swift: the diagnostics panel of one device.

 Every method runs on the main actor and gives it up only while it awaits the daemon's answer, so a
 request is two atomic parts, and anything may happen between them: a reset, a cancellation, another
 request. The generation a request was made in tells its answer whether it still concerns anybody.
 */
module DiagnosticsStores {
  import opened Common

  datatype Ping = Ping(target: string, ms: int)

  datatype SpeedResult = SpeedResult(interface: string, status: string, error: Option<string>)

  /** The store's fields. */
  datatype Store = Store(isRunning: bool, pings: seq<Ping>, speed: Option<SpeedResult>, error: Option<string>, generation: nat)

  const EMPTY := Store(false, [], None, None, 0)

  /** What the daemon's answer to an awaited call is. */
  datatype Reply<T> = Answer(value: T) | Failure(message: string)

  const NO_TARGET := "Enter an IP address or hostname to test."
  const NO_PINGS := "The daemon returned no ping measurements."
  const OTHER_ADAPTER := "The daemon returned a result for a different adapter. Run the test again."

  // The atomic parts as functions

  function Reset(s: Store): Store { Store(false, [], None, None, s.generation + 1) }

  /** The part of a request before the await: `refusal` is the reason it is not made, if there is one. */
  function Begin(s: Store, refusal: Option<string>): Store {
    if s.isRunning then s
    else if refusal.Some? then Reset(s).(error := refusal)
    else Reset(s).(isRunning := true)
  }

  predicate Awaits(s: Store, refusal: Option<string>) { !s.isRunning && refusal == None }

  /** The `defer` at the end of a request. */
  function Ended(s: Store, generation: nat): Store {
    if s.generation == generation then s.(isRunning := false) else s
  }

  predicate Shows(s: Store, generation: nat, cancelled: bool) { s.generation == generation && !cancelled }

  function PingDone(s: Store, generation: nat, cancelled: bool, reply: Reply<seq<Ping>>): Store {
    var shown :=
      if !Shows(s, generation, cancelled) then s
      else match reply
        case Failure(m) => s.(error := Some(m))
        case Answer(pings) => s.(pings := pings, error := if pings == [] then Some(NO_PINGS) else s.error);
    Ended(shown, generation)
  }

  function SpeedError(r: SpeedResult): Option<string> {
    if r.error == None && r.status != "success" && r.status != "completed"
    then Some("Speed test " + r.status + ". Some measurements may be unavailable.") else r.error
  }

  function SpeedDone(s: Store, generation: nat, cancelled: bool, interface: string, reply: Reply<SpeedResult>): Store {
    var shown :=
      if !Shows(s, generation, cancelled) then s
      else match reply
        case Failure(m) => s.(error := Some(m))
        case Answer(r) =>
          if r.interface != interface then s.(error := Some(OTHER_ADAPTER))
          else s.(speed := Some(r), error := SpeedError(r));
    Ended(shown, generation)
  }

  /** The reasons for not pinging: the device's own, or an empty target. */
  function PingRefusal(unavailable: Option<string>, trimmedTarget: string): Option<string> {
    if unavailable.Some? then unavailable else if trimmedTarget == "" then Some(NO_TARGET) else None
  }

  class DeviceDiagnosticsStore {
    var isRunning: bool
    var pings: seq<Ping>
    var speed: Option<SpeedResult>
    var error: Option<string>
    var generation: nat

    function View(): Store
      reads this
    {
      Store(isRunning, pings, speed, error, generation)
    }

    constructor ()
      ensures View() == EMPTY
    {
      isRunning, pings, speed, error, generation := false, [], None, None, 0;
    }

    method ResetStore()
      modifies this
      ensures View() == Reset(old(View()))
    {
      generation := generation + 1;
      isRunning, pings, speed, error := false, [], None, None;
    }

    /** runPing up to the await; the result is the generation of the request, if one is made. */
    method BeginPing(unavailable: Option<string>, trimmedTarget: string) returns (request: Option<nat>)
      modifies this
      ensures View() == Begin(old(View()), PingRefusal(unavailable, trimmedTarget))
      ensures request == if Awaits(old(View()), PingRefusal(unavailable, trimmedTarget)) then Some(generation) else None
    {
      if isRunning { return None; }
      ResetStore();
      if unavailable.Some? {
        error := unavailable;
        return None;
      }
      if trimmedTarget == "" {
        error := Some(NO_TARGET);
        return None;
      }
      isRunning := true;
      return Some(generation);
    }

    method FinishPing(request: nat, cancelled: bool, reply: Reply<seq<Ping>>)
      modifies this
      ensures View() == PingDone(old(View()), request, cancelled, reply)
    {
      if generation == request && !cancelled {
        match reply {
          case Answer(results) =>
            pings := results;
            if results == [] { error := Some(NO_PINGS); }
          case Failure(message) => error := Some(message);
        }
      }
      if generation == request { isRunning := false; }
    }

    method BeginSpeedTest(unavailable: Option<string>) returns (request: Option<nat>)
      modifies this
      ensures View() == Begin(old(View()), unavailable)
      ensures request == if Awaits(old(View()), unavailable) then Some(generation) else None
    {
      if isRunning { return None; }
      ResetStore();
      if unavailable.Some? {
        error := unavailable;
        return None;
      }
      isRunning := true;
      return Some(generation);
    }

    method FinishSpeedTest(request: nat, cancelled: bool, interface: string, reply: Reply<SpeedResult>)
      modifies this
      ensures View() == SpeedDone(old(View()), request, cancelled, interface, reply)
    {
      if generation == request && !cancelled {
        match reply {
          case Failure(message) => error := Some(message);
          case Answer(result) =>
            if result.interface != interface {
              error := Some(OTHER_ADAPTER);
            } else {
              speed, error := Some(result), result.error;
              if error == None && result.status != "success" && result.status != "completed" {
                error := Some("Speed test " + result.status + ". Some measurements may be unavailable.");
              }
            }
        }
      }
      if generation == request { isRunning := false; }
    }
  }

  // All interleavings

  /** A request that was sent; `reply` holds what came back once its second part has run. */
  datatype Request =
    | PingRequest(generation: nat, cancelled: bool, pings: Option<Reply<seq<Ping>>>)
    | SpeedRequest(generation: nat, cancelled: bool, interface: string, speed: Option<Reply<SpeedResult>>)

  predicate Open(r: Request) {
    match r
    case PingRequest(_, _, p) => p == None
    case SpeedRequest(_, _, _, s) => s == None
  }

  /** A call that was not made, in the generation it began. */
  datatype Refusal = Refusal(generation: nat, reason: string)

  /** `refusal` remembers the last call that was refused. */
  datatype World = World(store: Store, requests: seq<Request>, refusal: Option<Refusal>)

  datatype Event =
    | CallReset
    | CallPing(unavailable: Option<string>, trimmedTarget: string)
    | CallSpeed(interface: string, unavailable: Option<string>)
    | CancelTask(request: nat)
    | PingReply(request: nat, pings: Reply<seq<Ping>>)
    | SpeedReply(request: nat, speed: Reply<SpeedResult>)

  /** A call that sends `r` unless it is refused or another one is running. */
  function Called(w: World, refusal: Option<string>, r: Request): World {
    var s := Begin(w.store, refusal);
    World(s,
          if Awaits(w.store, refusal) then w.requests + [r] else w.requests,
          if !w.store.isRunning && refusal.Some? then Some(Refusal(s.generation, refusal.value)) else w.refusal)
  }

  function Step(w: World, e: Event): World {
    match e
    case CallReset => w.(store := Reset(w.store))
    case CallPing(u, target) => Called(w, PingRefusal(u, target), PingRequest(w.store.generation + 1, false, None))
    case CallSpeed(i, u) => Called(w, u, SpeedRequest(w.store.generation + 1, false, i, None))
    case CancelTask(k) =>
      if k < |w.requests| && Open(w.requests[k]) then w.(requests := w.requests[k := w.requests[k].(cancelled := true)]) else w
    case PingReply(k, reply) =>
      if k < |w.requests| && w.requests[k].PingRequest? && Open(w.requests[k]) then
        var r := w.requests[k];
        w.(store := PingDone(w.store, r.generation, r.cancelled, reply), requests := w.requests[k := r.(pings := Some(reply))])
      else w
    case SpeedReply(k, reply) =>
      if k < |w.requests| && w.requests[k].SpeedRequest? && Open(w.requests[k]) then
        var r := w.requests[k];
        w.(store := SpeedDone(w.store, r.generation, r.cancelled, r.interface, reply), requests := w.requests[k := r.(speed := Some(reply))])
      else w
  }

  function Play(w: World, events: seq<Event>): World
    decreases |events|
  {
    if events == [] then w else Play(Step(w, events[0]), events[1..])
  }

  const INIT := World(EMPTY, [], None)

  predicate InFlight(w: World, k: int) { 0 <= k < |w.requests| && Open(w.requests[k]) && w.requests[k].generation == w.store.generation }

  /** Request `k` is of the shown generation, was not cancelled and brought these pings. */
  predicate GavePings(w: World, k: int, pings: seq<Ping>) {
    && 0 <= k < |w.requests| && w.requests[k].PingRequest? && w.requests[k].generation == w.store.generation
    && !w.requests[k].cancelled && w.requests[k].pings == Some(Answer(pings))
  }

  predicate GaveSpeed(w: World, k: int, speed: SpeedResult) {
    && 0 <= k < |w.requests| && w.requests[k].SpeedRequest? && w.requests[k].generation == w.store.generation
    && !w.requests[k].cancelled && w.requests[k].speed == Some(Answer(speed)) && w.requests[k].interface == speed.interface
  }

  /** What an answer to a ping complains of, if anything. */
  function PingComplaint(reply: Reply<seq<Ping>>): Option<string> {
    match reply
    case Failure(m) => Some(m)
    case Answer(pings) => if pings == [] then Some(NO_PINGS) else None
  }

  function SpeedComplaint(reply: Reply<SpeedResult>, interface: string): Option<string> {
    match reply
    case Failure(m) => Some(m)
    case Answer(r) => if r.interface != interface then Some(OTHER_ADAPTER) else SpeedError(r)
  }

  /** Request `k` is of the shown generation, was not cancelled, and its answer complains of this. */
  predicate GaveError(w: World, k: int, message: string) {
    && 0 <= k < |w.requests| && w.requests[k].generation == w.store.generation && !w.requests[k].cancelled
    && match w.requests[k]
       case PingRequest(_, _, reply) => reply.Some? && PingComplaint(reply.value) == Some(message)
       case SpeedRequest(_, _, interface, reply) => reply.Some? && SpeedComplaint(reply.value, interface) == Some(message)
  }

  /** Request generations rise, so at most one request is of the current generation. */
  predicate Numbered(w: World) {
    && (forall j, k :: 0 <= j < k < |w.requests| ==> w.requests[j].generation < w.requests[k].generation)
    && forall k :: 0 <= k < |w.requests| ==> w.requests[k].generation <= w.store.generation
  }

  ghost predicate Inv(w: World) {
    && Numbered(w)
    && (w.store.isRunning <==> exists k :: InFlight(w, k))
    && (w.store.pings != [] ==> exists k :: GavePings(w, k, w.store.pings))
    && (w.store.speed.Some? ==> exists k :: GaveSpeed(w, k, w.store.speed.value))
    && (forall k :: InFlight(w, k) ==> w.store.pings == [] && w.store.speed == None && w.store.error == None)
    && (w.store.error.Some? ==>
          w.refusal == Some(Refusal(w.store.generation, w.store.error.value)) || exists k :: GaveError(w, k, w.store.error.value))
  }

  lemma BeginKeeps(w: World, refusal: Option<string>, r: Request)
    requires Inv(w) && Open(r) && r.generation == w.store.generation + 1
    ensures Inv(Called(w, refusal, r))
  {
    var v := Called(w, refusal, r);
    if Awaits(w.store, refusal) { assert InFlight(v, |w.requests|); }
  }

  lemma CancelKeeps(w: World, k: nat)
    requires Inv(w)
    ensures Inv(Step(w, CancelTask(k)))
  {
    var v := Step(w, CancelTask(k));
    forall j ensures InFlight(v, j) <==> InFlight(w, j) {
    }
    if w.store.pings != [] {
      var j :| GavePings(w, j, w.store.pings);
      assert GavePings(v, j, v.store.pings);
    }
    if w.store.speed.Some? {
      var j :| GaveSpeed(w, j, w.store.speed.value);
      assert GaveSpeed(v, j, v.store.speed.value);
    }
    if w.store.error.Some? && w.refusal != Some(Refusal(w.store.generation, w.store.error.value)) {
      var j :| GaveError(w, j, w.store.error.value);
      assert GaveError(v, j, v.store.error.value);
    }
  }

  /** The end of request `k`: the others stay as they are, and only the current one can change what is shown. */
  lemma ReplyKeepsOthers(w: World, v: World, k: nat)
    requires Inv(w) && k < |w.requests| == |v.requests| && Open(w.requests[k]) && !Open(v.requests[k])
    requires v.requests[k].generation == w.requests[k].generation && v.store.generation == w.store.generation
    requires forall j :: 0 <= j < |w.requests| && j != k ==> v.requests[j] == w.requests[j]
    ensures Numbered(v)
    ensures forall j :: InFlight(v, j) <==> InFlight(w, j) && j != k
    ensures InFlight(w, k) ==> forall j :: !InFlight(v, j)
    ensures forall j, p :: GavePings(w, j, p) ==> GavePings(v, j, p)
    ensures forall j, p :: GaveSpeed(w, j, p) ==> GaveSpeed(v, j, p)
    ensures forall j, m :: GaveError(w, j, m) ==> GaveError(v, j, m)
  {
  }

  lemma PingReplyKeeps(w: World, k: nat, reply: Reply<seq<Ping>>)
    requires Inv(w)
    ensures Inv(Step(w, PingReply(k, reply)))
  {
    if k < |w.requests| && w.requests[k].PingRequest? && Open(w.requests[k]) {
      var v := Step(w, PingReply(k, reply));
      ReplyKeepsOthers(w, v, k);
      if InFlight(w, k) {
        if !w.requests[k].cancelled && reply.Answer? { assert GavePings(v, k, reply.value); }
        if v.store.error.Some? { assert GaveError(v, k, v.store.error.value); }
      } else {
        assert v.store == w.store;
        if j :| InFlight(w, j) { assert InFlight(v, j); }
      }
    }
  }

  lemma SpeedReplyKeeps(w: World, k: nat, reply: Reply<SpeedResult>)
    requires Inv(w)
    ensures Inv(Step(w, SpeedReply(k, reply)))
  {
    if k < |w.requests| && w.requests[k].SpeedRequest? && Open(w.requests[k]) {
      var v := Step(w, SpeedReply(k, reply));
      ReplyKeepsOthers(w, v, k);
      if InFlight(w, k) {
        if v.store.speed.Some? { assert GaveSpeed(v, k, reply.value); }
        if v.store.error.Some? { assert GaveError(v, k, v.store.error.value); }
      } else {
        assert v.store == w.store;
        if j :| InFlight(w, j) { assert InFlight(v, j); }
      }
    }
  }

  lemma StepKeeps(w: World, e: Event)
    requires Inv(w)
    ensures Inv(Step(w, e))
  {
    match e
    case CallReset =>
    case CallPing(u, target) => BeginKeeps(w, PingRefusal(u, target), PingRequest(w.store.generation + 1, false, None));
    case CallSpeed(i, u) => BeginKeeps(w, u, SpeedRequest(w.store.generation + 1, false, i, None));
    case CancelTask(k) => CancelKeeps(w, k);
    case PingReply(k, reply) => PingReplyKeeps(w, k, reply);
    case SpeedReply(k, reply) => SpeedReplyKeeps(w, k, reply);
  }

  lemma {:induction false} PlayKeeps(w: World, events: seq<Event>)
    requires Inv(w)
    ensures Inv(Play(w, events))
    decreases |events|
  {
    if events != [] {
      StepKeeps(w, events[0]);
      PlayKeeps(Step(w, events[0]), events[1..]);
    }
  }

  /**
   In every interleaving of calls, answers, resets and cancellations: the panel is running exactly
   while a request of the current generation is in flight, and what it shows came from that
   generation's request, which was not cancelled; a speed belongs to the adapter it was asked for, and an error
   is what that request's answer complains of, or the reason for which this generation's call was refused.
   */
  lemma OnlyCurrentAnswersAreShown(events: seq<Event>)
    ensures var w := Play(INIT, events);
            && (w.store.isRunning <==> exists k :: InFlight(w, k))
            && (w.store.pings != [] ==> exists k :: GavePings(w, k, w.store.pings))
            && (w.store.speed.Some? ==> exists k :: GaveSpeed(w, k, w.store.speed.value))
            && (w.store.error.Some? ==>
                  w.refusal == Some(Refusal(w.store.generation, w.store.error.value)) || exists k :: GaveError(w, k, w.store.error.value))
            && (w.store.isRunning ==> w.store.pings == [] && w.store.speed == None && w.store.error == None)
  {
    PlayKeeps(INIT, events);
  }

  predicate IsReply(e: Event) { e.PingReply? || e.SpeedReply? }

  /** An answer to a request that has been replaced or reset since. */
  predicate Late(w: World, e: Event) {
    IsReply(e) && e.request < |w.requests| && w.requests[e.request].generation < w.store.generation
  }

  /** The events without the answers that come late, each judged at its own moment. */
  function Timely(w: World, events: seq<Event>): seq<Event>
    decreases |events|
  {
    if events == [] then []
    else (if Late(w, events[0]) then [] else [events[0]]) + Timely(Step(w, events[0]), events[1..])
  }

  predicate SameOrStale(r: Request, q: Request, generation: nat) {
    r == q || (r.generation < generation && q.generation < generation)
  }

  /** The same panel, and requests that differ only where they can no longer matter. */
  predicate SamePanel(w: World, v: World) {
    && v.store == w.store && v.refusal == w.refusal && |v.requests| == |w.requests|
    && forall k :: 0 <= k < |w.requests| ==> SameOrStale(w.requests[k], v.requests[k], w.store.generation)
  }

  lemma {:induction false} LateStepSame(w: World, v: World, e: Event)
    requires SamePanel(w, v) && Late(w, e)
    ensures SamePanel(Step(w, e), v)
  {
  }

  lemma {:induction false} StepSame(w: World, v: World, e: Event)
    requires SamePanel(w, v) && !Late(w, e)
    ensures SamePanel(Step(w, e), Step(v, e))
  {
  }

  lemma {:induction false} PlaySame(w: World, v: World, events: seq<Event>)
    requires SamePanel(w, v)
    ensures SamePanel(Play(w, events), Play(v, Timely(w, events)))
    decreases |events|
  {
    if events != [] {
      var e := events[0];
      if Late(w, e) {
        LateStepSame(w, v, e);
        PlaySame(Step(w, e), v, events[1..]);
        assert Timely(w, events) == Timely(Step(w, e), events[1..]);
      } else {
        StepSame(w, v, e);
        PlaySame(Step(w, e), Step(v, e), events[1..]);
        assert Timely(w, events) == [e] + Timely(Step(w, e), events[1..]);
      }
    }
  }

  /** Taking every late answer out of any run, wherever it came, leaves the panel as it was. */
  lemma LateAnswersShowNothing(w: World, events: seq<Event>)
    ensures Play(w, events).store == Play(w, Timely(w, events)).store
  {
    PlaySame(w, w, events);
  }

  /** What the answer to a cancelled request says is not shown. */
  lemma CancelledAnswerShowsNothing(w: World, e: Event)
    requires IsReply(e) && e.request < |w.requests| && w.requests[e.request].cancelled
    ensures var v := Step(w, e).store;
            v.pings == w.store.pings && v.speed == w.store.speed && v.error == w.store.error && v.generation == w.store.generation
  {
  }

  // What is shown

  /** The answer to a running ping that nobody cancelled is shown, with its complaint if it has one, and ends the run. */
  lemma {:induction false} PingIsShown(events: seq<Event>, k: nat, reply: Reply<seq<Ping>>)
    requires var w := Play(INIT, events); InFlight(w, k) && w.requests[k].PingRequest? && !w.requests[k].cancelled
    ensures var w := Play(INIT, events);
            Step(w, PingReply(k, reply)).store ==
              match reply
              case Failure(m) => Store(false, [], None, Some(m), w.store.generation)
              case Answer(pings) =>
                Store(false, pings, None, if pings == [] then Some("The daemon returned no ping measurements.") else None, w.store.generation)
  {
    PlayKeeps(INIT, events);
  }

  /** What a shown speed test says is wrong: its own error, or a status that is neither of the good ones. */
  function Wrong(r: SpeedResult): Option<string> {
    if r.error.Some? then r.error
    else if r.status == "success" || r.status == "completed" then None
    else Some("Speed test " + r.status + ". Some measurements may be unavailable.")
  }

  /** So is the answer to a running speed test, unless it is about another adapter. */
  lemma {:induction false} SpeedIsShown(events: seq<Event>, k: nat, reply: Reply<SpeedResult>)
    requires var w := Play(INIT, events); InFlight(w, k) && w.requests[k].SpeedRequest? && !w.requests[k].cancelled
    ensures var w := Play(INIT, events);
            Step(w, SpeedReply(k, reply)).store ==
              match reply
              case Failure(m) => Store(false, [], None, Some(m), w.store.generation)
              case Answer(r) =>
                if r.interface == w.requests[k].interface then Store(false, [], Some(r), Wrong(r), w.store.generation)
                else Store(false, [], None, Some(OTHER_ADAPTER), w.store.generation)
  {
    PlayKeeps(INIT, events);
  }

  /** The answer to a running request that was cancelled leaves an empty panel. */
  lemma {:induction false} CancelledAnswerEndsTheRun(events: seq<Event>, k: nat, e: Event)
    requires var w := Play(INIT, events);
             InFlight(w, k) && w.requests[k].cancelled &&
             match e
             case PingReply(j, _) => j == k && w.requests[k].PingRequest?
             case SpeedReply(j, _) => j == k && w.requests[k].SpeedRequest?
             case _ => false
    ensures var w := Play(INIT, events); Step(w, e).store == Store(false, [], None, None, w.store.generation)
  {
    PlayKeeps(INIT, events);
  }

  /** A call while one runs does nothing; another one empties the panel, and shows why it is refused or runs. */
  lemma {:induction false} CallsEmptyThePanel(w: World, unavailable: Option<string>, target: string, interface: string)
    ensures var ping, speed, g := Step(w, CallPing(unavailable, target)), Step(w, CallSpeed(interface, unavailable)), w.store.generation + 1;
            if w.store.isRunning then ping == w && speed == w
            else if unavailable.Some? then ping.store == speed.store == Store(false, [], None, unavailable, g) && ping.requests == speed.requests == w.requests
            else
              && speed.store == Store(true, [], None, None, g) && speed.requests == w.requests + [SpeedRequest(g, false, interface, None)]
              && if target == "" then ping.store == Store(false, [], None, Some("Enter an IP address or hostname to test."), g) && ping.requests == w.requests
                 else ping.store == Store(true, [], None, None, g) && ping.requests == w.requests + [PingRequest(g, false, None)]
  {
  }
}

/**
 The dongle cache of pkg/usb/modeswitch.go: readers are served the last completed enumeration, and
 at most one background pass, the one of the current generation, may commit.
 */
module DongleCaches {
  import opened Common

  type Devices = seq<string>

  /** Times are nanoseconds of the monotonic clock. */
  const TTL := 5_000_000_000
  const FORCE_AFTER := 60_000_000_000

  /** The package variables the mutex guards. */
  datatype Cache = Cache(devs: Devices, at: nat, ok: bool, refreshing: bool, generation: nat, refreshAt: nat)

  const COLD := Cache([], 0, false, false, 0, 0)

  // The critical sections as functions

  predicate Fresh(c: Cache, now: nat) { c.ok && now - c.at < TTL }

  predicate Starts(c: Cache, now: nat) { !Fresh(c, now) && (!c.refreshing || now - c.refreshAt > FORCE_AFTER) }

  function AfterRead(c: Cache, now: nat): Cache {
    if Starts(c, now) then c.(refreshing := true, refreshAt := now, generation := c.generation + 1) else c
  }

  function AfterPass(c: Cache, generation: nat, devs: Devices, now: nat): Cache {
    if generation == c.generation then c.(devs := devs, at := now, ok := true, refreshing := false) else c
  }

  function AfterReset(c: Cache): Cache { Cache([], 0, false, false, c.generation + 1, 0) }

  class DongleCache {
    var devs: Devices
    var at: nat
    var ok: bool
    var refreshing: bool
    var generation: nat
    var refreshAt: nat

    function View(): Cache
      reads this
    {
      Cache(devs, at, ok, refreshing, generation, refreshAt)
    }

    constructor ()
      ensures View() == COLD
    {
      devs, at, ok, refreshing, generation, refreshAt := [], 0, false, false, 0, 0;
    }

    /** `started` is the generation of the pass this call starts, if it starts one. */
    method CachedDongles(now: nat) returns (served: Devices, probed: bool, started: Option<nat>)
      modifies this
      ensures View() == AfterRead(old(View()), now)
      ensures served == old(devs) && probed == old(ok)
      ensures started == if Starts(old(View()), now) then Some(generation) else None
    {
      if ok && now - at < TTL { return devs, true, None; }
      started := None;
      if !refreshing || now - refreshAt > FORCE_AFTER {
        refreshing, refreshAt := true, now;
        generation := generation + 1;
        started := Some(generation);
      }
      return devs, ok, started;
    }

    /** The end of a background pass. */
    method FinishPass(of: nat, found: Devices, now: nat)
      modifies this
      ensures View() == AfterPass(old(View()), of, found, now)
    {
      if of == generation { devs, at, ok, refreshing := found, now, true, false; }
    }

    method ResetDongleCache()
      modifies this
      ensures View() == AfterReset(old(View()))
    {
      generation := generation + 1;
      devs, at, ok, refreshing := [], 0, false, false;
      refreshAt := 0;
    }
  }

  // All interleavings

  /** A background pass; `epoch` counts the resets before it, `result` what it found once it is over. */
  datatype Pass = Pass(generation: nat, started: nat, epoch: nat, result: Option<Devices>)

  /** `commits` lists the passes that changed the cache, in order. */
  datatype World = World(cache: Cache, now: nat, epoch: nat, passes: seq<Pass>, commits: seq<nat>)

  const INIT := World(COLD, 0, 0, [], [])

  datatype Event = Tick(elapsed: nat) | Read | Finish(pass: nat, devs: Devices) | Reset

  function Step(w: World, e: Event): World {
    match e
    case Tick(d) => w.(now := w.now + d)
    case Read =>
      var c := AfterRead(w.cache, w.now);
      if Starts(w.cache, w.now) then w.(cache := c, passes := w.passes + [Pass(c.generation, w.now, w.epoch, None)]) else w
    case Finish(p, devs) =>
      if p < |w.passes| && w.passes[p].result == None then
        w.(cache := AfterPass(w.cache, w.passes[p].generation, devs, w.now),
           passes := w.passes[p := w.passes[p].(result := Some(devs))],
           commits := if w.passes[p].generation == w.cache.generation then w.commits + [p] else w.commits)
      else w
    case Reset => w.(cache := AfterReset(w.cache), epoch := w.epoch + 1)
  }

  function Play(w: World, events: seq<Event>): World
    decreases |events|
  {
    if events == [] then w else Play(Step(w, events[0]), events[1..])
  }

  // Order

  /** The pass of the current generation: the last one, unless a reset came after it. */
  predicate Current(w: World, p: int) { 0 <= p < |w.passes| && w.passes[p].generation == w.cache.generation }

  predicate InFlight(w: World, p: int) { Current(w, p) && w.passes[p].result == None }

  ghost predicate Ordered(w: World) {
    && (forall p, q :: 0 <= p < q < |w.passes| ==> w.passes[p].generation < w.passes[q].generation && w.passes[p].epoch <= w.passes[q].epoch)
    && (forall p :: 0 <= p < |w.passes| ==> 0 < w.passes[p].generation <= w.cache.generation && w.passes[p].epoch <= w.epoch && w.passes[p].started <= w.now)
    && (forall p :: 0 <= p < |w.passes| && w.passes[p].epoch == w.epoch && p == |w.passes| - 1 ==> Current(w, p))
    && (forall p :: Current(w, p) ==> p == |w.passes| - 1 && w.passes[p].epoch == w.epoch)
    && (w.cache.refreshing <==> exists p :: InFlight(w, p))
  }

  predicate Served(w: World, last: Pass) {
    last.epoch == w.epoch && last.result == Some(w.cache.devs) && last.started <= w.cache.at <= w.now
  }

  /** What has been committed: ever later passes, and the last one is what readers are served. */
  predicate Committed(w: World) {
    && (forall i :: 0 <= i < |w.commits| ==> w.commits[i] < |w.passes| && w.passes[w.commits[i]].result.Some?)
    && (forall i, j :: 0 <= i < j < |w.commits| ==> w.commits[i] < w.commits[j])
    && (w.cache.ok ==> w.commits != [] && Served(w, w.passes[w.commits[|w.commits| - 1]]))
  }

  /** The facts the timing rests on. */
  predicate Timed(w: World) {
    forall p :: 0 <= p < |w.passes| && Current(w, p) ==>
      && w.cache.refreshAt == w.passes[p].started
      && (w.passes[p].result.Some? ==> w.cache.ok && w.passes[p].started <= w.cache.at)
  }

  ghost predicate Inv(w: World) { Ordered(w) && Committed(w) && Timed(w) && Spaced(w) }

  predicate Apart(p: Pass, q: Pass) {
    var gap := q.started - p.started;
    (gap >= TTL || gap > FORCE_AFTER) && (p.result == None ==> gap > FORCE_AFTER)
  }

  /** Starts without a reset between them keep their distance, and a pass that was given up was given its time. */
  predicate Spaced(w: World) {
    forall p :: 0 <= p < |w.passes| - 1 && w.passes[p].epoch == w.passes[p + 1].epoch ==> Apart(w.passes[p], w.passes[p + 1])
  }

  lemma ReadKeepsOrder(w: World)
    requires Ordered(w) && Starts(w.cache, w.now)
    ensures Ordered(Step(w, Read))
  {
    var v := Step(w, Read);
    assert InFlight(v, |w.passes|);
    forall p ensures Current(v, p) <==> p == |w.passes| {
    }
  }

  lemma ReadKeepsCommitted(w: World)
    requires Committed(w) && Starts(w.cache, w.now)
    ensures Committed(Step(w, Read))
  {
    var v := Step(w, Read);
    assert v.commits == w.commits;
    forall i | 0 <= i < |v.commits| ensures v.commits[i] < |v.passes| && v.passes[v.commits[i]] == w.passes[v.commits[i]] {
    }
  }

  /** A start follows the one before it at a distance: either that pass has committed, or it was given up. */
  lemma ReadKeepsSpaced(w: World)
    requires Inv(w) && Starts(w.cache, w.now)
    ensures Spaced(Step(w, Read))
  {
    var n := |w.passes|;
    if n > 0 && w.passes[n - 1].epoch == w.epoch {
      assert Current(w, n - 1);
      if w.passes[n - 1].result == None { assert InFlight(w, n - 1); }
      if w.cache.refreshing {
        var p :| InFlight(w, p);
        assert p == n - 1;
      }
    }
  }

  lemma ReadKeeps(w: World)
    requires Inv(w)
    ensures Inv(Step(w, Read))
  {
    if Starts(w.cache, w.now) {
      ReadKeepsOrder(w);
      ReadKeepsCommitted(w);
      ReadKeepsSpaced(w);
      forall p ensures Current(Step(w, Read), p) <==> p == |w.passes| {
      }
    }
  }

  lemma FinishKeepsOrder(w: World, p: nat, devs: Devices)
    requires Ordered(w) && p < |w.passes| && w.passes[p].result == None
    ensures Ordered(Step(w, Finish(p, devs)))
  {
    var v := Step(w, Finish(p, devs));
    forall q ensures Current(v, q) <==> Current(w, q) {
    }
    if Current(w, p) {
      assert InFlight(w, p) && p == |w.passes| - 1;
      forall q ensures !InFlight(v, q) {
      }
    } else {
      forall q ensures InFlight(v, q) <==> InFlight(w, q) {
      }
    }
  }

  /** A pass that is not over has not committed. */
  lemma FinishKeepsCommitted(w: World, p: nat, devs: Devices)
    requires Ordered(w) && Committed(w) && p < |w.passes| && w.passes[p].result == None
    ensures Committed(Step(w, Finish(p, devs)))
  {
    var v := Step(w, Finish(p, devs));
    forall i | 0 <= i < |w.commits| ensures w.commits[i] < |v.passes| && v.passes[w.commits[i]] == w.passes[w.commits[i]] {
    }
    if w.passes[p].generation == w.cache.generation {
      assert Current(w, p) && p == |w.passes| - 1;
      forall i | 0 <= i < |w.commits| ensures w.commits[i] < p {
        assert w.passes[w.commits[i]].result.Some?;
      }
      assert v.commits == w.commits + [p];
      assert v.passes[v.commits[|v.commits| - 1]] == w.passes[p].(result := Some(devs));
    }
  }

  lemma FinishKeepsSpaced(w: World, p: nat, devs: Devices)
    requires Spaced(w) && p < |w.passes| && w.passes[p].result == None
    ensures Spaced(Step(w, Finish(p, devs)))
  {
    var v := Step(w, Finish(p, devs));
    forall q | 0 <= q < |v.passes| - 1 && v.passes[q].epoch == v.passes[q + 1].epoch
      ensures Apart(v.passes[q], v.passes[q + 1])
    {
      assert w.passes[q].epoch == w.passes[q + 1].epoch && Apart(w.passes[q], w.passes[q + 1]);
    }
  }

  lemma FinishKeeps(w: World, p: nat, devs: Devices)
    requires Inv(w)
    ensures Inv(Step(w, Finish(p, devs)))
  {
    if p < |w.passes| && w.passes[p].result == None {
      FinishKeepsOrder(w, p, devs);
      FinishKeepsCommitted(w, p, devs);
      FinishKeepsSpaced(w, p, devs);
      forall q ensures Current(Step(w, Finish(p, devs)), q) <==> Current(w, q) {
      }
    }
  }

  lemma StepKeeps(w: World, e: Event)
    requires Inv(w)
    ensures Inv(Step(w, e))
  {
    match e
    case Read => ReadKeeps(w);
    case Finish(p, devs) => FinishKeeps(w, p, devs);
    case Tick(d) =>
      var v := Step(w, e);
      forall q ensures InFlight(v, q) <==> InFlight(w, q) {
      }
    case Reset =>
  }

  lemma {:induction false} PlayKeeps(w: World, events: seq<Event>)
    requires Inv(w)
    ensures Inv(Play(w, events))
    decreases |events|
  {
    if events != [] {
      StepKeeps(w, events[0]);
      PlayKeeps(Step(w, events[0]), events[1..]);
    }
  }

  /**
   In every interleaving: passes commit in the order they started, a refresh is under way exactly
   while the pass of the current generation is, and readers see what the latest commit found.
   */
  lemma LateAnswersAreNeverSeen(events: seq<Event>)
    ensures var w := Play(INIT, events);
            && (forall i, j :: 0 <= i < j < |w.commits| ==> w.commits[i] < w.commits[j])
            && (w.cache.refreshing <==> exists p :: InFlight(w, p))
            && (w.cache.ok ==> w.commits != [] && w.commits[|w.commits| - 1] < |w.passes| && w.passes[w.commits[|w.commits| - 1]].result == Some(w.cache.devs))
  {
    PlayKeeps(INIT, events);
  }

  /** A pass that commits is the one started last. */
  lemma OnlyTheLatestPassCommits(events: seq<Event>, p: nat, devs: Devices)
    ensures var w := Play(INIT, events);
            var v := Step(w, Finish(p, devs));
            (v.commits != w.commits ==> p == |w.passes| - 1 && v.commits == w.commits + [p]) && (v.cache != w.cache ==> v.commits != w.commits)
  {
    PlayKeeps(INIT, events);
    var w := Play(INIT, events);
    if p < |w.passes| && w.passes[p].generation == w.cache.generation { assert Current(w, p); }
  }

  /**
   Without a reset, the bus counts as probed at the end exactly if it did before or a pass has committed since:
   nothing but a reset takes it back, and nothing but a commit brings it about.
   */
  lemma {:induction false} ProbedIff(w: World, events: seq<Event>)
    requires Reset !in events
    ensures var v := Play(w, events);
            |v.commits| >= |w.commits| && (v.cache.ok <==> w.cache.ok || |v.commits| > |w.commits|)
    decreases |events|
  {
    if events != [] { ProbedIff(Step(w, events[0]), events[1..]); }
  }

  // When a pass starts

  function After(events: seq<Event>, n: nat): World
    requires n <= |events|
  {
    if n == 0 then INIT else Step(After(events, n - 1), events[n - 1])
  }

  lemma {:induction false} PlayIsAfter(events: seq<Event>, n: nat)
    requires n <= |events|
    ensures Play(After(events, n), events[n..]) == Play(INIT, events)
  {
    if n == 0 {
      assert events[0..] == events;
    } else {
      assert events[n - 1..][1..] == events[n..];
      PlayIsAfter(events, n - 1);
    }
  }

  /** When the latest pass to commit since the last reset came back, among the first `n` events. */
  function CameBack(events: seq<Event>, n: nat): Option<nat>
    requires n <= |events|
  {
    if n == 0 || events[n - 1] == Reset then None
    else if |After(events, n).commits| > |After(events, n - 1).commits| then Some(After(events, n - 1).now)
    else CameBack(events, n - 1)
  }

  lemma {:induction false} AgeIsKnown(events: seq<Event>, n: nat)
    requires n <= |events|
    ensures var c := After(events, n).cache;
            CameBack(events, n) == if c.ok then Some(c.at) else None
  {
    if n > 0 { AgeIsKnown(events, n - 1); }
  }

  /** The pass started last, if no reset has come since and it is not over. */
  predicate UnderWay(w: World) {
    w.passes != [] && w.passes[|w.passes| - 1].epoch == w.epoch && w.passes[|w.passes| - 1].result == None
  }

  lemma {:induction false} RunHolds(events: seq<Event>)
    ensures Inv(Play(INIT, events))
  {
    PlayKeeps(INIT, events);
  }

  lemma {:induction false} RefreshingIff(w: World)
    requires Inv(w)
    ensures w.cache.refreshing <==> UnderWay(w)
    ensures UnderWay(w) ==> Current(w, |w.passes| - 1) && w.cache.refreshAt == w.passes[|w.passes| - 1].started
  {
    var p := |w.passes| - 1;
    if UnderWay(w) { assert Current(w, p) && InFlight(w, p); }
    if q :| InFlight(w, q) { assert q == p; }
  }

  /**
   In every interleaving, a read starts a pass exactly if nothing has come back since the last reset or a TTL has gone
   by since it did, and no pass is under way or it is older than the force-after time. It is then the one under way.
   */
  lemma {:induction false} ReadStartsIff(events: seq<Event>)
    ensures var w := Play(INIT, events);
            var v, back := Step(w, Read), CameBack(events, |events|);
            if (back == None || w.now - back.value >= 5_000_000_000) &&
               (UnderWay(w) ==> w.now - w.passes[|w.passes| - 1].started > 60_000_000_000)
            then
              && |v.passes| == |w.passes| + 1 && w.passes <= v.passes && UnderWay(v) && v.passes[|w.passes|].started == w.now
              && v.cache.devs == w.cache.devs && v.cache.ok == w.cache.ok && v.cache.at == w.cache.at && v.commits == w.commits
            else v == w
  {
    hide Inv, InFlight, Current;
    var w := Play(INIT, events);
    PlayIsAfter(events, |events|);
    assert events[|events|..] == [];
    AgeIsKnown(events, |events|);
    RunHolds(events);
    RefreshingIff(w);
  }

  /** The pass that is under way commits when it comes back: readers get what it found, and nothing is under way. */
  lemma {:induction false} PassUnderWayCommits(events: seq<Event>, devs: Devices)
    requires UnderWay(Play(INIT, events))
    ensures var w := Play(INIT, events);
            var p := |w.passes| - 1;
            var v := Step(w, Finish(p, devs));
            v.cache.devs == devs && v.cache.ok && v.cache.at == w.now && v.commits == w.commits + [p] && !UnderWay(v)
  {
    hide Inv, InFlight;
    RunHolds(events);
    RefreshingIff(Play(INIT, events));
  }

  // Rate

  /** Any two starts without a reset between them: `n` steps apart in order, at least `n` TTLs apart in time. */
  lemma {:induction false} EnumerationRate(events: seq<Event>, p: nat, q: nat)
    requires var w := Play(INIT, events); p <= q < |w.passes| && w.passes[p].epoch == w.passes[q].epoch
    ensures var w := Play(INIT, events); w.passes[q].started - w.passes[p].started >= (q - p) * TTL
    decreases q
  {
    PlayKeeps(INIT, events);
    if p < q { EnumerationRate(events, p, q - 1); }
  }

  /** How many of the passes from `p` up to `q` never came back. */
  function Stuck(w: World, p: nat, q: nat): nat
    requires p <= q <= |w.passes|
    decreases q
  {
    if p == q then 0 else Stuck(w, p, q - 1) + if w.passes[q - 1].result == None then 1 else 0
  }

  /** Each pass that has been given up has cost more than the force-after time. */
  lemma {:induction false} StuckPassesAreRare(events: seq<Event>, p: nat, q: nat)
    requires var w := Play(INIT, events); p <= q < |w.passes| && w.passes[p].epoch == w.passes[q].epoch
    ensures var w := Play(INIT, events); w.passes[q].started - w.passes[p].started >= Stuck(w, p, q) * (FORCE_AFTER + 1)
    decreases q
  {
    PlayKeeps(INIT, events);
    if p < q { StuckPassesAreRare(events, p, q - 1); }
  }
}
