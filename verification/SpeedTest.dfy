/**
 One transfer phase of pkg/ping/speedtest.go: three workers, an error channel with room for three,
 a goroutine that waits for the workers, and the loop that collects.
 */
module SpeedTests {
  import opened Common

  const WORKERS := 3
  const CAPACITY := 3
  const MIB := 1024 * 1024

  /** Where a worker is: before its loop, at the loop's test, awaiting a response, reading one, about to report an error, gone. */
  datatype At = Preparing | Testing | Requesting | Reading | Reporting | Gone

  /** `rest` is what is left of the response body the worker reads. */
  datatype Worker = Worker(at: At, reported: bool, added: nat, acked: nat, rest: nat)

  datatype Outcome = Interrupted | Failed(worker: nat) | NoData | Complete

  datatype Collector = Selecting | Draining | Ended(result: Outcome, count: nat)

  /**
   `phaseOver` and `runOver` are the two contexts, `channel` and `done` the two channels, `error` the
   collector's phaseErr. No response body is longer than `limit`.
   */
  datatype Phase = Phase(upload: bool, limit: nat, workers: seq<Worker>, transferred: nat, channel: seq<nat>, done: bool,
                         phaseOver: bool, runOver: bool, collector: Collector, error: Option<nat>)

  function Begin(upload: bool, limit: nat): Phase {
    var w := Worker(Preparing, false, 0, 0, 0);
    Phase(upload, limit, [w, w, w], 0, [], false, false, false, Selecting, None)
  }

  datatype Response = NoResponse | BadStatus | Good(length: nat)

  datatype ReadEnd = More | AtEnd | Broken

  datatype Event =
    | Prepare(w: nat, ok: bool)
    | Test(w: nat, ok: bool)
    | Respond(w: nat, r: Response)
    | Read(w: nat, n: nat, end: ReadEnd)
    | Report(w: nat)
    | CloseDone
    | PhaseTimeout
    | RunEnds
    | SeeContext
    | TakeError
    | SeeDone
    | Conclude

  predicate Is(p: Phase, w: nat, at: At) { w < |p.workers| && p.workers[w].at == at }

  function Move(p: Phase, w: nat, at: At): Phase
    requires w < |p.workers|
  {
    p.(workers := p.workers[w := p.workers[w].(at := at)])
  }

  /** A request or a read that failed is reported only while the phase lasts. */
  function GiveUp(p: Phase, w: nat): Phase
    requires w < |p.workers|
  {
    Move(p, w, if p.phaseOver then Gone else Reporting)
  }

  function Add(p: Phase, w: nat, n: nat, acks: nat): Phase
    requires w < |p.workers|
  {
    p.(transferred := p.transferred + n,
       workers := p.workers[w := p.workers[w].(added := p.workers[w].added + n, acked := p.workers[w].acked + acks)])
  }

  /** A response has come, with a body of `length` bytes. */
  function Open(p: Phase, w: nat, length: nat): Phase
    requires w < |p.workers|
  {
    p.(workers := p.workers[w := p.workers[w].(at := Reading, rest := length)])
  }

  /** `n` bytes of the response body have been read. */
  function Take(p: Phase, w: nat, n: nat): Phase
    requires w < |p.workers| && n <= p.workers[w].rest
  {
    p.(workers := p.workers[w := p.workers[w].(rest := p.workers[w].rest - n)])
  }

  /**
   A read returns `n` bytes, with or without an end. Whether the phase is over makes no difference to it:
   what has been received already is still returned without an error. Bytes of an upload count once the
   whole response has been read; a download's count as they come.
   */
  function AfterRead(p: Phase, w: nat, n: nat, end: ReadEnd): Phase
    requires w < |p.workers| && n <= p.workers[w].rest
  {
    var q := if p.upload then Take(p, w, n) else Add(Take(p, w, n), w, n, 0);
    match end
    case More => q
    case AtEnd => Move(if p.upload then Add(q, w, MIB, 1) else q, w, Testing)
    case Broken => GiveUp(q, w)
  }

  predicate AllGone(p: Phase) { forall w :: 0 <= w < |p.workers| ==> p.workers[w].at == Gone }

  function Verdict(p: Phase): Outcome {
    if p.runOver then Interrupted
    else if p.error.Some? then Failed(p.error.value)
    else if p.channel != [] then Failed(p.channel[0])
    else if p.transferred == 0 then NoData
    else Complete
  }

  function Step(p: Phase, e: Event): Phase {
    match e
    case Prepare(w, ok) => if !Is(p, w, Preparing) then p else Move(p, w, if p.upload && !ok then Reporting else Testing)
    case Test(w, ok) => if !Is(p, w, Testing) then p else Move(p, w, if p.phaseOver then Gone else if ok then Requesting else Reporting)
    case Respond(w, r) =>
      if !Is(p, w, Requesting) then p
      else (match r
            case NoResponse => GiveUp(p, w)
            case BadStatus => Move(p, w, Reporting)
            case Good(length) => if length <= p.limit then Open(p, w, length) else p)
    case Read(w, n, end) => if Is(p, w, Reading) && n <= p.workers[w].rest then AfterRead(p, w, n, end) else p
    case Report(w) =>
      if Is(p, w, Reporting) && |p.channel| < CAPACITY then
        p.(channel := p.channel + [w], workers := p.workers[w := p.workers[w].(at := Gone, reported := true)])
      else p
    case CloseDone => if AllGone(p) then p.(done := true) else p
    case PhaseTimeout => p.(phaseOver := true)
    case RunEnds => p.(phaseOver := true, runOver := true)
    case SeeContext => if p.collector.Selecting? && p.phaseOver then p.(collector := Draining) else p
    case TakeError =>
      if p.collector.Selecting? && p.channel != [] then
        p.(error := Some(p.channel[0]), channel := p.channel[1..], phaseOver := true, collector := Draining)
      else p
    case SeeDone => if p.collector.Selecting? && p.done then p.(phaseOver := true, collector := Draining) else p
    case Conclude => if p.collector.Draining? && p.done then p.(collector := Ended(Verdict(p), p.transferred)) else p
  }

  function Play(p: Phase, events: seq<Event>): Phase
    decreases |events|
  {
    if events == [] then p else Play(Step(p, events[0]), events[1..])
  }

  // The workers' and the collector's code

  /** What transferPhase's goroutines share, and the bodies they read. */
  class TransferPhase {
    const upload: bool
    const limit: nat
    var workers: seq<Worker>
    var transferred: nat
    var channel: seq<nat>
    var done: bool
    var phaseOver: bool
    var runOver: bool
    var collector: Collector
    var error: Option<nat>

    function View(): Phase
      reads this
    {
      Phase(upload, limit, workers, transferred, channel, done, phaseOver, runOver, collector, error)
    }

    constructor (upload: bool, limit: nat)
      ensures View() == Begin(upload, limit)
    {
      this.upload, this.limit := upload, limit;
      var w := Worker(Preparing, false, 0, 0, 0);
      workers, transferred, channel, done := [w, w, w], 0, [], false;
      phaseOver, runOver, collector, error := false, false, Selecting, None;
    }

    /** `transferred.Add`, noted for the worker as well. */
    method AddBytes(w: nat, n: nat)
      requires w < |workers|
      modifies this`transferred, this`workers
      ensures View() == Add(old(View()), w, n, 0)
    {
      transferred := transferred + n;
      workers := workers[w := workers[w].(added := workers[w].added + n)];
    }

    /** resp.Body.Read, as far as the body is concerned. */
    method ReadBody(w: nat, n: nat)
      requires w < |workers| && n <= workers[w].rest
      modifies this`workers
      ensures View() == Take(old(View()), w, n)
    {
      workers := workers[w := workers[w].(rest := workers[w].rest - n)];
    }

    /** One read of a download that brings no end, during the phase or after it. */
    method ReadChunk(w: nat, n: nat)
      requires Is(View(), w, Reading) && !upload && n <= workers[w].rest
      modifies this`transferred, this`workers
      ensures View() == Step(old(View()), Read(w, n, More))
      ensures View() == Add(Take(old(View()), w, n), w, n, 0)
    {
      ReadBody(w, n);
      AddBytes(w, n);
    }

    /** A worker's send on the error channel, which blocks when three errors are waiting. */
    method SendError(w: nat)
      requires Is(View(), w, Reporting) && |channel| < CAPACITY
      modifies this`channel, this`workers
      ensures View() == Step(old(View()), Report(w))
    {
      channel := channel + [w];
      workers := workers[w := workers[w].(at := Gone, reported := true)];
    }

    /** What a worker does with a response. */
    method TakeResponse(w: nat, r: Response)
      requires Is(View(), w, Requesting) && (r.Good? ==> r.length <= limit)
      modifies this`workers
      ensures View() == Step(old(View()), Respond(w, r))
    {
      match r {
        case NoResponse => workers := workers[w := workers[w].(at := if phaseOver then Gone else Reporting)];
        case BadStatus => workers := workers[w := workers[w].(at := Reporting)];
        case Good(length) => workers := workers[w := workers[w].(at := Reading, rest := length)];
      }
    }

    /** Reading a download: every chunk counts, also the one that comes with the end or the error. */
    method Download(w: nat, chunks: seq<nat>, end: ReadEnd)
      requires Is(View(), w, Reading) && !upload && chunks != [] && end != More && Total(chunks) <= workers[w].rest
      modifies this`transferred, this`workers
      ensures View() == Play(old(View()), ChunkEvents(w, chunks, end))
    {
      var i := 0;
      while i < |chunks| - 1
        invariant 0 <= i <= |chunks| - 1
        invariant Is(View(), w, Reading) && Total(chunks[i..]) <= workers[w].rest
        invariant Play(View(), ChunkEvents(w, chunks[i..], end)) == Play(old(View()), ChunkEvents(w, chunks, end))
      {
        assert chunks[i..][1..] == chunks[i + 1..];
        PlayFirst(View(), Read(w, chunks[i], More), ChunkEvents(w, chunks[i + 1..], end));
        ReadChunk(w, chunks[i]);
        i := i + 1;
      }
      assert chunks[i..] == [chunks[i]];
      PlayFirst(View(), Read(w, chunks[i], end), []);
      ReadChunk(w, chunks[i]);
      workers := workers[w := workers[w].(at := if end == AtEnd then Testing else if phaseOver then Gone else Reporting)];
    }

    /** One turn of the select loop: the context, an error, or the end of the workers, whichever is ready and chosen. */
    method Select(choice: Event)
      requires choice == SeeContext || choice == TakeError || choice == SeeDone
      modifies this
      ensures View() == Step(old(View()), choice)
    {
      if !collector.Selecting? { return; }
      match choice {
        case SeeContext => if !phaseOver { return; }
        case TakeError =>
          if channel == [] { return; }
          error, channel := Some(channel[0]), channel[1..];
        case SeeDone => if !done { return; }
      }
      phaseOver, collector := true, Draining;
    }

    /** After the select loop: everything is over, so what the channel holds is all there is. */
    method Finish() returns (result: Outcome)
      requires collector.Draining? && done
      modifies this`collector
      ensures View() == Step(old(View()), Conclude) && collector == Ended(result, transferred)
    {
      if runOver {
        result := Interrupted;
      } else {
        var err := error;
        if err == None && channel != [] { err := Some(channel[0]); }
        if err.Some? {
          result := Failed(err.value);
        } else if transferred == 0 {
          result := NoData;
        } else {
          result := Complete;
        }
      }
      collector := Ended(result, transferred);
    }
  }

  function Total(chunks: seq<nat>): nat
    decreases |chunks|
  {
    if chunks == [] then 0 else chunks[0] + Total(chunks[1..])
  }

  function ChunkEvents(w: nat, chunks: seq<nat>, end: ReadEnd): seq<Event>
    requires chunks != []
    decreases |chunks|
  {
    if |chunks| == 1 then [Read(w, chunks[0], end)] else [Read(w, chunks[0], More)] + ChunkEvents(w, chunks[1..], end)
  }

  lemma PlayFirst(p: Phase, e: Event, rest: seq<Event>)
    ensures Play(p, [e] + rest) == Play(Step(p, e), rest)
    ensures Play(p, []) == p && [e] + [] == [e]
  {
    assert ([e] + rest)[1..] == rest;
  }

  // What holds in every interleaving

  /** How many of the first `n` workers have reported. */
  function Reports(p: Phase, n: nat): nat
    requires n <= |p.workers|
  {
    if n == 0 then 0 else Reports(p, n - 1) + if p.workers[n - 1].reported then 1 else 0
  }

  function Added(p: Phase, n: nat): nat
    requires n <= |p.workers|
  {
    if n == 0 then 0 else Added(p, n - 1) + p.workers[n - 1].added
  }

  /** Reports are in the channel or taken out of it; a worker that has reported is gone. */
  predicate Inv(p: Phase) {
    && |p.workers| == WORKERS
    && (forall w :: 0 <= w < WORKERS && p.workers[w].reported ==> p.workers[w].at == Gone)
    && (forall w :: 0 <= w < WORKERS && p.upload ==> p.workers[w].added == MIB * p.workers[w].acked)
    && |p.channel| + (if p.error.Some? then 1 else 0) == Reports(p, WORKERS)
    && p.transferred == Added(p, WORKERS)
    && (p.done ==> AllGone(p))
    && (!p.collector.Selecting? ==> p.phaseOver)
    && (p.error.Some? ==> !p.collector.Selecting?)
    && (p.collector.Ended? ==> p.done && p.collector.count == p.transferred)
  }

  lemma ThreeWorkers(p: Phase)
    requires |p.workers| == WORKERS
    ensures Reports(p, WORKERS) == (if p.workers[0].reported then 1 else 0) + (if p.workers[1].reported then 1 else 0) + (if p.workers[2].reported then 1 else 0)
    ensures Added(p, WORKERS) == p.workers[0].added + p.workers[1].added + p.workers[2].added
  {
    assert Reports(p, 3) == Reports(p, 2) + (if p.workers[2].reported then 1 else 0);
    assert Reports(p, 1) == if p.workers[0].reported then 1 else 0;
    assert Added(p, 3) == Added(p, 2) + p.workers[2].added;
    assert Added(p, 1) == p.workers[0].added;
  }

  lemma MoveKeeps(p: Phase, w: nat, at: At)
    requires Inv(p) && w < WORKERS && p.workers[w].at != Gone
    ensures Inv(Move(p, w, at))
  {
    ThreeWorkers(p);
    ThreeWorkers(Move(p, w, at));
  }

  lemma AddKeeps(p: Phase, w: nat, n: nat, acks: nat)
    requires Inv(p) && Is(p, w, Reading) && (p.upload ==> n == MIB * acks)
    ensures Inv(Add(p, w, n, acks)) && Add(p, w, n, acks).workers[w].at == p.workers[w].at
  {
    ThreeWorkers(p);
    ThreeWorkers(Add(p, w, n, acks));
  }

  lemma TakeKeeps(p: Phase, w: nat, n: nat)
    requires Inv(p) && Is(p, w, Reading) && n <= p.workers[w].rest
    ensures Inv(Take(p, w, n)) && Is(Take(p, w, n), w, Reading)
  {
    ThreeWorkers(p);
    ThreeWorkers(Take(p, w, n));
  }

  lemma OpenKeeps(p: Phase, w: nat, length: nat)
    requires Inv(p) && Is(p, w, Requesting)
    ensures Inv(Open(p, w, length))
  {
    ThreeWorkers(p);
    ThreeWorkers(Open(p, w, length));
  }

  lemma ReadKeeps(p: Phase, w: nat, n: nat, end: ReadEnd)
    requires Inv(p) && Is(p, w, Reading) && n <= p.workers[w].rest
    ensures Inv(AfterRead(p, w, n, end))
  {
    var q := Take(p, w, n);
    TakeKeeps(p, w, n);
    if p.upload {
      AddKeeps(q, w, MIB, 1);
      MoveKeeps(Add(q, w, MIB, 1), w, Testing);
      MoveKeeps(q, w, if p.phaseOver then Gone else Reporting);
    } else {
      AddKeeps(q, w, n, 0);
      MoveKeeps(Add(q, w, n, 0), w, Testing);
      MoveKeeps(Add(q, w, n, 0), w, if p.phaseOver then Gone else Reporting);
    }
  }

  lemma ReportKeeps(p: Phase, w: nat)
    requires Inv(p) && Is(p, w, Reporting)
    ensures Inv(Step(p, Report(w)))
  {
    ThreeWorkers(p);
    ThreeWorkers(Step(p, Report(w)));
  }

  /** The counts do not depend on what the collector does. */
  lemma SameWorkers(p: Phase, q: Phase)
    requires |p.workers| == WORKERS && q.workers == p.workers
    ensures Reports(q, WORKERS) == Reports(p, WORKERS) && Added(q, WORKERS) == Added(p, WORKERS)
  {
    ThreeWorkers(p);
    ThreeWorkers(q);
  }

  lemma CollectorKeeps(p: Phase, e: Event)
    requires Inv(p) && !(e.Prepare? || e.Test? || e.Respond? || e.Read? || e.Report?)
    ensures Inv(Step(p, e)) && Step(p, e).workers == p.workers
  {
    SameWorkers(p, Step(p, e));
  }

  lemma StepKeeps(p: Phase, e: Event)
    requires Inv(p)
    ensures Inv(Step(p, e))
  {
    match e
    case Prepare(w, ok) =>
      if Is(p, w, Preparing) { MoveKeeps(p, w, if p.upload && !ok then Reporting else Testing); }
    case Test(w, ok) =>
      if Is(p, w, Testing) { MoveKeeps(p, w, if p.phaseOver then Gone else if ok then Requesting else Reporting); }
    case Respond(w, r) =>
      if Is(p, w, Requesting) {
        match r
        case NoResponse => MoveKeeps(p, w, if p.phaseOver then Gone else Reporting);
        case BadStatus => MoveKeeps(p, w, Reporting);
        case Good(length) => OpenKeeps(p, w, length);
      }
    case Read(w, n, end) =>
      if Is(p, w, Reading) && n <= p.workers[w].rest { ReadKeeps(p, w, n, end); }
    case Report(w) =>
      if Is(p, w, Reporting) { ReportKeeps(p, w); }
    case _ => CollectorKeeps(p, e);
  }

  lemma {:induction false} PlayKeeps(p: Phase, events: seq<Event>)
    requires Inv(p)
    ensures Inv(Play(p, events))
    decreases |events|
  {
    if events != [] {
      StepKeeps(p, events[0]);
      PlayKeeps(Step(p, events[0]), events[1..]);
    }
  }

  lemma BeginHolds(upload: bool, limit: nat)
    ensures Inv(Begin(upload, limit))
  {
    ThreeWorkers(Begin(upload, limit));
  }

  /** In every interleaving the channel has room whenever a worker wants to report: no worker ever blocks. */
  lemma ReportNeverBlocks(upload: bool, limit: nat, events: seq<Event>, w: nat)
    requires Is(Play(Begin(upload, limit), events), w, Reporting)
    ensures Is(Step(Play(Begin(upload, limit), events), Report(w)), w, Gone)
  {
    BeginHolds(upload, limit);
    PlayKeeps(Begin(upload, limit), events);
    ThreeWorkers(Play(Begin(upload, limit), events));
  }

  /** The final count is the sum of what the workers added; for an upload 1 MiB for each acknowledged payload. */
  lemma CountIsExact(upload: bool, limit: nat, events: seq<Event>)
    ensures var p := Play(Begin(upload, limit), events);
            && |p.workers| == 3 && p.transferred == p.workers[0].added + p.workers[1].added + p.workers[2].added
            && (upload ==> p.transferred == MIB * (p.workers[0].acked + p.workers[1].acked + p.workers[2].acked))
            && (p.collector.Ended? ==> p.collector.count == p.transferred)
  {
    BeginHolds(upload, limit);
    PlayKeeps(Begin(upload, limit), events);
    UploadStays(Begin(upload, limit), events);
    ThreeWorkers(Play(Begin(upload, limit), events));
  }

  lemma {:induction false} UploadStays(p: Phase, events: seq<Event>)
    ensures Play(p, events).upload == p.upload
    decreases |events|
  {
    if events != [] { UploadStays(Step(p, events[0]), events[1..]); }
  }

  /** The result, when it is given: a failure exactly if some worker has reported one, unless the run was interrupted. */
  lemma VerdictIsRight(upload: bool, limit: nat, events: seq<Event>)
    requires var p := Play(Begin(upload, limit), events); p.collector.Draining? && p.done
    ensures var p := Play(Begin(upload, limit), events);
            var r := Step(p, Conclude).collector.result;
            && (r == Interrupted <==> p.runOver)
            && (r.Failed? <==> !p.runOver && exists w :: 0 <= w < |p.workers| && p.workers[w].reported)
            && (r == NoData ==> p.transferred == 0) && (r == Complete ==> p.transferred > 0)
  {
    BeginHolds(upload, limit);
    PlayKeeps(Begin(upload, limit), events);
    ThreeWorkers(Play(Begin(upload, limit), events));
  }

  // No deadlock

  /** Steps a worker may still take once the phase is over, counting a read for each byte left of its response. */
  function Rank(x: Worker, limit: nat): nat {
    match x.at
    case Gone => 0
    case Testing => 1
    case Reporting => 1
    case Reading => 2 + x.rest
    case Preparing => 2
    case Requesting => 3 + limit
  }

  function Ranks(p: Phase): nat
    requires |p.workers| == WORKERS
  {
    Rank(p.workers[0], p.limit) + Rank(p.workers[1], p.limit) + Rank(p.workers[2], p.limit)
  }

  function Left(p: Phase): nat
    requires |p.workers| == WORKERS
  {
    Ranks(p) + (if p.done then 0 else 1) + (match p.collector case Selecting => 2 case Draining => 1 case Ended(_, _) => 0)
  }

  /** A worker that moves on moves down. */
  lemma WorkerCounts(p: Phase, q: Phase, w: nat)
    requires |p.workers| == |q.workers| == WORKERS && w < WORKERS
    requires q.workers == p.workers[w := q.workers[w]] && Rank(q.workers[w], p.limit) < Rank(p.workers[w], p.limit)
    requires q.limit == p.limit && q.done == p.done && q.collector == p.collector
    ensures Left(q) < Left(p)
  {
  }

  lemma ReadCounts(p: Phase, w: nat, n: nat, end: ReadEnd)
    requires |p.workers| == WORKERS && p.phaseOver && Is(p, w, Reading) && n <= p.workers[w].rest && AfterRead(p, w, n, end) != p
    ensures |AfterRead(p, w, n, end).workers| == WORKERS && Left(AfterRead(p, w, n, end)) < Left(p)
  {
    WorkerCounts(p, AfterRead(p, w, n, end), w);
  }

  lemma WorkerStepCounts(p: Phase, e: Event)
    requires |p.workers| == WORKERS && p.phaseOver && Step(p, e) != p
    requires e.Prepare? || e.Test? || e.Respond? || e.Report?
    ensures |Step(p, e).workers| == WORKERS && Left(Step(p, e)) < Left(p)
  {
    WorkerCounts(p, Step(p, e), e.w);
  }

  lemma CollectorStepCounts(p: Phase, e: Event)
    requires |p.workers| == WORKERS && p.phaseOver && e != RunEnds && Step(p, e) != p
    requires !(e.Prepare? || e.Test? || e.Respond? || e.Read? || e.Report?)
    ensures Step(p, e).workers == p.workers && Left(Step(p, e)) < Left(p)
  {
  }

  /** Once the phase is over, every step but the end of the whole run brings it nearer to its end. */
  lemma EveryStepCounts(p: Phase, e: Event)
    requires Inv(p) && p.phaseOver && e != RunEnds && Step(p, e) != p
    ensures |Step(p, e).workers| == WORKERS && Left(Step(p, e)) < Left(p)
  {
    if e.Read? { ReadCounts(p, e.w, e.n, e.end); }
    else if e.Prepare? || e.Test? || e.Respond? || e.Report? { WorkerStepCounts(p, e); }
    else { CollectorStepCounts(p, e); }
  }

  function WorkerEvent(p: Phase, w: nat): Event
    requires w < |p.workers|
  {
    match p.workers[w].at
    case Preparing => Prepare(w, true)
    case Testing => Test(w, true)
    case Requesting => Respond(w, NoResponse)
    case Reading => Read(w, 0, Broken)
    case _ => Report(w)
  }

  /** The step that is possible in any state whose phase is over and not yet ended. */
  function NextEvent(p: Phase): Event
    requires |p.workers| == WORKERS
  {
    if !AllGone(p) then WorkerEvent(p, if p.workers[0].at != Gone then 0 else if p.workers[1].at != Gone then 1 else 2)
    else if !p.done then CloseDone
    else if p.collector.Selecting? then SeeDone
    else Conclude
  }

  /** A worker that is not gone can always go on: there is room for its report. */
  lemma WorkerCanMove(p: Phase, w: nat)
    requires Inv(p) && p.phaseOver && w < WORKERS && p.workers[w].at != Gone
    ensures Step(p, WorkerEvent(p, w)).workers[w].at != p.workers[w].at
  {
    ThreeWorkers(p);
  }

  lemma NoDeadlock(p: Phase)
    requires Inv(p) && p.phaseOver && !p.collector.Ended?
    ensures Step(p, NextEvent(p)) != p && NextEvent(p) != RunEnds
  {
    if !AllGone(p) {
      var w := if p.workers[0].at != Gone then 0 else if p.workers[1].at != Gone then 1 else 2;
      WorkerCanMove(p, w);
    }
  }

  /** From every reachable state, once the phase is over, the phase ends, and within `Left` further steps. */
  lemma {:induction false} PhaseEnds(p: Phase) returns (events: seq<Event>)
    requires Inv(p) && p.phaseOver
    ensures |events| <= Left(p) && Play(p, events).collector.Ended?
    decreases Left(p)
  {
    if p.collector.Ended? {
      events := [];
    } else {
      var e := NextEvent(p);
      NoDeadlock(p);
      EveryStepCounts(p, e);
      StepKeeps(p, e);
      var rest := PhaseEnds(Step(p, e));
      PlayFirst(p, e, rest);
      events := [e] + rest;
    }
  }
}

/** What a transfer phase of SpeedTests counts and when it fails, told by the reads and the failures themselves. */
module SpeedRuns {
  import opened Common
  import opened SpeedTests

  /** The phase after the first `n` events. */
  function After(p: Phase, events: seq<Event>, n: nat): Phase
    requires n <= |events|
  {
    if n == 0 then p else Step(After(p, events, n - 1), events[n - 1])
  }

  lemma {:induction false} PlayIsAfter(p: Phase, events: seq<Event>, n: nat)
    requires n <= |events|
    ensures Play(After(p, events, n), events[n..]) == Play(p, events)
  {
    if n == 0 {
      assert events[0..] == events;
    } else {
      assert events[n - 1..][1..] == events[n..];
      PlayIsAfter(p, events, n - 1);
    }
  }

  lemma {:induction false} PlayIsAfterAll(p: Phase, events: seq<Event>)
    ensures Play(p, events) == After(p, events, |events|)
  {
    PlayIsAfter(p, events, |events|);
    assert events[|events|..] == [];
  }

  // Counting

  /** A read that takes place: its worker is reading, and the body has that much left. */
  predicate Reads(p: Phase, e: Event) { e.Read? && Is(p, e.w, Reading) && e.n <= p.workers[e.w].rest }

  /** The bytes of all reads among the first `n` events, the last read of a body included, whatever ends it. */
  function BytesRead(p: Phase, events: seq<Event>, n: nat): nat
    requires n <= |events|
  {
    if n == 0 then 0
    else BytesRead(p, events, n - 1) + if Reads(After(p, events, n - 1), events[n - 1]) then events[n - 1].n else 0
  }

  /** How many responses have been read to their end. */
  function ReadToTheEnd(p: Phase, events: seq<Event>, n: nat): nat
    requires n <= |events|
  {
    if n == 0 then 0
    else ReadToTheEnd(p, events, n - 1) + if Reads(After(p, events, n - 1), events[n - 1]) && events[n - 1].end == AtEnd then 1 else 0
  }

  lemma {:induction false} AfterReadCounts(p: Phase, w: nat, n: nat, end: ReadEnd)
    requires w < |p.workers| && n <= p.workers[w].rest
    ensures var q := AfterRead(p, w, n, end);
            q.upload == p.upload && q.transferred - p.transferred == if !p.upload then n else if end == AtEnd then 1_048_576 else 0
  {
  }

  /** Only a read counts: its bytes in a download, one payload at its end in an upload. */
  lemma {:induction false} StepCounts(p: Phase, e: Event)
    ensures Step(p, e).upload == p.upload
    ensures Step(p, e).transferred - p.transferred ==
              if !Reads(p, e) then 0
              else if !p.upload then e.n
              else if e.end == AtEnd then 1_048_576 else 0
  {
    hide AfterRead;
    if Reads(p, e) { AfterReadCounts(p, e.w, e.n, e.end); }
  }

  lemma {:induction false} CountedAfter(p: Phase, events: seq<Event>, n: nat)
    requires n <= |events|
    ensures var q := After(p, events, n);
            && q.upload == p.upload
            && q.transferred == p.transferred + if p.upload then 1_048_576 * ReadToTheEnd(p, events, n) else BytesRead(p, events, n)
  {
    hide Step;
    if n > 0 {
      CountedAfter(p, events, n - 1);
      StepCounts(After(p, events, n - 1), events[n - 1]);
    }
  }

  /**
   In every interleaving a download has counted every byte that was read and nothing else, an upload 1 MiB for every
   response that was read to its end; and that is the count of the result.
   */
  lemma {:induction false} CountIsWhatWasRead(upload: bool, limit: nat, events: seq<Event>)
    ensures var p, first := Play(Begin(upload, limit), events), Begin(upload, limit);
            && p.transferred == (if upload then 1_048_576 * ReadToTheEnd(first, events, |events|) else BytesRead(first, events, |events|))
            && (p.collector.Ended? ==> p.collector.count == p.transferred)
  {
    PlayIsAfterAll(Begin(upload, limit), events);
    CountedAfter(Begin(upload, limit), events, |events|);
    CountIsExact(upload, limit, events);
  }

  // Failing

  /**
   A worker's call fails: an upload cannot be prepared, a request cannot be made, the answer has a bad status; and while
   the phase lasts, there is no answer or a read breaks off.
   */
  predicate Fails(p: Phase, e: Event) {
    match e
    case Prepare(w, ok) => Is(p, w, Preparing) && p.upload && !ok
    case Test(w, ok) => Is(p, w, Testing) && !p.phaseOver && !ok
    case Respond(w, r) => Is(p, w, Requesting) && (r == BadStatus || (r == NoResponse && !p.phaseOver))
    case Read(_, _, end) => Reads(p, e) && end == Broken && !p.phaseOver
    case _ => false
  }

  /** A worker that is about to report, or has. */
  predicate Troubled(x: Worker) { x.at == Reporting || x.reported }

  predicate SomeTroubled(p: Phase)
    requires |p.workers| == 3
  {
    Troubled(p.workers[0]) || Troubled(p.workers[1]) || Troubled(p.workers[2])
  }

  lemma {:induction false} AfterReadTroubles(p: Phase, w: nat, n: nat, end: ReadEnd, x: nat)
    requires |p.workers| == 3 && Is(p, w, Reading) && n <= p.workers[w].rest && x < 3
    ensures |AfterRead(p, w, n, end).workers| == 3
    ensures Troubled(AfterRead(p, w, n, end).workers[x]) <==> Troubled(p.workers[x]) || (x == w && end == Broken && !p.phaseOver)
  {
  }

  lemma {:induction false} WorkerTroubles(p: Phase, e: Event, x: nat)
    requires Inv(p) && x < 3
    ensures |Step(p, e).workers| == 3
    ensures Troubled(Step(p, e).workers[x]) <==>
              Troubled(p.workers[x]) || ((e.Prepare? || e.Test? || e.Respond? || e.Read?) && e.w == x && Fails(p, e))
  {
    hide Reports, Added, AfterRead;
    if Reads(p, e) { AfterReadTroubles(p, e.w, e.n, e.end, x); }
  }

  /** Trouble comes from a failing call, and does not go away. */
  lemma {:induction false} StepTroubles(p: Phase, e: Event)
    requires Inv(p)
    ensures |Step(p, e).workers| == 3 && (SomeTroubled(Step(p, e)) <==> SomeTroubled(p) || Fails(p, e))
  {
    hide Reports, Added, Step, Troubled;
    WorkerTroubles(p, e, 0);
    WorkerTroubles(p, e, 1);
    WorkerTroubles(p, e, 2);
  }

  predicate FailsAt(p: Phase, events: seq<Event>, i: nat) { i < |events| && Fails(After(p, events, i), events[i]) }

  lemma {:induction false} InvAfter(upload: bool, limit: nat, events: seq<Event>, n: nat)
    requires n <= |events|
    ensures Inv(After(Begin(upload, limit), events, n))
  {
    if n == 0 {
      BeginHolds(upload, limit);
    } else {
      hide Inv, Step;
      InvAfter(upload, limit, events, n - 1);
      StepKeeps(After(Begin(upload, limit), events, n - 1), events[n - 1]);
    }
  }

  lemma {:induction false} NoTroubleYet(upload: bool, limit: nat)
    ensures !SomeTroubled(Begin(upload, limit))
  {
  }

  lemma {:induction false} TroubledIff(upload: bool, limit: nat, events: seq<Event>, n: nat)
    requires n <= |events|
    ensures |After(Begin(upload, limit), events, n).workers| == 3
    ensures SomeTroubled(After(Begin(upload, limit), events, n)) <==> exists i: nat :: i < n && FailsAt(Begin(upload, limit), events, i)
  {
    hide Step, SomeTroubled, Fails, Reports, Added;
    var p := Begin(upload, limit);
    if n == 0 {
      NoTroubleYet(upload, limit);
    } else {
      hide Inv;
      InvAfter(upload, limit, events, n - 1);
      TroubledIff(upload, limit, events, n - 1);
      StepTroubles(After(p, events, n - 1), events[n - 1]);
      assert FailsAt(p, events, n - 1) <==> Fails(After(p, events, n - 1), events[n - 1]);
    }
  }

  /** The result is a failure exactly if some worker's call has failed, unless the run was interrupted. */
  lemma {:induction false} FailedIff(upload: bool, limit: nat, events: seq<Event>)
    requires var p := Play(Begin(upload, limit), events); p.collector.Draining? && p.done
    ensures var p := Play(Begin(upload, limit), events);
            var r := Step(p, Conclude).collector.result;
            r.Failed? <==> !p.runOver && exists i: nat :: FailsAt(Begin(upload, limit), events, i)
  {
    hide Step, Fails, Verdict;
    var first, p := Begin(upload, limit), Play(Begin(upload, limit), events);
    PlayIsAfterAll(first, events);
    InvAfter(upload, limit, events, |events|);
    TroubledIff(upload, limit, events, |events|);
    VerdictIsRight(upload, limit, events);
  }
}
