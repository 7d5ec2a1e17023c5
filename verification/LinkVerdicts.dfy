/**
 What a bring-up leaves behind when it is over, and what a reader of the status sees, in every interleaving of
 LinkServices.
 */
module LinkVerdicts {
  import opened Common
  import opened LinkServices

  /** The world after the first `n` events. */
  function After(events: seq<Event>, n: nat): World
    requires n <= |events|
  {
    if n == 0 then INIT else Step(After(events, n - 1), events[n - 1])
  }

  lemma {:induction false} PlayIsAfter(events: seq<Event>, n: nat)
    requires n <= |events|
    ensures Play(After(events, n), events[n..]) == Play(INIT, events)
  {
    if n == 0 {
      assert events[0..] == events;
    } else {
      assert events[n - 1..][1..] == events[n..];
      PlayIsAfter(events, n - 1);
    }
  }

  lemma {:induction false} PlayIsAfterAll(events: seq<Event>)
    ensures Play(INIT, events) == After(events, |events|)
  {
    PlayIsAfter(events, |events|);
    assert events[|events|..] == [];
  }

  // Return codes and cancellations, as events

  /** Event `i` is the return of run `r` with `rc`. */
  predicate Returns(events: seq<Event>, i: nat, r: nat, rc: int) {
    i < |events| && events[i] == Return(r, rc) && In(After(events, i), r, Running)
  }

  /** Event `i` is a Stop cancelling run `r`. */
  predicate Cancels(events: seq<Event>, i: nat, r: nat) {
    && i < |events| && events[i].Cancel?
    && var k, w := events[i].stop, After(events, i);
    k < |w.stops| && w.stops[k] == Captured(r) && r < |w.runs|
  }

  lemma {:induction false} ReturnedBack(w: World, e: Event, r: nat, rc: int)
    requires In(Step(w, e), r, Returned(rc))
    ensures In(w, r, Returned(rc)) || (e == Return(r, rc) && In(w, r, Running))
  {
  }

  lemma {:induction false} ReturnedBy(events: seq<Event>, n: nat, r: nat, rc: int)
    requires n <= |events| && In(After(events, n), r, Returned(rc))
    ensures exists i: nat :: i < n && Returns(events, i, r, rc)
  {
    hide Step;
    if n > 0 {
      var w, e := After(events, n - 1), events[n - 1];
      ReturnedBack(w, e, r, rc);
      if In(w, r, Returned(rc)) {
        ReturnedBy(events, n - 1, r, rc);
      } else {
        assert Returns(events, n - 1, r, rc);
      }
    }
  }

  lemma {:induction false} CancelledBack(w: World, e: Event, r: nat)
    requires r < |Step(w, e).runs|
    ensures Step(w, e).runs[r].cancelled <==>
      r < |w.runs| && (w.runs[r].cancelled || (e.Cancel? && e.stop < |w.stops| && w.stops[e.stop] == Captured(r)))
  {
  }

  lemma {:induction false} CancelledNow(events: seq<Event>, n: nat, r: nat)
    requires n < |events| && r < |After(events, n + 1).runs|
    ensures After(events, n + 1).runs[r].cancelled <==>
      (r < |After(events, n).runs| && After(events, n).runs[r].cancelled) || Cancels(events, n, r)
  {
    CancelledBack(After(events, n), events[n], r);
  }

  lemma {:induction false} NewRunsAreNotCancelled(events: seq<Event>, i: nat, n: nat, r: nat)
    requires n <= |events| && r >= |After(events, n).runs|
    ensures !(i < n && Cancels(events, i, r))
  {
    if i < n { RunsStay(events, i, n); }
  }

  lemma {:induction false} CancelledIff(events: seq<Event>, n: nat, r: nat)
    requires n <= |events| && r < |After(events, n).runs|
    ensures After(events, n).runs[r].cancelled <==> exists i: nat :: i < n && Cancels(events, i, r)
  {
    hide Step;
    if n > 0 {
      hide After, Cancels;
      CancelledNow(events, n - 1, r);
      if r < |After(events, n - 1).runs| {
        CancelledIff(events, n - 1, r);
      } else {
        forall i: nat | i < n - 1 ensures !Cancels(events, i, r) { NewRunsAreNotCancelled(events, i, n - 1, r); }
      }
    }
  }

  lemma {:induction false} RunsGrow(w: World, e: Event)
    ensures |w.runs| <= |Step(w, e).runs|
  {
  }

  lemma {:induction false} RunsStay(events: seq<Event>, i: nat, n: nat)
    requires i <= n <= |events|
    ensures |After(events, i).runs| <= |After(events, n).runs|
  {
    hide Step;
    if i < n {
      RunsStay(events, i, n - 1);
      RunsGrow(After(events, n - 1), events[n - 1]);
    }
  }

  // The verdict

  function GaveUp(): string { "gave up waiting for the power cycle; start the link again" }

  function SeeLog(): string { "bring-up failed; see the daemon log" }

  function LinkEnded(): string { "the link ended — the dongle was unplugged, or the bridge exited" }

  /** What `after` says of a run that returned `rc` while the status was `before`. */
  predicate Verdict(before: Status, after: Status, cancelled: bool, rc: int) {
    && after.ssid == before.ssid && after.attempts == before.attempts
    && (cancelled ==> after == before)
    && (!cancelled ==>
        && (after.state == Failed <==> rc != 0) && (after.state == Down <==> rc == 0)
        && (rc == 0 ==> after.detail == LinkEnded())
        && (rc != 0 && before.state == NeedsReplug ==> after.detail == GaveUp())
        && (rc != 0 && before.state != NeedsReplug && before.detail == "" ==> after.detail == SeeLog())
        && (rc != 0 && before.state != NeedsReplug && before.detail != "" ==> after.detail == before.detail))
  }

  lemma {:induction false} CompletedGivesVerdict(s: Service, cancelled: bool, rc: int)
    ensures var v := Completed(s, cancelled, rc);
            Verdict(s.status, v.status, cancelled, rc) && v.cancel == None && v.done == s.done && v.history == s.history
  {
  }

  /** The step that releases a run gives this verdict, clears the cancel function and changes nothing else. */
  lemma {:induction false} ReleaseGivesVerdict(w: World, r: nat, rc: int)
    requires In(w, r, Returned(rc))
    ensures var v := Step(w, Release(r));
            && Verdict(w.service.status, v.service.status, w.runs[r].cancelled, rc)
            && v.service.cancel == None && v.service.done == w.service.done && v.service.history == w.service.history
            && v.stops == w.stops && v.progress == w.progress && v.early == w.early
            && v.runs == w.runs[r := Run(Released, w.runs[r].cancelled)]
  {
    hide Completed, Verdict;
    CompletedGivesVerdict(w.service, w.runs[r].cancelled, rc);
  }

  lemma {:induction false} LogOnlyGrows(w: World, events: seq<Event>)
    ensures w.log <= Play(w, events).log
    decreases |events|
  {
    if events != [] {
      LogStep(w, events[0]);
      LogOnlyGrows(Step(w, events[0]), events[1..]);
    }
  }

  /** Who does not write does not change the status. */
  lemma {:induction false} SilentStep(w: World, e: Event)
    requires Step(w, e).log == w.log
    ensures Step(w, e).service.status == w.service.status
  {
  }

  lemma {:induction false} SilentPlay(w: World, events: seq<Event>)
    requires Play(w, events).log == w.log
    ensures Play(w, events).service.status == w.service.status
    decreases |events|
  {
    hide Step;
    if events != [] {
      LogStep(w, events[0]);
      LogOnlyGrows(Step(w, events[0]), events[1..]);
      SilentStep(w, events[0]);
      SilentPlay(Step(w, events[0]), events[1..]);
    }
  }

  /**
   In every interleaving, from the release of a run until somebody writes again, the status is its verdict: failed
   exactly if the run was not cancelled and did not return 0, down exactly if it was not cancelled and returned 0, with
   these texts; and a cancelled run has left the status as it was.
   */
  lemma {:induction false} VerdictStands(before: seq<Event>, r: nat, rc: int, after: seq<Event>)
    requires In(Play(INIT, before), r, Returned(rc))
    requires Play(INIT, before + [Release(r)] + after).log == Play(INIT, before + [Release(r)]).log
    ensures exists i: nat :: Returns(before, i, r, rc)
    ensures var cancelled := exists j: nat :: j < |before| && Cancels(before, j, r);
            Verdict(Play(INIT, before).service.status, Play(INIT, before + [Release(r)] + after).service.status, cancelled, rc)
  {
    hide Step, Verdict, Returns, Cancels;
    var w := Play(INIT, before);
    PlayIsAfterAll(before);
    ReturnedBy(before, |before|, r, rc);
    CancelledIff(before, |before|, r);
    ReleaseGivesVerdict(w, r, rc);
    PlayConcat(INIT, before, [Release(r)]);
    assert [Release(r)][1..] == [] && Play(w, [Release(r)]) == Play(Step(w, Release(r)), []);
    PlayConcat(INIT, before + [Release(r)], after);
    SilentPlay(Step(w, Release(r)), after);
  }

  // What a reader sees

  /** The last entry of the log is the state and the reason that are shown. */
  predicate LastWordShown(w: World) {
    w.log != [] ==>
      match w.log[|w.log| - 1]
      case Recorded(t, _) => w.service.status.state == t.to && w.service.status.detail == t.detail
      case Beside(state) => w.service.status.state == state
  }

  lemma {:induction false} StepShown(w: World, e: Event)
    requires LastWordShown(w)
    ensures LastWordShown(Step(w, e))
  {
  }

  lemma {:induction false} RunShown(w: World, events: seq<Event>)
    requires LastWordShown(w)
    ensures LastWordShown(Play(w, events))
    decreases |events|
  {
    if events != [] {
      StepShown(w, events[0]);
      RunShown(Step(w, events[0]), events[1..]);
    }
  }

  /** In every interleaving the status shows what was written last, by a run, by a Stop, or by a stray report. */
  lemma {:induction false} StatusIsTheLastWord(events: seq<Event>)
    ensures LastWordShown(Play(INIT, events))
  {
    RunShown(INIT, events);
  }

  /** A Start that finds no bring-up begins one; one that finds one changes nothing at all. */
  lemma {:induction false} StartClaims(events: seq<Event>, ssid: string)
    ensures var w := Play(INIT, events);
            var v := Step(w, CallStart(ssid));
            if exists r :: 0 <= r < |w.runs| && Active(w.runs[r]) then v == w
            else
              && v.service.status == Status(Flashing, "starting bring-up", ssid, |w.runs| + 1) && v.service.history == w.service.history
              && v.runs == w.runs + [Run(Launching, false)] && v.service.cancel == Some(|w.runs|) && v.service.done == Some(|w.runs|)
              && v.stops == w.stops && v.progress == w.progress
  {
    RunExclusive(INIT, events);
  }

  /** Only a Start that begins a bring-up changes the name of the network and the number of attempts. */
  lemma {:induction false} OnlyStartsRename(w: World, e: Event)
    ensures var old_, new_ := w.service.status, Step(w, e).service.status;
            if e.CallStart? && w.service.cancel == None then new_.ssid == e.ssid && new_.attempts == old_.attempts + 1
            else new_.ssid == old_.ssid && new_.attempts == old_.attempts
  {
  }

  /** The network named by the last Start, among the first `n` events, that began a bring-up. */
  function LastStarted(events: seq<Event>, n: nat): string
    requires n <= |events|
  {
    if n == 0 then ""
    else if events[n - 1].CallStart? && After(events, n - 1).service.cancel == None then events[n - 1].ssid
    else LastStarted(events, n - 1)
  }

  lemma {:induction false} SsidAfter(events: seq<Event>, n: nat)
    requires n <= |events|
    ensures After(events, n).service.status.ssid == LastStarted(events, n)
  {
    if n > 0 {
      SsidAfter(events, n - 1);
      OnlyStartsRename(After(events, n - 1), events[n - 1]);
    }
  }

  /** In every interleaving the status names the network of the bring-up that was begun last. */
  lemma {:induction false} SsidIsTheLastStarted(events: seq<Event>)
    ensures Play(INIT, events).service.status.ssid == LastStarted(events, |events|)
  {
    PlayIsAfterAll(events);
    SsidAfter(events, |events|);
  }

  /** A run that returns 0 says so, one that does not says nothing; a Stop that is done waiting says idle. */
  lemma {:induction false} LastReports(w: World, r: nat, rc: int, k: nat)
    ensures In(w, r, Running) ==>
      var s := Step(w, Return(r, rc)).service.status;
      s == if rc == 0 then w.service.status.(state := Up, detail := "link is up") else w.service.status
    ensures k < |w.stops| && w.stops[k].Reporting? ==>
      Step(w, SayIdle(k)).service.status == w.service.status.(state := Idle, detail := "stopped")
  {
  }
}
