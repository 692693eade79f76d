/** What exactly the rate limiter keeps from a webhook: which events are delivered, and when its view is wrong. */
module Limiter {
  import opened Seqs
  import opened Alert
  import AlertRuns
  import opened Notify
  import opened Recovery

  // ------------------------------------------------------------------------------------------
  // Deliveries of one stream

  // The stream has been quiet for the interval, or has never been heard of.
  predicate Quiet(delivered: seq<Event>, minInterval: int, ev: Event) {
    delivered == [] || ev.at - delivered[|delivered| - 1].at >= minInterval
  }

  // The events of a stream that get past the limiter.
  function Limit(evs: seq<Event>, minInterval: int): seq<Event> {
    if |evs| == 0 then []
    else
      var sent, ev := Limit(evs[..|evs| - 1], minInterval), evs[|evs| - 1];
      if ev.kind == Cleared || Quiet(sent, minInterval, ev) then sent + [ev] else sent
  }

  // Without failures a webhook's deliveries of a stream are what the limiter lets through of what it has taken.
  lemma {:induction false} DeliveredIsLimited(c: Policy, minLevel: Level, steps: seq<Step>, id: Stream)
    requires c.minInterval > 0 && NoFailure(steps)
    ensures var j := Run(c, minLevel, steps);
            EventsOf(j.delivered, id) == Limit(EventsOf(j.taken, id), c.minInterval)
  {
    if |steps| == 0 {
    } else {
      var init, step := steps[..|steps| - 1], steps[|steps| - 1];
      var j := Run(c, minLevel, init);
      DeliveredIsLimited(c, minLevel, init, id);
      if step.Take? && j.worker.queue != [] {
        FiringsAreSpaced(c, minLevel, init, j.worker.queue[0].id);
        assert Next(j, c, step) == Next(j, c, Take(Delivered));
        TakeIsLimited(j, c, id);
      }
    }
  }

  lemma LimitSnoc(evs: seq<Event>, ev: Event, minInterval: int)
    ensures var sent := Limit(evs, minInterval);
            Limit(evs + [ev], minInterval)
            == if ev.kind == Cleared || Quiet(sent, minInterval, ev) then sent + [ev] else sent
  {
    assert (evs + [ev])[..|evs|] == evs;
  }

  // What the worker's table of last deliveries decides is decided by the deliveries themselves.
  lemma SendsWhenQuiet(w: Worker, c: Policy, ev: Event, sent: seq<Event>)
    requires c.minInterval > 0 && LimiterKnows(w.lastSent, sent, ev.id)
    ensures Sends(w, c, ev, Delivered) <==> ev.kind == Cleared || Quiet(sent, c.minInterval, ev)
  {
  }

  lemma TakeIsLimited(j: Journal, c: Policy, id: Stream)
    requires c.minInterval > 0 && j.worker.queue != []
    requires Limited(j, c.minInterval, j.worker.queue[0].id)
    requires EventsOf(j.delivered, id) == Limit(EventsOf(j.taken, id), c.minInterval)
    ensures var j' := Next(j, c, Take(Delivered));
            EventsOf(j'.delivered, id) == Limit(EventsOf(j'.taken, id), c.minInterval)
  {
    var ev, w' := j.worker.queue[0], j.worker.(queue := j.worker.queue[1..]);
    var taken, sent := EventsOf(j.taken, id), EventsOf(j.delivered, id);
    SendsWhenQuiet(w', c, ev, EventsOf(j.delivered, ev.id));
    EventsOfSnoc(j.taken, ev, id);
    EventsOfSnoc(j.delivered, ev, id);
    LimitSnoc(taken, ev, c.minInterval);
    hide EventsOf, Limited, Limit, Quiet, Sends, Dispatch;
    assert taken + [] == taken && sent + [] == sent;
  }

  // ------------------------------------------------------------------------------------------
  // When the view is right

  predicate Below(ev: Event, minLevel: Level) {
    Severity(ev.dst) < Severity(minLevel)
  }

  // No event from i on brings the stream below the minimum.
  ghost predicate StaysUp(evs: seq<Event>, i: nat, minLevel: Level) {
    forall k :: i <= k < |evs| ==> !Below(evs[k], minLevel)
  }

  // evs[b] is the last event that brought the stream below the minimum.
  ghost predicate LastBelow(evs: seq<Event>, b: nat, minLevel: Level) {
    b < |evs| && Below(evs[b], minLevel) && StaysUp(evs, b + 1, minLevel)
  }

  // Some event since the stream was last brought below the minimum is one the limiter cannot have kept from the
  // webhook: a clearing, or one that came at least the interval after that.
  ghost predicate Heard(evs: seq<Event>, minLevel: Level, minInterval: int) {
    exists i :: 0 <= i < |evs| && HeardAt(evs, i, minLevel, minInterval)
  }

  ghost predicate HeardAt(evs: seq<Event>, i: nat, minLevel: Level, minInterval: int)
    requires i < |evs|
  {
    && StaysUp(evs, i, minLevel)
    && (evs[i].kind == Cleared
        || forall b :: 0 <= b < i && LastBelow(evs, b, minLevel) ==> evs[i].at - evs[b].at >= minInterval)
  }

  // The webhook has last been told a level at or above its minimum.
  predicate ToldUp(delivered: seq<Event>, minLevel: Level) {
    delivered != [] && !Below(delivered[|delivered| - 1], minLevel)
  }

  // Nothing that brings the stream below the minimum is limited.
  ghost predicate BelowIsCleared(evs: seq<Event>, minLevel: Level) {
    forall k :: 0 <= k < |evs| && Below(evs[k], minLevel) ==> evs[k].kind == Cleared
  }

  // If the last delivery is below the minimum it is the last such event there was; if nothing was delivered there was
  // none.
  ghost predicate LastSent(evs: seq<Event>, sent: seq<Event>, minLevel: Level) {
    && (sent == [] <==> evs == [])
    && (sent != [] && Below(sent[|sent| - 1], minLevel) ==>
          exists b :: 0 <= b < |evs| && LastBelow(evs, b, minLevel) && evs[b] == sent[|sent| - 1])
  }

  lemma StaysUpSnoc(evs: seq<Event>, ev: Event, i: nat, minLevel: Level)
    requires i <= |evs|
    ensures StaysUp(evs + [ev], i, minLevel) <==> StaysUp(evs, i, minLevel) && !Below(ev, minLevel)
  {
    assert (evs + [ev])[|evs|] == ev && forall k :: 0 <= k < |evs| ==> (evs + [ev])[k] == evs[k];
  }

  lemma LastBelowSnoc(evs: seq<Event>, ev: Event, b: nat, minLevel: Level)
    requires b < |evs|
    ensures LastBelow(evs + [ev], b, minLevel) <==> LastBelow(evs, b, minLevel) && !Below(ev, minLevel)
  {
    StaysUpSnoc(evs, ev, b + 1, minLevel);
  }

  lemma LastBelowUnique(evs: seq<Event>, a: nat, b: nat, minLevel: Level)
    requires LastBelow(evs, a, minLevel) && LastBelow(evs, b, minLevel)
    ensures a == b
  {
  }

  // An event heard of stays heard of while nothing brings the stream below the minimum.
  lemma HeardSnoc(evs: seq<Event>, ev: Event, minLevel: Level, minInterval: int)
    requires !Below(ev, minLevel) && Heard(evs, minLevel, minInterval)
    ensures Heard(evs + [ev], minLevel, minInterval)
  {
    var i :| 0 <= i < |evs| && HeardAt(evs, i, minLevel, minInterval);
    StaysUpSnoc(evs, ev, i, minLevel);
    forall b | 0 <= b < i && LastBelow(evs + [ev], b, minLevel)
      ensures LastBelow(evs, b, minLevel)
    {
      LastBelowSnoc(evs, ev, b, minLevel);
    }
    assert HeardAt(evs + [ev], i, minLevel, minInterval);
  }

  // The new event is itself what makes the relapse heard of, or it was heard of before.
  lemma HeardCases(evs: seq<Event>, ev: Event, minLevel: Level, minInterval: int)
    requires Heard(evs + [ev], minLevel, minInterval)
    ensures !Below(ev, minLevel)
    ensures Heard(evs, minLevel, minInterval) || HeardAt(evs + [ev], |evs|, minLevel, minInterval)
  {
    var i :| 0 <= i < |evs + [ev]| && HeardAt(evs + [ev], i, minLevel, minInterval);
    StaysUpSnoc(evs, ev, i, minLevel);
    if i < |evs| {
      forall b | 0 <= b < i && LastBelow(evs, b, minLevel)
        ensures LastBelow(evs + [ev], b, minLevel)
      {
        LastBelowSnoc(evs, ev, b, minLevel);
      }
      assert HeardAt(evs, i, minLevel, minInterval);
    }
  }

  lemma LastSentSnoc(evs: seq<Event>, ev: Event, sent: seq<Event>, delivered: bool, minLevel: Level)
    requires LastSent(evs, sent, minLevel) && (Below(ev, minLevel) || evs == [] ==> delivered)
    ensures LastSent(evs + [ev], if delivered then sent + [ev] else sent, minLevel)
  {
    var all := evs + [ev];
    assert all[|evs|] == ev;
    if delivered {
      if Below(ev, minLevel) {
        assert LastBelow(all, |evs|, minLevel);
      }
    } else if sent != [] && Below(sent[|sent| - 1], minLevel) {
      var b :| 0 <= b < |evs| && LastBelow(evs, b, minLevel) && evs[b] == sent[|sent| - 1];
      LastBelowSnoc(evs, ev, b, minLevel);
      assert all[b] == evs[b];
    }
  }

  // Whether a firing at or above the minimum gets through to a webhook last told something below it.
  lemma RelapseHeard(evs: seq<Event>, ev: Event, sent: seq<Event>, minLevel: Level, minInterval: int)
    requires LastSent(evs, sent, minLevel) && sent != [] && Below(sent[|sent| - 1], minLevel) && !Below(ev, minLevel)
    ensures HeardAt(evs + [ev], |evs|, minLevel, minInterval) <==> ev.kind == Cleared || Quiet(sent, minInterval, ev)
  {
    var all := evs + [ev];
    var b :| 0 <= b < |evs| && LastBelow(evs, b, minLevel) && evs[b] == sent[|sent| - 1];
    LastBelowSnoc(evs, ev, b, minLevel);
    assert all[|evs|] == ev && all[b] == evs[b] && StaysUp(all, |evs|, minLevel);
    forall a | 0 <= a < |evs| && LastBelow(all, a, minLevel)
      ensures a == b
    {
      LastBelowUnique(all, a, b, minLevel);
    }
  }

  lemma FirstHeard(ev: Event, minLevel: Level, minInterval: int)
    requires !Below(ev, minLevel)
    ensures Heard([ev], minLevel, minInterval)
  {
    assert HeardAt([ev], 0, minLevel, minInterval);
  }

  lemma StepHeard(evs: seq<Event>, ev: Event, sent: seq<Event>, minLevel: Level, minInterval: int)
    requires LastSent(evs, sent, minLevel) && !Below(ev, minLevel)
    requires ToldUp(sent, minLevel) <==> Heard(evs, minLevel, minInterval)
    ensures Heard(evs + [ev], minLevel, minInterval)
       <==> ToldUp(sent, minLevel) || ev.kind == Cleared || Quiet(sent, minInterval, ev)
  {
    if ToldUp(sent, minLevel) {
      HeardSnoc(evs, ev, minLevel, minInterval);
    } else if sent == [] {
      assert evs + [ev] == [ev];
      FirstHeard(ev, minLevel, minInterval);
    } else {
      RelapseHeard(evs, ev, sent, minLevel, minInterval);
      if Heard(evs + [ev], minLevel, minInterval) {
        HeardCases(evs, ev, minLevel, minInterval);
      }
    }
  }

  lemma NotHeard(evs: seq<Event>, ev: Event, minLevel: Level, minInterval: int)
    requires Below(ev, minLevel)
    ensures !Heard(evs + [ev], minLevel, minInterval)
  {
    if Heard(evs + [ev], minLevel, minInterval) {
      HeardCases(evs, ev, minLevel, minInterval);
      assert false;
    }
  }

  lemma LimitedStep(evs: seq<Event>, ev: Event, minLevel: Level, minInterval: int)
    requires LastSent(evs, Limit(evs, minInterval), minLevel) && (Below(ev, minLevel) ==> ev.kind == Cleared)
    requires ToldUp(Limit(evs, minInterval), minLevel) <==> Heard(evs, minLevel, minInterval)
    ensures LastSent(evs + [ev], Limit(evs + [ev], minInterval), minLevel)
    ensures ToldUp(Limit(evs + [ev], minInterval), minLevel) <==> Heard(evs + [ev], minLevel, minInterval)
  {
    assert evs == [] ==> Limit(evs, minInterval) == [];
    hide Heard, LastSent, Limit;
    var sent := Limit(evs, minInterval);
    LimitSnoc(evs, ev, minInterval);
    LastSentSnoc(evs, ev, sent, ev.kind == Cleared || Quiet(sent, minInterval, ev), minLevel);
    if Below(ev, minLevel) {
      NotHeard(evs, ev, minLevel, minInterval);
    } else {
      StepHeard(evs, ev, sent, minLevel, minInterval);
    }
  }

  // What the limiter lets through leaves the webhook's view at or above its minimum exactly when the relapse was heard
  // of.
  lemma {:induction false} LimitedView(evs: seq<Event>, minLevel: Level, minInterval: int)
    requires BelowIsCleared(evs, minLevel)
    ensures LastSent(evs, Limit(evs, minInterval), minLevel)
    ensures ToldUp(Limit(evs, minInterval), minLevel) <==> Heard(evs, minLevel, minInterval)
  {
    hide LastSent, StaysUp;
    if |evs| == 0 {
      NothingSent(minLevel, minInterval);
    } else {
      var init, ev := evs[..|evs| - 1], evs[|evs| - 1];
      assert evs == init + [ev];
      LimitedView(init, minLevel, minInterval);
      LimitedStep(init, ev, minLevel, minInterval);
    }
  }

  lemma NothingSent(minLevel: Level, minInterval: int)
    ensures LastSent([], Limit([], minInterval), minLevel)
  {
  }

  lemma {:induction false} ReachingBelowIsCleared(evs: seq<Event>, src: Level, dst: Level, minLevel: Level)
    requires AlertRuns.Chain(evs, src, dst)
    ensures BelowIsCleared(Reaching(evs, minLevel), minLevel)
  {
    if |evs| == 0 {
    } else {
      var init, e := evs[..|evs| - 1], evs[|evs| - 1];
      ReachingBelowIsCleared(init, src, e.src, minLevel);
      assert Reaching(evs, minLevel) == Reaching(init, minLevel) + if EventReaches(e, minLevel) then [e] else [];
    }
  }

  // End to end, limiter on: a drained webhook that lost nothing on the way in has last been told a level at or above
  // its minimum if and only if the engine is there and the relapse was heard of. Whether it was can be read off the
  // engine's own events: one since the stream was last brought below the minimum is a clearing, or at least the
  // interval later.
  lemma ViewWithLimiter(ac: Alert.Config, samples: seq<Sample>, outs: seq<seq<Event>>, states: seq<EngineVal>,
                        c: Policy, minLevel: Level, steps: seq<Step>, id: Stream)
    requires AlertRuns.IsRun(ac, samples, outs, states) && minLevel != OK
    requires NoOverflow(c, minLevel, steps) && NoFailure(steps) && c.minInterval > 0
    requires Run(c, minLevel, steps).offered == Flatten(outs) && Run(c, minLevel, steps).worker.queue == []
    ensures var evs := Reaching(EventsOf(Flatten(outs), id), minLevel);
            var told := ToldUp(EventsOf(Run(c, minLevel, steps).delivered, id), minLevel);
            var alerting := Severity(LevelOf(states[|samples|].states, id)) >= Severity(minLevel);
            && (told <==> Heard(evs, minLevel, c.minInterval))
            && (told ==> alerting)
            && ((told <==> alerting) <==> (alerting ==> Heard(evs, minLevel, c.minInterval)))
  {
    assert |states| == |samples| + 1;
    hide AlertRuns.IsRun, AlertRuns.Chain, Run, EventsOf, Reaching, Heard, Limit, NoOverflow, NoFailure, BelowIsCleared,
      LastSent;
    AlertRuns.EventsFormChain(ac, samples, outs, states, id);
    var all, level := EventsOf(Flatten(outs), id), LevelOf(states[|samples|].states, id);
    TakenOfStream(c, minLevel, steps, id);
    DeliveredIsLimited(c, minLevel, steps, id);
    ReachingBelowIsCleared(all, OK, level, minLevel);
    LimitedView(Reaching(all, minLevel), minLevel, c.minInterval);
    if Severity(level) < Severity(minLevel) {
      RecoveryNeverLost(ac, samples, outs, states, c, minLevel, steps, id);
    }
  }

  // The step behind it: after a firing at or above the minimum has been taken, the webhook's view is there if and only
  // if the stream was quiet for the interval or the view was there already.
  lemma ViewAfterFiring(c: Policy, minLevel: Level, steps: seq<Step>)
    requires c.minInterval > 0 && Run(c, minLevel, steps).worker.queue != []
    requires var ev := Run(c, minLevel, steps).worker.queue[0]; ev.kind == Fired && !Below(ev, minLevel)
    ensures var j, j' := Run(c, minLevel, steps), Run(c, minLevel, steps + [Take(Delivered)]);
            var ev := j.worker.queue[0];
            var before := EventsOf(j.delivered, ev.id);
            ToldUp(EventsOf(j'.delivered, ev.id), minLevel)
            <==> (Quiet(before, c.minInterval, ev) || ToldUp(before, minLevel))
  {
    var j := Run(c, minLevel, steps);
    FiringSentExactlyWhenQuiet(c, minLevel, steps);
    EventsOfSnoc(j.delivered, j.worker.queue[0], j.worker.queue[0].id);
  }
}
