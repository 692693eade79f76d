/** End to end, from threshold evaluation to webhook: a recovery is never lost. */
module Recovery {
  import opened Seqs
  import opened Alert
  import AlertRuns
  import opened Notify

  lemma {:induction false} FiltersCommute<T>(s: seq<T>, p: T -> bool, q: T -> bool)
    ensures Filter(Filter(s, p), q) == Filter(Filter(s, q), p)
  {
    if |s| == 0 {
    } else {
      var init, x := s[..|s| - 1], s[|s| - 1];
      FiltersCommute(init, p, q);
      FilterAppend(Filter(init, p), if p(x) then [x] else [], q);
      FilterAppend(Filter(init, q), if q(x) then [x] else [], p);
      FilterOne(x, p);
      FilterOne(x, q);
    }
  }

  // In a chain that ends below minLevel, the last event that reaches minLevel is the one that came back below it.
  lemma {:induction false} LastReachingRecovers(evs: seq<Event>, src: Level, dst: Level, minLevel: Level)
    requires AlertRuns.Chain(evs, src, dst) && Severity(dst) < Severity(minLevel)
    ensures var reaching := Reaching(evs, minLevel);
            reaching != [] ==> Recovered(reaching) && Severity(reaching[|reaching| - 1].dst) < Severity(minLevel)
  {
    if |evs| == 0 {
    } else {
      var init, e := evs[..|evs| - 1], evs[|evs| - 1];
      if !EventReaches(e, minLevel) {
        LastReachingRecovers(init, src, e.src, minLevel);
      }
    }
  }

  // In a chain that ends at or above minLevel but starts below it, the last event reaching minLevel ends there too.
  lemma {:induction false} LastReachingAlerts(evs: seq<Event>, src: Level, dst: Level, minLevel: Level)
    requires AlertRuns.Chain(evs, src, dst) && Severity(src) < Severity(minLevel) <= Severity(dst)
    ensures var reaching := Reaching(evs, minLevel);
            reaching != [] && reaching[|reaching| - 1].dst == dst
  {
  }

  // What a drained worker has taken for a stream, in a run that lost nothing on the way in.
  lemma TakenOfStream(c: Policy, minLevel: Level, steps: seq<Step>, id: Stream)
    requires NoOverflow(c, minLevel, steps) && Run(c, minLevel, steps).worker.queue == []
    ensures EventsOf(Run(c, minLevel, steps).taken, id)
            == Reaching(EventsOf(Run(c, minLevel, steps).offered, id), minLevel)
  {
    var j := Run(c, minLevel, steps);
    RunOrderly(c, minLevel, steps);
    NothingRefused(c, minLevel, steps);
    assert j.taken + [] == j.taken;
    FiltersCommute(j.offered, (e: Event) => EventReaches(e, minLevel), (e: Event) => e.id == id);
  }

  // The engine ran over any samples; the worker was offered all its events, on any schedule, and has drained its queue.
  // If the stream's level is below the webhook's minimum, the webhook's last delivery for the stream says so.
  lemma RecoveryNeverLost(ac: Alert.Config, samples: seq<Sample>, outs: seq<seq<Event>>, states: seq<EngineVal>,
                          c: Policy, minLevel: Level, steps: seq<Step>, id: Stream)
    requires AlertRuns.IsRun(ac, samples, outs, states)
    requires NoOverflow(c, minLevel, steps) && NoFailure(steps)
    requires Run(c, minLevel, steps).offered == Flatten(outs) && Run(c, minLevel, steps).worker.queue == []
    requires Severity(LevelOf(states[|samples|].states, id)) < Severity(minLevel)
    ensures var delivered := EventsOf(Run(c, minLevel, steps).delivered, id);
            delivered != [] ==> Severity(delivered[|delivered| - 1].dst) < Severity(minLevel)
  {
    AlertRuns.EventsFormChain(ac, samples, outs, states, id);
    LastReachingRecovers(EventsOf(Flatten(outs), id), OK, LevelOf(states[|samples|].states, id), minLevel);
    TakenOfStream(c, minLevel, steps, id);
    RecoveriesAreDelivered(c, minLevel, steps, id);
  }

  // With the rate limiter off the webhook's last delivery is above its minimum exactly while the engine is.
  lemma WithoutLimiterViewIsExact(ac: Alert.Config, samples: seq<Sample>, outs: seq<seq<Event>>, states: seq<EngineVal>,
                                  c: Policy, minLevel: Level, steps: seq<Step>, id: Stream)
    requires AlertRuns.IsRun(ac, samples, outs, states) && minLevel != OK
    requires NoOverflow(c, minLevel, steps) && NoFailure(steps) && c.minInterval <= 0
    requires Run(c, minLevel, steps).offered == Flatten(outs) && Run(c, minLevel, steps).worker.queue == []
    ensures var delivered := EventsOf(Run(c, minLevel, steps).delivered, id);
            Severity(LevelOf(states[|samples|].states, id)) >= Severity(minLevel)
            <==> delivered != [] && Severity(delivered[|delivered| - 1].dst) >= Severity(minLevel)
  {
    AlertRuns.EventsFormChain(ac, samples, outs, states, id);
    var level := LevelOf(states[|samples|].states, id);
    TakenOfStream(c, minLevel, steps, id);
    WithoutLimiterAllIsDelivered(c, minLevel, steps);
    if Severity(level) >= Severity(minLevel) {
      LastReachingAlerts(EventsOf(Flatten(outs), id), OK, level, minLevel);
    } else {
      LastReachingRecovers(EventsOf(Flatten(outs), id), OK, level, minLevel);
    }
  }

  // With the limiter on, a firing at the head of the queue goes out exactly when its stream has been quiet long enough.
  // A relapse soon after a delivered recovery is therefore not told, nor is an escalation soon after a delivered
  // firing.
  lemma FiringSentExactlyWhenQuiet(c: Policy, minLevel: Level, steps: seq<Step>)
    requires c.minInterval > 0 && Run(c, minLevel, steps).worker.queue != []
    requires Run(c, minLevel, steps).worker.queue[0].kind == Fired
    ensures var j := Run(c, minLevel, steps);
            var ev := j.worker.queue[0];
            var before := EventsOf(j.delivered, ev.id);
            Run(c, minLevel, steps + [Take(Delivered)]).delivered
            == if before == [] || ev.at - before[|before| - 1].at >= c.minInterval
               then j.delivered + [ev] else j.delivered
  {
    hide EventsOf, Spaced;
    RunSnoc(c, minLevel, steps, Take(Delivered));
    FiringsAreSpaced(c, minLevel, steps, Run(c, minLevel, steps).worker.queue[0].id);
  }
}
