/** Webhook delivery: one bounded queue, severity filter and rate limiter per webhook, as a state machine on values. */
module Notify {
  import opened Seqs
  import opened Alert

  datatype Policy = Policy(queueSize: nat, minInterval: int, maxRetries: int, backoff: int)

  datatype Worker = Worker(minLevel: Level, queue: seq<Event>, lastSent: map<Stream, int>)

  // An event concerns a webhook when either side of the transition reaches its minimum level.
  predicate EventReaches(ev: Event, minLevel: Level) {
    var peak := if Severity(ev.dst) > Severity(ev.src) then Severity(ev.dst) else Severity(ev.src);
    peak >= Severity(minLevel)
  }

  predicate RateLimited(w: Worker, minInterval: int, ev: Event) {
    minInterval > 0 && ev.id in w.lastSent && ev.at - w.lastSent[ev.id] < minInterval
  }

  // Only firings are limited; a recovery always goes out.
  predicate Suppressed(w: Worker, minInterval: int, ev: Event) {
    ev.kind != Cleared && RateLimited(w, minInterval, ev)
  }

  function RecordSent(w: Worker, minInterval: int, ev: Event): Worker {
    if minInterval <= 0 then w else w.(lastSent := w.lastSent[ev.id := ev.at])
  }

  // What rendering and posting the event at the head of the queue would come to.
  datatype Attempt = RenderFailed | DeliveryFailed | Delivered

  // Notify offers an event to the worker; the worker's goroutine takes one off its queue.
  datatype Step = Offer(ev: Event) | Take(attempt: Attempt)

  // A worker together with what has happened to it.
  datatype Journal = Journal(worker: Worker, offered: seq<Event>, accepted: seq<Event>, taken: seq<Event>,
                             delivered: seq<Event>)

  function Start(minLevel: Level): Journal {
    Journal(Worker(minLevel, [], map[]), [], [], [], [])
  }

  predicate Accepts(w: Worker, c: Policy, ev: Event) {
    EventReaches(ev, w.minLevel) && |w.queue| < c.queueSize
  }

  function OfferTo(w: Worker, c: Policy, ev: Event): Worker {
    if Accepts(w, c, ev) then w.(queue := w.queue + [ev]) else w
  }

  predicate Sends(w: Worker, c: Policy, ev: Event, attempt: Attempt) {
    !Suppressed(w, c.minInterval, ev) && attempt == Delivered
  }

  function Dispatch(w: Worker, c: Policy, ev: Event, attempt: Attempt): Worker {
    if Sends(w, c, ev, attempt) then RecordSent(w, c.minInterval, ev) else w
  }

  function Next(j: Journal, c: Policy, step: Step): Journal {
    var w := j.worker;
    match step
    case Offer(ev) =>
      j.(worker := OfferTo(w, c, ev), offered := j.offered + [ev],
         accepted := if Accepts(w, c, ev) then j.accepted + [ev] else j.accepted)
    case Take(attempt) =>
      if |w.queue| == 0 then j
      else
        var ev, w' := w.queue[0], w.(queue := w.queue[1..]);
        j.(worker := Dispatch(w', c, ev, attempt), taken := j.taken + [ev],
           delivered := if Sends(w', c, ev, attempt) then j.delivered + [ev] else j.delivered)
  }

  ghost function Run(c: Policy, minLevel: Level, steps: seq<Step>): Journal {
    if |steps| == 0 then Start(minLevel) else Next(Run(c, minLevel, steps[..|steps| - 1]), c, steps[|steps| - 1])
  }

  ghost function Reaching(log: seq<Event>, minLevel: Level): seq<Event> {
    Filter(log, (e: Event) => EventReaches(e, minLevel))
  }

  // Every offer of an event that passes the filter found room in the queue.
  ghost predicate NoOverflow(c: Policy, minLevel: Level, steps: seq<Step>) {
    forall i :: 0 <= i < |steps| && steps[i].Offer? && EventReaches(steps[i].ev, minLevel)
      ==> |Run(c, minLevel, steps[..i]).worker.queue| < c.queueSize
  }

  ghost predicate NoFailure(steps: seq<Step>) {
    forall i :: 0 <= i < |steps| && steps[i].Take? ==> steps[i].attempt == Delivered
  }

  // ------------------------------------------------------------------------------------------
  // Several webhooks

  // Step of the i-th webhook.
  datatype Labelled = Labelled(i: nat, step: Step)

  ghost function RunAll(c: Policy, levels: seq<Level>, steps: seq<Labelled>): (js: seq<Journal>)
    ensures |js| == |levels|
  {
    if |steps| == 0 then seq(|levels|, i requires 0 <= i < |levels| => Start(levels[i]))
    else
      var js := RunAll(c, levels, steps[..|steps| - 1]);
      var l := steps[|steps| - 1];
      if l.i < |js| then js[l.i := Next(js[l.i], c, l.step)] else js
  }

  ghost function StepsOf(steps: seq<Labelled>, i: nat): seq<Step> {
    if |steps| == 0 then []
    else
      var l := steps[|steps| - 1];
      StepsOf(steps[..|steps| - 1], i) + (if l.i == i then [l.step] else [])
  }

  lemma RunSnoc(c: Policy, minLevel: Level, steps: seq<Step>, step: Step)
    ensures Run(c, minLevel, steps + [step]) == Next(Run(c, minLevel, steps), c, step)
  {
    assert (steps + [step])[..|steps|] == steps;
  }

  // Under every interleaving a webhook fares exactly as if the others did not exist.
  lemma {:induction false} WebhooksAreIsolated(c: Policy, levels: seq<Level>, steps: seq<Labelled>, i: nat)
    requires i < |levels|
    ensures RunAll(c, levels, steps)[i] == Run(c, levels[i], StepsOf(steps, i))
  {
    hide Next;
    if |steps| == 0 {
    } else {
      var init, l := steps[..|steps| - 1], steps[|steps| - 1];
      WebhooksAreIsolated(c, levels, init, i);
      var mine := StepsOf(init, i);
      if l.i == i {
        assert StepsOf(steps, i) == mine + [l.step];
        RunSnoc(c, levels[i], mine, l.step);
      } else {
        assert StepsOf(steps, i) == mine;
      }
    }
  }

  // ------------------------------------------------------------------------------------------
  // One webhook, over all schedules

  lemma SubsequenceExtend<T>(xs: seq<T>, ys: seq<T>, y: T)
    requires IsSubsequence(xs, ys)
    ensures IsSubsequence(xs, ys + [y]) && IsSubsequence(xs + [y], ys + [y])
  {
    assert (ys + [y])[..|ys|] == ys && (xs + [y])[..|xs|] == xs;
    if |xs| > 0 {
      SubsequenceInit(xs, ys);
    }
  }

  lemma SubsequenceInit<T>(xs: seq<T>, ys: seq<T>)
    requires IsSubsequence(xs, ys) && |xs| > 0
    ensures IsSubsequence(xs[..|xs| - 1], ys)
  {
    var xi, yi := xs[..|xs| - 1], ys[..|ys| - 1];
    if xs[|xs| - 1] == ys[|ys| - 1] {
      if |xi| > 0 {
        SubsequenceInit(xi, yi);
      }
    } else {
      SubsequenceInit(xs, yi);
    }
  }

  lemma SubsequencePrefix<T>(xs: seq<T>, ys: seq<T>, zs: seq<T>)
    requires IsSubsequence(xs, ys)
    ensures IsSubsequence(xs, ys + zs)
  {
    if |zs| == 0 {
      assert ys + zs == ys;
    } else {
      var init := zs[..|zs| - 1];
      SubsequencePrefix(xs, ys, init);
      SubsequenceExtend(xs, ys + init, zs[|zs| - 1]);
      assert ys + init + [zs[|zs| - 1]] == ys + zs;
    }
  }

  // The queue is first-in first-out and nothing is delivered that was not accepted.
  ghost predicate Orderly(j: Journal) {
    && j.accepted == j.taken + j.worker.queue
    && IsSubsequence(j.delivered, j.taken)
    && IsSubsequence(j.accepted, Reaching(j.offered, j.worker.minLevel))
  }

  lemma OfferOrderly(j: Journal, c: Policy, ev: Event)
    requires Orderly(j)
    ensures Orderly(Next(j, c, Offer(ev)))
  {
    var reaching := Reaching(j.offered, j.worker.minLevel);
    assert (j.offered + [ev])[..|j.offered|] == j.offered;
    SubsequenceExtend(j.accepted, reaching, ev);
    assert reaching + [] == reaching;
  }

  lemma TakeOrderly(j: Journal, c: Policy, attempt: Attempt)
    requires Orderly(j) && j.worker.queue != []
    ensures Orderly(Next(j, c, Take(attempt)))
  {
    SubsequenceExtend(j.delivered, j.taken, j.worker.queue[0]);
    assert j.taken + j.worker.queue == j.taken + [j.worker.queue[0]] + j.worker.queue[1..];
  }

  lemma {:induction false} RunOrderly(c: Policy, minLevel: Level, steps: seq<Step>)
    ensures Run(c, minLevel, steps).worker.minLevel == minLevel && Orderly(Run(c, minLevel, steps))
  {
    if |steps| == 0 {
    } else {
      var j, step := Run(c, minLevel, steps[..|steps| - 1]), steps[|steps| - 1];
      RunOrderly(c, minLevel, steps[..|steps| - 1]);
      if step.Offer? {
        OfferOrderly(j, c, step.ev);
      } else if j.worker.queue != [] {
        TakeOrderly(j, c, step.attempt);
      }
    }
  }

  lemma {:induction false} QueueBounded(c: Policy, minLevel: Level, steps: seq<Step>)
    ensures |Run(c, minLevel, steps).worker.queue| <= c.queueSize
  {
    if |steps| == 0 {
    } else {
      QueueBounded(c, minLevel, steps[..|steps| - 1]);
    }
  }

  // Deliveries are an in-order subsequence of the accepted events, those of the offered events that reach the webhook.
  lemma DeliveriesInOrder(c: Policy, minLevel: Level, steps: seq<Step>)
    ensures var j := Run(c, minLevel, steps);
            && IsSubsequence(j.delivered, j.accepted)
            && IsSubsequence(j.accepted, Reaching(j.offered, minLevel))
            && j.accepted == j.taken + j.worker.queue
            && |j.worker.queue| <= c.queueSize
  {
    var j := Run(c, minLevel, steps);
    RunOrderly(c, minLevel, steps);
    QueueBounded(c, minLevel, steps);
    SubsequencePrefix(j.delivered, j.taken, j.worker.queue);
  }

  // Whom a transition concerns: every webhook whose minimum one of its two levels reaches.
  predicate Concerns(ev: Event, minLevel: Level) {
    match minLevel
    case OK => true
    case Warn => ev.src != OK || ev.dst != OK
    case Crit => ev.src == Crit || ev.dst == Crit
  }

  lemma ReachesWhomItConcerns(ev: Event, minLevel: Level)
    ensures EventReaches(ev, minLevel) <==> Concerns(ev, minLevel)
  {
  }

  lemma {:induction false} SubsequenceIn<T>(xs: seq<T>, ys: seq<T>, x: T)
    requires IsSubsequence(xs, ys) && x in xs
    ensures x in ys
  {
    if xs[|xs| - 1] == ys[|ys| - 1] {
      if x in xs[..|xs| - 1] {
        SubsequenceIn(xs[..|xs| - 1], ys[..|ys| - 1], x);
      }
    } else {
      SubsequenceIn(xs, ys[..|ys| - 1], x);
    }
  }

  // A webhook is told only of transitions that were offered to it and concern it.
  lemma ToldOnlyWhatConcerns(c: Policy, minLevel: Level, steps: seq<Step>, ev: Event)
    requires ev in Run(c, minLevel, steps).delivered
    ensures ev in Run(c, minLevel, steps).offered && Concerns(ev, minLevel)
  {
    DeliveriesInOrder(c, minLevel, steps);
    var j := Run(c, minLevel, steps);
    hide Run;
    SubsequenceIn(j.delivered, j.accepted, ev);
    SubsequenceIn(j.accepted, Reaching(j.offered, minLevel), ev);
    FilterIn(j.offered, (e: Event) => EventReaches(e, minLevel), ev);
    ReachesWhomItConcerns(ev, minLevel);
  }

  // Deliveries of one stream, each firing at least minInterval after the delivery before it.
  ghost predicate Spaced(evs: seq<Event>, minInterval: int) {
    forall i :: 0 < i < |evs| && evs[i].kind == Fired ==> evs[i].at - evs[i - 1].at >= minInterval
  }

  ghost predicate LimiterKnows(lastSent: map<Stream, int>, evs: seq<Event>, id: Stream) {
    && (id in lastSent <==> evs != [])
    && (evs != [] ==> lastSent[id] == evs[|evs| - 1].at)
  }

  lemma EventsOfSnoc(log: seq<Event>, e: Event, id: Stream)
    ensures EventsOf(log + [e], id) == EventsOf(log, id) + if e.id == id then [e] else []
  {
    assert (log + [e])[..|log|] == log;
  }

  ghost predicate Limited(j: Journal, minInterval: int, id: Stream) {
    LimiterKnows(j.worker.lastSent, EventsOf(j.delivered, id), id) && Spaced(EventsOf(j.delivered, id), minInterval)
  }

  lemma SendSpaced(w: Worker, minInterval: int, delivered: seq<Event>, ev: Event, id: Stream)
    requires minInterval > 0 && !Suppressed(w, minInterval, ev)
    requires LimiterKnows(w.lastSent, EventsOf(delivered, id), id) && Spaced(EventsOf(delivered, id), minInterval)
    ensures LimiterKnows(w.lastSent[ev.id := ev.at], EventsOf(delivered + [ev], id), id)
    ensures Spaced(EventsOf(delivered + [ev], id), minInterval)
  {
    EventsOfSnoc(delivered, ev, id);
    if ev.id != id {
      assert EventsOf(delivered + [ev], id) == EventsOf(delivered, id);
    }
  }

  // Over all schedules and failures, a delivered firing is minInterval away from the stream's delivery before it.
  lemma {:induction false} FiringsAreSpaced(c: Policy, minLevel: Level, steps: seq<Step>, id: Stream)
    requires c.minInterval > 0
    ensures Limited(Run(c, minLevel, steps), c.minInterval, id)
  {
    if |steps| == 0 {
    } else {
      var j, step := Run(c, minLevel, steps[..|steps| - 1]), steps[|steps| - 1];
      FiringsAreSpaced(c, minLevel, steps[..|steps| - 1], id);
      if step.Take? && j.worker.queue != [] {
        var w, ev := j.worker.(queue := j.worker.queue[1..]), j.worker.queue[0];
        if Sends(w, c, ev, step.attempt) {
          SendSpaced(w, c.minInterval, j.delivered, ev, id);
        }
      }
    }
  }

  // ------------------------------------------------------------------------------------------
  // Runs without overflow or failure

  lemma {:induction false} NothingRefused(c: Policy, minLevel: Level, steps: seq<Step>)
    requires NoOverflow(c, minLevel, steps)
    ensures Run(c, minLevel, steps).accepted == Reaching(Run(c, minLevel, steps).offered, minLevel)
  {
    if |steps| == 0 {
    } else {
      var init, step := steps[..|steps| - 1], steps[|steps| - 1];
      var j := Run(c, minLevel, init);
      assert forall i :: 0 <= i < |init| ==> init[i] == steps[i] && init[..i] == steps[..i];
      NothingRefused(c, minLevel, init);
      RunOrderly(c, minLevel, init);
      if step.Offer? {
        assert (j.offered + [step.ev])[..|j.offered|] == j.offered;
      }
    }
  }

  ghost predicate Recovered(evs: seq<Event>) {
    evs != [] && evs[|evs| - 1].kind == Cleared
  }

  // If the last event taken for a stream is a recovery it is also the last one delivered.
  ghost predicate KeepsRecovery(taken: seq<Event>, delivered: seq<Event>) {
    && (taken == [] ==> delivered == [])
    && (Recovered(taken) ==> delivered != [] && delivered[|delivered| - 1] == taken[|taken| - 1])
  }

  lemma TakeKeepsRecovery(taken: seq<Event>, delivered: seq<Event>, ev: Event, sent: bool, id: Stream)
    requires KeepsRecovery(EventsOf(taken, id), EventsOf(delivered, id))
    requires ev.kind == Cleared ==> sent
    ensures KeepsRecovery(EventsOf(taken + [ev], id), EventsOf(if sent then delivered + [ev] else delivered, id))
  {
    EventsOfSnoc(taken, ev, id);
    EventsOfSnoc(delivered, ev, id);
    if ev.id != id {
      assert EventsOf(taken + [ev], id) == EventsOf(taken, id);
      assert EventsOf(delivered + [ev], id) == EventsOf(delivered, id);
    }
  }

  lemma {:induction false} RecoveriesAreDelivered(c: Policy, minLevel: Level, steps: seq<Step>, id: Stream)
    requires NoFailure(steps)
    ensures KeepsRecovery(EventsOf(Run(c, minLevel, steps).taken, id), EventsOf(Run(c, minLevel, steps).delivered, id))
  {
    if |steps| == 0 {
    } else {
      var j, step := Run(c, minLevel, steps[..|steps| - 1]), steps[|steps| - 1];
      RecoveriesAreDelivered(c, minLevel, steps[..|steps| - 1], id);
      if step.Take? && j.worker.queue != [] {
        var ev := j.worker.queue[0];
        TakeKeepsRecovery(j.taken, j.delivered, ev, Sends(j.worker.(queue := j.worker.queue[1..]), c, ev, Delivered),
                          id);
      }
    }
  }

  // With the rate limiter off everything taken is delivered.
  lemma {:induction false} WithoutLimiterAllIsDelivered(c: Policy, minLevel: Level, steps: seq<Step>)
    requires NoFailure(steps) && c.minInterval <= 0
    ensures Run(c, minLevel, steps).delivered == Run(c, minLevel, steps).taken
  {
    if |steps| == 0 {
    } else {
      WithoutLimiterAllIsDelivered(c, minLevel, steps[..|steps| - 1]);
    }
  }
}
