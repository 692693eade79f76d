/** Concrete runs on which the rate limiter keeps a webhook from seeing what the engine reports. */
module LimiterWitness {
  import opened Seqs
  import opened Alert
  import AlertEngine
  import AlertRuns
  import opened Notify
  import opened Limiter

  const CPU := Stream(Cpu, "")
  const CUTOFFS := Cutoffs(80.0, 90.0)
  const ENGINE := Config(Thresholds(CUTOFFS, CUTOFFS, CUTOFFS, CUTOFFS, CUTOFFS), 0, 100)
  const POLICY := Policy(64, 300, 3, 1)

  function Load(percent: real, at: int): Sample {
    Sample(at, Some(percent), None, None, None, None)
  }

  lemma OnlyCpu(percent: real, at: int)
    ensures Observations(Load(percent, at)) == [Obs(CPU, percent)]
  {
  }

  lemma OneObserved(states: Alert.States, o: Obs, now: int)
    ensures ObserveAll(ENGINE, states, [o], now) == ObserveOne(ENGINE, states, o, now)
    ensures EventsAll(ENGINE, states, [o], now) == EventsOne(ENGINE, states, o, now)
  {
    hide ObserveOne, EventsOne;
    assert [o][..0] == [];
    assert ObserveAll(ENGINE, states, [], now) == states && EventsAll(ENGINE, states, [], now) == [];
    assert [] + EventsOne(ENGINE, states, o, now) == EventsOne(ENGINE, states, o, now);
  }

  // Evaluating a sample of the processor load alone.
  lemma LoadStep(e: EngineVal, percent: real, at: int, e': EngineVal, emitted: seq<Event>)
    requires e'.states == ObserveOne(ENGINE, e.states, Obs(CPU, percent), at)
    requires emitted == EventsOne(ENGINE, e.states, Obs(CPU, percent), at)
    requires e'.events == LastN(e.events + emitted, ENGINE.maxEvents)
    ensures EvaluateStep(ENGINE, e, Load(percent, at), e', emitted)
  {
    OnlyCpu(percent, at);
    OneObserved(e.states, Obs(CPU, percent), at);
    hide ObserveOne, EventsOne, ObserveAll, EventsAll;
    AlertEngine.NothingVanishes(e'.states, Load(percent, at));
    assert emitted[|emitted|..] == [];
  }

  // The debounce state after the first reading and after two more, for a load above, below and again above warn.
  function High(at: int): Debounce {
    Debounce(Warn, at, 85.0, true, at, false, 0, true)
  }

  function Low(): Debounce {
    Debounce(OK, 100, 10.0, false, 100, false, 0, true)
  }

  function Rise(at: int): Event {
    Event(CPU, Fired, OK, Warn, 85.0, at)
  }

  function Fall(): Event {
    Event(CPU, Cleared, Warn, OK, 10.0, 100)
  }

  function States(): seq<EngineVal> {
    [EngineVal(map[], []), EngineVal(map[CPU := High(0)], [Rise(0)]),
     EngineVal(map[CPU := Low()], [Rise(0), Fall()]),
     EngineVal(map[CPU := High(200)], [Rise(0), Fall(), Rise(200)])]
  }

  function Samples(): seq<Sample> {
    [Load(85.0, 0), Load(10.0, 100), Load(85.0, 200)]
  }

  function Outs(): seq<seq<Event>> {
    [[Rise(0)], [Fall()], [Rise(200)]]
  }

  lemma EngineRises(e: EngineVal, at: int, events: seq<Event>)
    requires (e.states == map[] && at == 0) || (e.states == map[CPU := Low()] && at == 200)
    requires events == e.events + [Rise(at)] && |events| <= 100
    ensures EvaluateStep(ENGINE, e, Load(85.0, at), EngineVal(map[CPU := High(at)], events), [Rise(at)])
  {
    LoadStep(e, 85.0, at, EngineVal(map[CPU := High(at)], events), [Rise(at)]);
  }

  lemma EngineFalls(e: EngineVal, events: seq<Event>)
    requires e.states == map[CPU := High(0)] && events == e.events + [Fall()] && |events| <= 100
    ensures EvaluateStep(ENGINE, e, Load(10.0, 100), EngineVal(map[CPU := Low()], events), [Fall()])
  {
    LoadStep(e, 10.0, 100, EngineVal(map[CPU := Low()], events), [Fall()]);
  }

  lemma EngineRuns()
    ensures AlertRuns.IsRun(ENGINE, Samples(), Outs(), States())
  {
    EngineRises(States()[0], 0, [Rise(0)]);
    EngineFalls(States()[1], [Rise(0), Fall()]);
    EngineRises(States()[2], 200, [Rise(0), Fall(), Rise(200)]);
    hide EvaluateStep;
  }

  // ------------------------------------------------------------------------------------------
  // The webhook

  // Each event is taken off the queue before the next one is offered, and every post succeeds.
  function Promptly(evs: seq<Event>): seq<Step> {
    if |evs| == 0 then [] else Promptly(evs[..|evs| - 1]) + [Offer(evs[|evs| - 1])] + [Take(Delivered)]
  }

  lemma OfferTaken(j: Journal, ev: Event)
    requires j.worker.queue == [] && EventReaches(ev, j.worker.minLevel)
    ensures var j' := Next(Next(j, POLICY, Offer(ev)), POLICY, Take(Delivered));
            && j'.worker.queue == [] && j'.worker.minLevel == j.worker.minLevel && j'.offered == j.offered + [ev]
            && if Suppressed(j.worker, POLICY.minInterval, ev)
               then j'.delivered == j.delivered && j'.worker.lastSent == j.worker.lastSent
               else j'.delivered == j.delivered + [ev] && j'.worker.lastSent == j.worker.lastSent[ev.id := ev.at]
  {
    assert [ev][1..] == [] && [] + [ev] == [ev];
  }

  ghost predicate Drained(steps: seq<Step>, evs: seq<Event>) {
    && NoOverflow(POLICY, Warn, steps) && NoFailure(steps)
    && Run(POLICY, Warn, steps).worker.queue == [] && Run(POLICY, Warn, steps).worker.minLevel == Warn
    && Run(POLICY, Warn, steps).offered == evs
  }

  lemma DrainedExtends(steps: seq<Step>, evs: seq<Event>, ev: Event)
    requires Drained(steps, evs) && EventReaches(ev, Warn)
    ensures Drained(steps + [Offer(ev)] + [Take(Delivered)], evs + [ev])
    ensures Run(POLICY, Warn, steps + [Offer(ev)] + [Take(Delivered)])
         == Next(Next(Run(POLICY, Warn, steps), POLICY, Offer(ev)), POLICY, Take(Delivered))
  {
    var s1 := steps + [Offer(ev)];
    var s2 := s1 + [Take(Delivered)];
    RunSnoc(POLICY, Warn, steps, Offer(ev));
    RunSnoc(POLICY, Warn, s1, Take(Delivered));
    OfferTaken(Run(POLICY, Warn, steps), ev);
    hide Run, Next;
    forall i | 0 <= i < |s2| && s2[i].Offer? && EventReaches(s2[i].ev, Warn)
      ensures |Run(POLICY, Warn, s2[..i]).worker.queue| < POLICY.queueSize
    {
      if i < |steps| {
        assert s2[..i] == steps[..i] && s2[i] == steps[i];
      } else {
        assert s2[..i] == steps;
      }
    }
  }

  lemma NothingDrained()
    ensures Drained([], [])
  {
  }

  lemma {:induction false} PromptlyDrains(evs: seq<Event>)
    requires forall i :: 0 <= i < |evs| ==> EventReaches(evs[i], Warn)
    ensures Drained(Promptly(evs), evs)
    ensures |evs| > 0 ==>
              var j := Run(POLICY, Warn, Promptly(evs[..|evs| - 1]));
              Run(POLICY, Warn, Promptly(evs)) == Next(Next(j, POLICY, Offer(evs[|evs| - 1])), POLICY, Take(Delivered))
  {
    NothingDrained();
    hide Drained, Run, Next;
    if |evs| == 0 {
      assert evs == [];
    } else {
      var init, ev := evs[..|evs| - 1], evs[|evs| - 1];
      PromptlyDrains(init);
      DrainedExtends(Promptly(init), init, ev);
      assert init + [ev] == evs;
    }
  }

  lemma OutsFlat()
    ensures Flatten(Outs()) == [Rise(0), Fall(), Rise(200)]
  {
    var o := Outs();
    assert o[..2] == [[Rise(0)], [Fall()]] && o[..2][..1] == [[Rise(0)]] && o[..2][..1][..0] == [];
    assert Flatten(o[..2][..1]) == [Rise(0)];
    assert Flatten(o[..2]) == [Rise(0), Fall()];
  }

  // A webhook that drained its queue and has not heard of an alerting stream shows the wrong view.
  lemma UnheardIsWrong(samples: seq<Sample>, outs: seq<seq<Event>>, states: seq<EngineVal>, steps: seq<Step>,
                       evs: seq<Event>)
    requires AlertRuns.IsRun(ENGINE, samples, outs, states) && Drained(steps, evs) && evs == Flatten(outs)
    requires LevelOf(states[|samples|].states, CPU) == Warn
    requires !Heard(Reaching(EventsOf(evs, CPU), Warn), Warn, POLICY.minInterval)
    ensures WrongView(samples, outs, states, steps)
  {
    assert |states| == |samples| + 1;
    hide AlertRuns.IsRun, Run, Heard, Flatten, NoOverflow, NoFailure, EventsOf, Reaching, LevelOf, ToldUp;
    ViewWithLimiter(ENGINE, samples, outs, states, POLICY, Warn, steps, CPU);
  }

  // The firing at 200 follows the recovery at 100 within the interval of 300: the engine is alerting, and the webhook,
  // which has drained its queue without an overflow or a failure, was last told that it is not.
  lemma RelapseIsMissed()
    ensures exists samples, outs, states, steps :: WrongView(samples, outs, states, steps)
  {
    var evs := [Rise(0), Fall(), Rise(200)];
    EngineRuns();
    OutsFlat();
    PromptlyDrains(evs);
    NotHeardOf(evs);
    OwnEvents(evs);
    hide AlertRuns.IsRun, Promptly, Heard, Flatten, Drained, EventsOf, Reaching, WrongView;
    UnheardIsWrong(Samples(), Outs(), States(), Promptly(evs), evs);
  }

  lemma OwnEvents(evs: seq<Event>)
    requires evs == [Rise(0), Fall(), Rise(200)]
    ensures EventsOf(evs, CPU) == evs && Reaching(evs, Warn) == evs
  {
    FilterEverything(evs, (e: Event) => e.id == CPU);
    FilterEverything(evs, (e: Event) => EventReaches(e, Warn));
  }

  lemma NotHeardOf(evs: seq<Event>)
    requires evs == [Rise(0), Fall(), Rise(200)]
    ensures !Heard(evs, Warn, 300)
  {
    assert Below(evs[1], Warn) && LastBelow(evs, 1, Warn);
    forall i | 0 <= i < 3
      ensures !HeardAt(evs, i, Warn, 300)
    {
      assert i <= 1 || i == 2;
    }
  }

  ghost predicate WrongView(samples: seq<Sample>, outs: seq<seq<Event>>, states: seq<EngineVal>, steps: seq<Step>) {
    && AlertRuns.IsRun(ENGINE, samples, outs, states) && NoOverflow(POLICY, Warn, steps) && NoFailure(steps)
    && Run(POLICY, Warn, steps).offered == Flatten(outs) && Run(POLICY, Warn, steps).worker.queue == []
    && LevelOf(states[|samples|].states, CPU) == Warn
    && !ToldUp(EventsOf(Run(POLICY, Warn, steps).delivered, CPU), Warn)
  }

  function Escalation(): Event {
    Event(CPU, Fired, Warn, Crit, 95.0, 60)
  }

  lemma FirstDelivered()
    ensures var j := Run(POLICY, Warn, Promptly([Rise(0)]));
            && j.delivered == [Rise(0)] && j.worker.queue == [] && j.worker.minLevel == Warn
            && j.worker.lastSent == map[CPU := 0]
  {
    assert [Rise(0)][..0] == [];
    PromptlyDrains([Rise(0)]);
    OfferTaken(Run(POLICY, Warn, []), Rise(0));
    hide Promptly, Next;
    assert Run(POLICY, Warn, []) == Start(Warn);
  }

  // An escalation soon after a delivered firing is dropped as well: the webhook goes on showing the lesser level.
  lemma EscalationIsDropped()
    ensures var steps := Promptly([Rise(0), Escalation()]);
            Drained(steps, [Rise(0), Escalation()]) && Run(POLICY, Warn, steps).delivered == [Rise(0)]
  {
    var evs := [Rise(0), Escalation()];
    assert evs[..1] == [Rise(0)];
    FirstDelivered();
    PromptlyDrains(evs);
    OfferTaken(Run(POLICY, Warn, Promptly([Rise(0)])), Escalation());
    hide Promptly, Next, Drained, Run;
  }
}
