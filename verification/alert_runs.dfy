/** Whole runs of the alert engine: exact debouncing per stream, event chains, the bounded event list. */
module AlertRuns {
  import opened Seqs
  import opened Alert
  import opened Debouncing

  // states[i] is the engine after i samples, outs[i] what evaluating sample i emitted.
  ghost predicate IsRun(c: Config, samples: seq<Sample>, outs: seq<seq<Event>>, states: seq<EngineVal>) {
    && |outs| == |samples|
    && |states| == |samples| + 1
    && states[0] == EngineVal(map[], [])
    && (forall i :: 0 <= i < |samples| ==> EvaluateStep(c, states[i], samples[i], states[i + 1], outs[i]))
  }

  ghost predicate Chronological(samples: seq<Sample>) {
    forall i, j :: 0 <= i <= j < |samples| ==> samples[i].timestamp <= samples[j].timestamp
  }

  lemma RunPrefix(c: Config, samples: seq<Sample>, outs: seq<seq<Event>>, states: seq<EngineVal>)
    requires IsRun(c, samples, outs, states) && |samples| > 0
    ensures IsRun(c, samples[..|samples| - 1], outs[..|outs| - 1], states[..|states| - 1])
  {
  }

  // ------------------------------------------------------------------------------------------
  // Debouncing over runs

  // h followed by the readings of id among obs, all taken at time now.
  ghost function Extend(h: seq<Reading>, obs: seq<Obs>, id: Stream, now: int): seq<Reading> {
    if |obs| == 0 then h
    else
      var h' := Extend(h, obs[..|obs| - 1], id, now);
      var o := obs[|obs| - 1];
      if o.id == id then h' + [Reading(o.value, now)] else h'
  }

  // The valid readings of a stream since it was last pruned.
  ghost function History(samples: seq<Sample>, id: Stream): seq<Reading> {
    if |samples| == 0 then []
    else
      var s := samples[|samples| - 1];
      if Vanished(s, id) then []
      else Extend(History(samples[..|samples| - 1], id), Observations(s), id, s.timestamp)
  }

  ghost predicate TracksAt(c: Config, states: States, id: Stream, h: seq<Reading>) {
    && (id in states <==> h != [])
    && (id in states ==> Tracks(states[id], h, c.thresholds.For(id.metric), c.forDur))
  }

  ghost predicate NotAfter(h: seq<Reading>, now: int) {
    Sorted(h) && forall i :: 0 <= i < |h| ==> h[i].at <= now
  }

  lemma ObserveOneTracks(c: Config, states: States, o: Obs, now: int, id: Stream, h: seq<Reading>)
    requires c.thresholds.Ordered() && NotAfter(h, now) && TracksAt(c, states, id, h)
    ensures var h' := if o.id == id then h + [Reading(o.value, now)] else h;
            NotAfter(h', now) && TracksAt(c, ObserveOne(c, states, o, now), id, h')
  {
    hide Observe, Tracks;
    if o.id == id {
      ObserveTracks(StateAt(states, id, now), h, Reading(o.value, now), c.thresholds.For(id.metric), c.forDur);
    }
  }

  lemma {:induction false} ObserveAllTracks(c: Config, states: States, obs: seq<Obs>, now: int, id: Stream,
                                            h: seq<Reading>)
    requires c.thresholds.Ordered() && NotAfter(h, now) && TracksAt(c, states, id, h)
    ensures NotAfter(Extend(h, obs, id, now), now)
    ensures TracksAt(c, ObserveAll(c, states, obs, now), id, Extend(h, obs, id, now))
  {
    if |obs| == 0 {
    } else {
      var init := obs[..|obs| - 1];
      ObserveAllTracks(c, states, init, now, id, h);
      ObserveOneTracks(c, ObserveAll(c, states, init, now), obs[|obs| - 1], now, id, Extend(h, init, id, now));
    }
  }

  // One evaluation, pruning included.
  lemma StepTracks(c: Config, e: EngineVal, s: Sample, e': EngineVal, emitted: seq<Event>, id: Stream, h: seq<Reading>)
    requires c.thresholds.Ordered() && NotAfter(h, s.timestamp) && TracksAt(c, e.states, id, h)
    requires EvaluateStep(c, e, s, e', emitted)
    ensures var h' := if Vanished(s, id) then [] else Extend(h, Observations(s), id, s.timestamp);
            TracksAt(c, e'.states, id, h') && NotAfter(h', s.timestamp)
  {
    hide Tracks, Extend, ObserveAll, Observations;
    ObserveAllTracks(c, e.states, Observations(s), s.timestamp, id, h);
  }

  lemma LevelTracked(c: Config, states: States, id: Stream, h: seq<Reading>)
    requires TracksAt(c, states, id, h)
    ensures LevelOf(states, id) == DebouncedLevel(h, c.thresholds.For(id.metric), c.forDur)
  {
  }

  lemma LaterThanReadings(h: seq<Reading>, before: int, now: int)
    requires NotAfter(h, before) && before <= now
    ensures NotAfter(h, now)
  {
  }

  // After every run, every stream's state is exactly what its readings since the last prune determine.
  lemma {:induction false} DebounceExactOverRuns(c: Config, samples: seq<Sample>, outs: seq<seq<Event>>,
                                                 states: seq<EngineVal>, id: Stream)
    requires c.thresholds.Ordered() && Chronological(samples) && IsRun(c, samples, outs, states)
    ensures TracksAt(c, states[|samples|].states, id, History(samples, id))
    ensures |samples| > 0 ==> NotAfter(History(samples, id), samples[|samples| - 1].timestamp)
    ensures LevelOf(states[|samples|].states, id)
         == DebouncedLevel(History(samples, id), c.thresholds.For(id.metric), c.forDur)
  {
    hide EvaluateStep, DebouncedLevel, LevelOf, Extend, Vanished, Observations;
    if |samples| == 0 {
      LevelTracked(c, states[0].states, id, []);
    } else {
      var n := |samples| - 1;
      var h := History(samples[..n], id);
      RunPrefix(c, samples, outs, states);
      DebounceExactOverRuns(c, samples[..n], outs[..n], states[..n + 1], id);
      if n > 0 {
        LaterThanReadings(h, samples[n - 1].timestamp, samples[n].timestamp);
      }
      StepTracks(c, states[n], samples[n], states[n + 1], outs[n], id, h);
      LevelTracked(c, states[n + 1].states, id, History(samples, id));
    }
  }

  // ------------------------------------------------------------------------------------------
  // Event chains

  // A transition proper, whose kind says whether severity rose.
  ghost predicate Link(e: Event) {
    && e.src != e.dst
    && (e.kind == Fired <==> Severity(e.dst) > Severity(e.src))
  }

  // evs leads from level src to level dst, each event leaving the level the previous one entered.
  ghost predicate Chain(evs: seq<Event>, src: Level, dst: Level) {
    if |evs| == 0 then src == dst
    else
      var e := evs[|evs| - 1];
      Link(e) && e.dst == dst && Chain(evs[..|evs| - 1], src, e.src)
  }

  lemma {:induction false} ChainAppend(a: seq<Event>, b: seq<Event>, l0: Level, l1: Level, l2: Level)
    requires Chain(a, l0, l1) && Chain(b, l1, l2)
    ensures Chain(a + b, l0, l2)
  {
    if |b| == 0 {
      assert a + b == a;
    } else {
      var init := b[..|b| - 1];
      ChainAppend(a, init, l0, l1, b[|b| - 1].src);
      assert (a + b)[..|a + b| - 1] == a + init;
    }
  }

  lemma EventsOfAppend(a: seq<Event>, b: seq<Event>, id: Stream)
    ensures EventsOf(a + b, id) == EventsOf(a, id) + EventsOf(b, id)
  {
    FilterAppend(a, b, (e: Event) => e.id == id);
  }

  lemma ObserveOneChain(c: Config, states: States, o: Obs, now: int, id: Stream)
    ensures Chain(EventsOf(EventsOne(c, states, o, now), id), LevelOf(states, id),
                  LevelOf(ObserveOne(c, states, o, now), id))
  {
    var src, dst := LevelOf(states, o.id), LevelOf(ObserveOne(c, states, o, now), o.id);
    if src != dst {
      OneEventChain(Transition(o.id, src, dst, o.value, now), id);
    }
  }

  lemma OneEventChain(e: Event, id: Stream)
    requires Link(e)
    ensures EventsOf([e], id) == if e.id == id then [e] else []
    ensures Chain([e], e.src, e.dst)
  {
    FilterOne(e, (e: Event) => e.id == id);
  }

  lemma {:induction false} ObserveAllChain(c: Config, states: States, obs: seq<Obs>, now: int, id: Stream)
    ensures Chain(EventsOf(EventsAll(c, states, obs, now), id), LevelOf(states, id),
                  LevelOf(ObserveAll(c, states, obs, now), id))
  {
    if |obs| == 0 {
    } else {
      var o, init := obs[|obs| - 1], obs[..|obs| - 1];
      var before, evs := ObserveAll(c, states, init, now), EventsAll(c, states, init, now);
      ObserveAllChain(c, states, init, now, id);
      ObserveOneChain(c, before, o, now, id);
      EventsOfAppend(evs, EventsOne(c, before, o, now), id);
      ChainAppend(EventsOf(evs, id), EventsOf(EventsOne(c, before, o, now), id),
                  LevelOf(states, id), LevelOf(before, id), LevelOf(ObserveOne(c, before, o, now), id));
    }
  }

  // One evaluation, pruning included, takes every stream from its old level to its new one.
  lemma StepChain(c: Config, e: EngineVal, s: Sample, e': EngineVal, emitted: seq<Event>, id: Stream)
    requires EvaluateStep(c, e, s, e', emitted)
    ensures Chain(EventsOf(emitted, id), LevelOf(e.states, id), LevelOf(e'.states, id))
  {
    var observed := ObserveAll(c, e.states, Observations(s), s.timestamp);
    var transitions := EventsAll(c, e.states, Observations(s), s.timestamp);
    var pruned := emitted[|transitions|..];
    ObserveAllChain(c, e.states, Observations(s), s.timestamp, id);
    assert emitted == transitions + pruned;
    EventsOfAppend(transitions, pruned, id);
    assert EventsOf(pruned, id) == Farewell(observed, s, id);
    assert Chain(Farewell(observed, s, id), LevelOf(observed, id), LevelOf(e'.states, id));
    ChainAppend(EventsOf(transitions, id), EventsOf(pruned, id), LevelOf(e.states, id), LevelOf(observed, id),
                LevelOf(e'.states, id));
  }

  // Over any run, prunes and reappearances included, the events of a stream lead from ok to its present level.
  lemma {:induction false} EventsFormChain(c: Config, samples: seq<Sample>, outs: seq<seq<Event>>,
                                           states: seq<EngineVal>, id: Stream)
    requires IsRun(c, samples, outs, states)
    ensures Chain(EventsOf(Flatten(outs), id), OK, LevelOf(states[|samples|].states, id))
  {
    if |samples| == 0 {
    } else {
      var n := |samples| - 1;
      RunPrefix(c, samples, outs, states);
      EventsFormChain(c, samples[..n], outs[..n], states[..n + 1], id);
      assert EvaluateStep(c, states[n], samples[n], states[n + 1], outs[n]);
      StepChain(c, states[n], samples[n], states[n + 1], outs[n], id);
      EventsOfAppend(Flatten(outs[..n]), outs[n], id);
      ChainAppend(EventsOf(Flatten(outs[..n]), id), EventsOf(outs[n], id), OK,
                  LevelOf(states[n].states, id), LevelOf(states[n + 1].states, id));
    }
  }

  // The event list the engine serves is the newest maxEvents of everything Evaluate ever returned.
  lemma {:induction false} StoredEventsAreNewest(c: Config, samples: seq<Sample>, outs: seq<seq<Event>>,
                                                 states: seq<EngineVal>)
    requires IsRun(c, samples, outs, states)
    ensures states[|samples|].events == LastN(Flatten(outs), c.maxEvents)
  {
    if |samples| == 0 {
    } else {
      var n := |samples| - 1;
      RunPrefix(c, samples, outs, states);
      StoredEventsAreNewest(c, samples[..n], outs[..n], states[..n + 1]);
      assert EvaluateStep(c, states[n], samples[n], states[n + 1], outs[n]);
      LastNAppend(Flatten(outs[..n]), outs[n], c.maxEvents);
    }
  }

  // ------------------------------------------------------------------------------------------
  // Every event has its reason

  // The readings h end with the one that made the transition, and a long enough tail of them is past the boundary
  // crossed.
  ghost predicate Justified(e: Event, h: seq<Reading>, cut: Cutoffs, d: int) {
    && |h| > 0 && h[|h| - 1] == Reading(e.value, e.at)
    && (Severity(e.dst) > Severity(e.src) ==> Confirmed(h, if e.dst == Crit then cut.crit else cut.warn, true, d))
    && (Severity(e.dst) < Severity(e.src) ==> Confirmed(h, if e.dst == OK then cut.warn else cut.crit, false, d))
  }

  // The valid readings of a stream since it was last pruned, up to and including reading n of sample i.
  ghost function ReadingsTo(samples: seq<Sample>, i: nat, n: nat, id: Stream): seq<Reading>
    requires i < |samples| && n < |Observations(samples[i])|
  {
    Extend(History(samples[..i], id), Observations(samples[i])[..n + 1], id, samples[i].timestamp)
  }

  ghost predicate JustifiedAt(c: Config, samples: seq<Sample>, i: nat, n: nat, e: Event)
    requires i < |samples| && n < |Observations(samples[i])|
  {
    && e.id == Observations(samples[i])[n].id
    && Justified(e, ReadingsTo(samples, i, n, e.id), c.thresholds.For(e.id.metric), c.forDur)
  }

  lemma ObserveOneJustified(c: Config, states: States, o: Obs, now: int, h: seq<Reading>, e: Event)
    requires c.thresholds.Ordered() && NotAfter(h, now) && TracksAt(c, states, o.id, h)
    requires e in EventsOne(c, states, o, now)
    ensures e.id == o.id && Justified(e, h + [Reading(o.value, now)], c.thresholds.For(o.id.metric), c.forDur)
  {
    ObserveOneTracks(c, states, o, now, o.id, h);
    var h', cut := h + [Reading(o.value, now)], c.thresholds.For(o.id.metric);
    assert h'[..|h'| - 1] == h;
    DebouncedLevelExact(h', cut, c.forDur);
  }

  lemma {:induction false} EventOfReading(c: Config, states: States, obs: seq<Obs>, now: int, e: Event) returns (n: nat)
    requires e in EventsAll(c, states, obs, now)
    ensures n < |obs| && e in EventsOne(c, ObserveAll(c, states, obs[..n], now), obs[n], now)
  {
    var init := obs[..|obs| - 1];
    if e in EventsAll(c, states, init, now) {
      n := EventOfReading(c, states, init, now, e);
      assert init[..n] == obs[..n];
    } else {
      n := |obs| - 1;
    }
  }

  lemma {:induction false} RunUpTo(c: Config, samples: seq<Sample>, outs: seq<seq<Event>>, states: seq<EngineVal>,
                                   i: nat)
    requires IsRun(c, samples, outs, states) && i <= |samples|
    ensures IsRun(c, samples[..i], outs[..i], states[..i + 1])
  {
  }

  lemma HistoryTracked(c: Config, samples: seq<Sample>, outs: seq<seq<Event>>, states: seq<EngineVal>, i: nat,
                       id: Stream)
    requires c.thresholds.Ordered() && Chronological(samples) && IsRun(c, samples, outs, states) && i < |samples|
    ensures TracksAt(c, states[i].states, id, History(samples[..i], id))
    ensures NotAfter(History(samples[..i], id), samples[i].timestamp)
  {
    hide TracksAt, EvaluateStep;
    var h := History(samples[..i], id);
    RunUpTo(c, samples, outs, states, i);
    assert Chronological(samples[..i]);
    DebounceExactOverRuns(c, samples[..i], outs[..i], states[..i + 1], id);
    if i > 0 {
      LaterThanReadings(h, samples[..i][i - 1].timestamp, samples[i].timestamp);
    }
  }

  lemma TransitionIsJustified(c: Config, samples: seq<Sample>, outs: seq<seq<Event>>, states: seq<EngineVal>,
                              i: nat, n: nat, e: Event)
    requires c.thresholds.Ordered() && Chronological(samples) && IsRun(c, samples, outs, states)
    requires i < |samples| && n < |Observations(samples[i])|
    requires var s, obs := samples[i], Observations(samples[i]);
             e in EventsOne(c, ObserveAll(c, states[i].states, obs[..n], s.timestamp), obs[n], s.timestamp)
    ensures JustifiedAt(c, samples, i, n, e)
  {
    hide EvaluateStep, NotAfter, TracksAt, ObserveAll, EventsOne, Justified, DebouncedLevel, Observations;
    var s, obs := samples[i], Observations(samples[i]);
    var id := obs[n].id;
    var h := History(samples[..i], id);
    HistoryTracked(c, samples, outs, states, i, id);
    assert obs[..n + 1][..n] == obs[..n];
    var before, h' := ObserveAll(c, states[i].states, obs[..n], s.timestamp), Extend(h, obs[..n], id, s.timestamp);
    assert Extend(h, obs[..n + 1], id, s.timestamp) == h' + [Reading(obs[n].value, s.timestamp)];
    ObserveAllTracks(c, states[i].states, obs[..n], s.timestamp, id, h);
    ObserveOneJustified(c, before, obs[n], s.timestamp, h', e);
  }

  // Over any run, every event emitted for a sample is justified by the readings of its stream up to the one that made
  // it, or is the farewell of a disk that vanished.
  lemma EveryEventIsJustified(c: Config, samples: seq<Sample>, outs: seq<seq<Event>>, states: seq<EngineVal>, i: nat,
                              e: Event)
    requires c.thresholds.Ordered() && Chronological(samples) && IsRun(c, samples, outs, states)
    requires i < |samples| && e in outs[i]
    ensures (exists n: nat :: n < |Observations(samples[i])| && JustifiedAt(c, samples, i, n, e))
         || e in Farewell(ObserveAll(c, states[i].states, Observations(samples[i]), samples[i].timestamp),
                          samples[i], e.id)
  {
    var s, obs := samples[i], Observations(samples[i]);
    var transitions := EventsAll(c, states[i].states, obs, s.timestamp);
    assert EvaluateStep(c, states[i], s, states[i + 1], outs[i]);
    var pruned := outs[i][|transitions|..];
    assert outs[i] == transitions + pruned;
    hide IsRun, Chronological, JustifiedAt;
    if e in transitions {
      var n := EventOfReading(c, states[i].states, obs, s.timestamp, e);
      TransitionIsJustified(c, samples, outs, states, i, n, e);
    } else {
      EventsOfIn(pruned, e);
    }
  }

  lemma {:induction false} EventsOfIn(log: seq<Event>, e: Event)
    requires e in log
    ensures e in EventsOf(log, e.id)
  {
    if e == log[|log| - 1] {
    } else {
      EventsOfIn(log[..|log| - 1], e);
    }
  }

  // ------------------------------------------------------------------------------------------
  // String keys

  const NUL := '\0'

  function MetricName(m: Metric): string {
    match m
    case Cpu => "cpu"
    case Temperature => "temperature"
    case Memory => "memory"
    case Swap => "swap"
    case Disk => "disk"
  }

  // The key the engine's map and the notifier's rate limiter use for a stream.
  function StreamKey(id: Stream): string {
    MetricName(id.metric) + [NUL] + id.resource
  }

  lemma NoNulInName(m: Metric)
    ensures forall i :: 0 <= i < |MetricName(m)| ==> MetricName(m)[i] != NUL
  {
    match m
    case Cpu =>
    case Temperature =>
    case Memory =>
    case Swap =>
    case Disk =>
  }

  lemma NamesDiffer(m: Metric, m': Metric)
    requires MetricName(m) == MetricName(m')
    ensures m == m'
  {
    assert MetricName(m)[0] == MetricName(m')[0];
  }

  // The NUL separator keeps metric and resource apart whatever the resource contains, NULs included.
  lemma StreamKeyInjective(a: Stream, b: Stream)
    requires StreamKey(a) == StreamKey(b)
    ensures a == b
  {
    var n, m := MetricName(a.metric), MetricName(b.metric);
    NoNulInName(a.metric);
    NoNulInName(b.metric);
    SeparatorUnique(n, a.resource, m, b.resource);
    NamesDiffer(a.metric, b.metric);
  }

  lemma SeparatorUnique(n: string, r: string, n': string, r': string)
    requires forall i :: 0 <= i < |n| ==> n[i] != NUL
    requires forall i :: 0 <= i < |n'| ==> n'[i] != NUL
    requires n + [NUL] + r == n' + [NUL] + r'
    ensures n == n' && r == r'
  {
    var k := n + [NUL] + r;
    assert k[|n|] == NUL && (n' + [NUL] + r')[|n'|] == NUL;
    assert k[..|n|] == n && (n' + [NUL] + r')[..|n'|] == n';
    assert forall i :: 0 <= i < |n| ==> k[i] == n[i];
    assert forall i :: 0 <= i < |n'| ==> k[i] == n'[i];
    if |n| != |n'| {
      assert false;
    }
    assert k[|n| + 1..] == r && (n' + [NUL] + r')[|n'| + 1..] == r';
  }
}
