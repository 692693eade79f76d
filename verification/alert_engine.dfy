/** The alert engine as the mutable object the collector holds, proved against module Alert. */
module AlertEngine {
  import opened Seqs
  import opened Alert

  class MetricState {
    const id: Stream
    var active: Level
    var activeSince: int
    var lastValue: real
    var warnAbove: bool
    var warnSince: int
    var critAbove: bool
    var critSince: int
    var initialized: bool

    ghost function Value(): Debounce
      reads this
    {
      Debounce(active, activeSince, lastValue, warnAbove, warnSince, critAbove, critSince, initialized)
    }

    constructor (id: Stream, now: int)
      ensures this.id == id && Value() == Fresh(now)
    {
      this.id := id;
      active, activeSince, lastValue := OK, now, 0.0;
      warnAbove, warnSince, critAbove, critSince, initialized := false, 0, false, 0, false;
    }

    method UpdateThresholdState(aboveWarn: bool, aboveCrit: bool, now: int)
      modifies this
      ensures Value() == UpdateTimers(old(Value()), aboveWarn, aboveCrit, now)
    {
      if !initialized || warnAbove != aboveWarn {
        warnAbove := aboveWarn;
        warnSince := now;
      }
      if !initialized || critAbove != aboveCrit {
        critAbove := aboveCrit;
        critSince := now;
      }
      initialized := true;
    }

    // Folds one reading into the debounce state; a level change restarts activeSince.
    method Advance(value: real, cut: Cutoffs, now: int, forDur: int)
      modifies this
      ensures Value() == Observe(old(Value()), value, cut, now, forDur)
    {
      lastValue := value;
      UpdateThresholdState(value >= cut.warn, value >= cut.crit, now);
      var critHeld := now - critSince >= forDur;
      var warnHeld := now - warnSince >= forDur;
      var next := NextLevel(active, critAbove && critHeld, warnAbove && warnHeld,
                            !critAbove && critHeld, !warnAbove && warnHeld);
      if next != active {
        active := next;
        activeSince := now;
      }
    }
  }

  class Engine {
    const config: Config
    var states: map<Stream, MetricState>
    var events: seq<Event>

    // The id stored in each state makes distinct keys hold distinct objects.
    ghost predicate Valid()
      reads this, states.Values
    {
      && (forall id :: id in states ==> states[id].id == id)
      && |events| <= config.maxEvents
    }

    ghost function States(): Alert.States
      reads this, states.Values
    {
      map id | id in states :: states[id].Value()
    }

    ghost function Abs(): EngineVal
      reads this, states.Values
    {
      EngineVal(States(), events)
    }

    constructor (config: Config)
      ensures Valid() && this.config == config
      ensures Abs() == EngineVal(map[], [])
    {
      this.config := config;
      states := map[];
      events := [];
    }

    method RecordEvent(id: Stream, src: Level, dst: Level, value: real, now: int) returns (ev: Event)
      requires Valid()
      modifies this`events
      ensures Valid()
      ensures ev == Transition(id, src, dst, value, now)
      ensures events == LastN(old(events) + [ev], config.maxEvents)
    {
      var kind := Fired;
      if Severity(dst) < Severity(src) {
        kind := Cleared;
      }
      ev := Event(id, kind, src, dst, value, now);
      events := events + [ev];
      if |events| > config.maxEvents {
        events := events[|events| - config.maxEvents..];
      }
    }

    // The stream's state, created at its first reading.
    method Lookup(id: Stream, now: int) returns (st: MetricState)
      requires Valid()
      modifies this`states
      ensures Valid() && id in states && states[id] == st
      ensures id in old(states) ==> states == old(states)
      ensures id !in old(states) ==> fresh(st) && states == old(states)[id := st]
      ensures States() == old(States())[id := StateAt(old(States()), id, now)]
    {
      if id in states {
        st := states[id];
      } else {
        st := new MetricState(id, now);
        states := states[id := st];
      }
    }

    method AdvanceState(id: Stream, value: real, cut: Cutoffs, now: int)
      requires Valid() && id in states
      modifies states[id]
      ensures States() == old(States())[id := Observe(old(States()[id]), value, cut, now, config.forDur)]
    {
      states[id].Advance(value, cut, now, config.forDur);
    }

    // Folds a reading into the stream's state; reports the level before and after.
    method Track(id: Stream, value: real, cut: Cutoffs, now: int) returns (prev: Level, next: Level)
      requires Valid() && cut == config.thresholds.For(id.metric)
      modifies this`states, states.Values
      ensures Valid() && fresh(states.Values - old(states.Values))
      ensures States() == ObserveOne(config, old(States()), Obs(id, value), now)
      ensures prev == LevelOf(old(States()), id) && next == LevelOf(States(), id)
    {
      var st := Lookup(id, now);
      prev := st.active;
      AdvanceState(id, value, cut, now);
      next := st.active;
    }

    method EvalMetric(id: Stream, value: real, cut: Cutoffs, now: int) returns (emitted: seq<Event>)
      requires Valid() && cut == config.thresholds.For(id.metric)
      modifies this, states.Values
      ensures Valid() && fresh(states.Values - old(states.Values))
      ensures States() == ObserveOne(config, old(States()), Obs(id, value), now)
      ensures emitted == EventsOne(config, old(States()), Obs(id, value), now)
      ensures events == LastN(old(events) + emitted, config.maxEvents)
    {
      var prev, next := Track(id, value, cut, now);
      emitted := [];
      if next != prev {
        var ev := RecordEvent(id, prev, next, value, now);
        emitted := [ev];
      } else {
        assert old(events) + emitted == old(events);
      }
    }

    // The engine has folded the readings `done` into the value it started the call with.
    ghost predicate Folded(start: EngineVal, done: seq<Obs>, now: int, emitted: seq<Event>)
      reads this, states.Values
    {
      && States() == ObserveAll(config, start.states, done, now)
      && emitted == EventsAll(config, start.states, done, now)
      && events == LastN(start.events + emitted, config.maxEvents)
    }

    method Feed(o: Obs, now: int, emitted: seq<Event>, ghost start: EngineVal, ghost done: seq<Obs>)
      returns (emitted': seq<Event>)
      requires Valid() && Folded(start, done, now, emitted)
      modifies this, states.Values
      ensures Valid() && fresh(states.Values - old(states.Values))
      ensures Folded(start, done + [o], now, emitted')
    {
      assert (done + [o])[..|done|] == done;
      var evs := EvalMetric(o.id, o.value, config.thresholds.For(o.id.metric), now);
      LogAppend(start.events, emitted, evs, config.maxEvents);
      emitted' := emitted + evs;
    }

    method FeedScalar(m: Metric, v: Option<real>, now: int, emitted: seq<Event>, ghost start: EngineVal,
                      ghost done: seq<Obs>)
      returns (emitted': seq<Event>)
      requires Valid() && Folded(start, done, now, emitted)
      modifies this, states.Values
      ensures Valid() && fresh(states.Values - old(states.Values))
      ensures Folded(start, done + Scalar(m, v), now, emitted')
    {
      if v.Some? {
        emitted' := Feed(Obs(Stream(m, ""), v.value), now, emitted, start, done);
      } else {
        assert done + [] == done;
        emitted' := emitted;
      }
    }

    method FeedDisk(disks: seq<DiskSample>, i: nat, now: int, emitted: seq<Event>, ghost start: EngineVal,
                    ghost done: seq<Obs>)
      returns (emitted': seq<Event>)
      requires i < |disks|
      requires Valid() && Folded(start, done + DiskObs(disks[..i]), now, emitted)
      modifies this, states.Values
      ensures Valid() && fresh(states.Values - old(states.Values))
      ensures Folded(start, done + DiskObs(disks[..i + 1]), now, emitted')
    {
      var o := Obs(Stream(Disk, disks[i].mountpoint), disks[i].usedPercent);
      assert done + DiskObs(disks[..i]) + [o] == done + DiskObs(disks[..i + 1]);
      emitted' := Feed(o, now, emitted, start, done + DiskObs(disks[..i]));
    }

    method FeedDisks(disks: seq<DiskSample>, now: int, emitted: seq<Event>, ghost start: EngineVal,
                     ghost done: seq<Obs>)
      returns (emitted': seq<Event>)
      requires Valid() && Folded(start, done, now, emitted)
      modifies this, states.Values
      ensures Valid() && fresh(states.Values - old(states.Values))
      ensures Folded(start, done + DiskObs(disks), now, emitted')
    {
      emitted' := emitted;
      assert done + DiskObs(disks[..0]) == done;
      for i := 0 to |disks|
        invariant Valid() && fresh(states.Values - old(states.Values))
        invariant Folded(start, done + DiskObs(disks[..i]), now, emitted')
      {
        emitted' := FeedDisk(disks, i, now, emitted', start, done);
      }
      assert disks[..|disks|] == disks;
    }

    method PruneOne(id: Stream, s: Sample) returns (evs: seq<Event>)
      requires Valid() && id in states
      modifies this
      ensures Valid() && states.Values <= old(states.Values)
      ensures States() == if Vanished(s, id) then old(States()) - {id} else old(States())
      ensures evs == Farewell(old(States()), s, id)
      ensures events == LastN(old(events) + evs, config.maxEvents)
    {
      evs := [];
      assert old(events) + evs == old(events);
      if Vanished(s, id) {
        var st := states[id];
        if st.active != OK {
          var ev := RecordEvent(id, st.active, OK, st.lastValue, s.timestamp);
          evs := [ev];
        }
        states := states - {id};
      }
    }

    // Pruning has dealt with every stream of `start` outside todo.
    ghost predicate Pruning(start: EngineVal, s: Sample, todo: set<Stream>, emitted: seq<Event>)
      reads this, states.Values
    {
      && States() == Remaining(start.states, s, todo)
      && PrunedSoFar(start.states, s, todo, emitted)
      && events == LastN(start.events + emitted, config.maxEvents)
    }

    method PruneStep(id: Stream, s: Sample, emitted: seq<Event>, ghost start: EngineVal, ghost todo: set<Stream>)
      returns (emitted': seq<Event>)
      requires Valid() && id in todo && todo <= start.states.Keys
      requires Pruning(start, s, todo, emitted)
      modifies this
      ensures Valid() && states.Values <= old(states.Values)
      ensures Pruning(start, s, todo - {id}, emitted')
    {
      RemainingNext(start.states, s, todo, id);
      var evs := PruneOne(id, s);
      LogAppend(start.events, emitted, evs, config.maxEvents);
      PruneNext(start.states, s, todo, emitted, id);
      emitted' := emitted + evs;
    }

    // Map iteration order is arbitrary, hence the nondeterministic choice of the next stream.
    method PruneDisks(s: Sample) returns (emitted: seq<Event>)
      requires Valid()
      modifies this
      ensures Valid() && states.Values <= old(states.Values)
      ensures States() == Prune(old(States()), s)
      ensures IsPruneLog(old(States()), s, emitted)
      ensures events == LastN(old(events) + emitted, config.maxEvents)
    {
      ghost var start := Abs();
      var todo := states.Keys;
      emitted := [];
      assert start.events + emitted == start.events;
      while todo != {}
        invariant Valid() && states.Values <= old(states.Values)
        invariant todo <= start.states.Keys && Pruning(start, s, todo, emitted)
        decreases todo
      {
        var id :| id in todo;
        emitted := PruneStep(id, s, emitted, start, todo);
        todo := todo - {id};
      }
    }

    method EvaluateScalars(s: Sample, ghost start: EngineVal) returns (emitted: seq<Event>)
      requires Valid() && start == Abs()
      modifies this, states.Values
      ensures Valid() && fresh(states.Values - old(states.Values))
      ensures Folded(start, ScalarObs(s), s.timestamp, emitted)
    {
      ghost var o1 := [] + Scalar(Cpu, s.cpu);
      ghost var o2 := o1 + Scalar(Temperature, s.temperature);
      ghost var o3 := o2 + Scalar(Memory, s.memory);
      assert o3 + Scalar(Swap, s.swap) == ScalarObs(s);
      assert start.events + [] == start.events;
      assert Folded(start, [], s.timestamp, []);
      hide Folded, Scalar, Valid, States, Abs, ObserveAll, EventsAll, ScalarObs;
      emitted := FeedScalar(Cpu, s.cpu, s.timestamp, [], start, []);
      emitted := FeedScalar(Temperature, s.temperature, s.timestamp, emitted, start, o1);
      emitted := FeedScalar(Memory, s.memory, s.timestamp, emitted, start, o2);
      emitted := FeedScalar(Swap, s.swap, s.timestamp, emitted, start, o3);
    }

    method Evaluate(s: Sample) returns (emitted: seq<Event>)
      requires Valid()
      modifies this, states.Values
      ensures Valid() && fresh(states.Values - old(states.Values))
      ensures EvaluateStep(config, old(Abs()), s, Abs(), emitted)
    {
      ghost var start := Abs();
      emitted := EvaluateScalars(s, start);
      if s.disks.Some? {
        emitted := FeedDisks(s.disks.value, s.timestamp, emitted, start, ScalarObs(s));
        ghost var observed := States();
        var pruned := PruneDisks(s);
        EvaluateDone(config, start, s, emitted, observed, pruned, Abs());
        emitted := emitted + pruned;
      } else {
        assert ScalarObs(s) == Observations(s);
        NothingVanishes(States(), s);
        EvaluateDone(config, start, s, emitted, States(), [], Abs());
        assert emitted + [] == emitted;
      }
    }
  }

  lemma NothingVanishes(states: States, s: Sample)
    requires s.disks.None?
    ensures Prune(states, s) == states && IsPruneLog(states, s, [])
  {
  }

  // Evaluation and pruning each append to the bounded log; together they are one step.
  lemma EvaluateDone(c: Config, start: EngineVal, s: Sample, transitions: seq<Event>, observed: States,
                     pruned: seq<Event>, end: EngineVal)
    requires observed == ObserveAll(c, start.states, Observations(s), s.timestamp)
    requires transitions == EventsAll(c, start.states, Observations(s), s.timestamp)
    requires IsPruneLog(observed, s, pruned) && end.states == Prune(observed, s)
    requires end.events == LastN(LastN(start.events + transitions, c.maxEvents) + pruned, c.maxEvents)
    ensures EvaluateStep(c, start, s, end, transitions + pruned)
  {
    LogAppend(start.events, transitions, pruned, c.maxEvents);
    assert (transitions + pruned)[|transitions|..] == pruned;
  }

  ghost function Remaining(states: States, s: Sample, todo: set<Stream>): States {
    map id | id in states && (id in todo || !Vanished(s, id)) :: states[id]
  }

  lemma RemainingNext(states: States, s: Sample, todo: set<Stream>, next: Stream)
    requires next in todo && next in states
    ensures Farewell(Remaining(states, s, todo), s, next) == Farewell(states, s, next)
    ensures Remaining(states, s, todo - {next})
         == if Vanished(s, next) then Remaining(states, s, todo) - {next} else Remaining(states, s, todo)
  {
  }

  ghost predicate PrunedSoFar(states: States, s: Sample, todo: set<Stream>, log: seq<Event>) {
    forall id :: EventsOf(log, id) == if id in todo then [] else Farewell(states, s, id)
  }

  lemma PruneNext(states: States, s: Sample, todo: set<Stream>, log: seq<Event>, next: Stream)
    requires next in todo && PrunedSoFar(states, s, todo, log)
    ensures PrunedSoFar(states, s, todo - {next}, log + Farewell(states, s, next))
  {
    var evs := Farewell(states, s, next);
    if evs != [] {
      AppendEvent(log, evs[0]);
    } else {
      assert log + evs == log;
    }
  }

  lemma LogAppend(start: seq<Event>, emitted: seq<Event>, evs: seq<Event>, n: nat)
    ensures LastN(LastN(start + emitted, n) + evs, n) == LastN(start + (emitted + evs), n)
  {
    LastNAppend(start + emitted, evs, n);
    assert start + emitted + evs == start + (emitted + evs);
  }

  lemma AppendEvent(log: seq<Event>, ev: Event)
    ensures forall id :: EventsOf(log + [ev], id) == EventsOf(log, id) + if ev.id == id then [ev] else []
  {
    assert (log + [ev])[..|log|] == log;
  }
}
