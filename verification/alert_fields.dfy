/** Which reading and which cutoffs each stream lives by, said of the fields of samples and of the configuration. */
module AlertFields {
  import opened Seqs
  import opened Alert
  import opened Debouncing
  import opened AlertRuns

  // ------------------------------------------------------------------------------------------
  // Scalars

  // The values one field of the samples had, with the samples' times.
  ghost function Readings(samples: seq<Sample>, field: Sample -> Option<real>): seq<Reading> {
    if |samples| == 0 then []
    else
      var s := samples[|samples| - 1];
      Readings(samples[..|samples| - 1], field)
        + (if field(s).Some? then [Reading(field(s).value, s.timestamp)] else [])
  }

  lemma {:induction false} ExtendAppend(h: seq<Reading>, a: seq<Obs>, b: seq<Obs>, id: Stream, now: int)
    ensures Extend(h, a + b, id, now) == Extend(Extend(h, a, id, now), b, id, now)
  {
    if |b| == 0 {
      assert a + b == a;
    } else {
      ExtendAppend(h, a, b[..|b| - 1], id, now);
      assert (a + b)[..|a + b| - 1] == a + b[..|b| - 1];
    }
  }

  lemma ExtendScalar(h: seq<Reading>, m: Metric, v: Option<real>, id: Stream, now: int)
    ensures Extend(h, Scalar(m, v), id, now)
         == if v.Some? && id == Stream(m, "") then h + [Reading(v.value, now)] else h
  {
    if v.Some? {
      assert [Obs(Stream(m, ""), v.value)][..0] == [];
    }
  }

  lemma {:induction false} ExtendDisks(h: seq<Reading>, disks: seq<DiskSample>, id: Stream, now: int)
    requires id.metric != Disk
    ensures Extend(h, DiskObs(disks), id, now) == h
  {
    if |disks| == 0 {
    } else {
      ExtendDisks(h, disks[..|disks| - 1], id, now);
      assert DiskObs(disks)[..|disks| - 1] == DiskObs(disks[..|disks| - 1]);
    }
  }

  // What one sample adds to a scalar's readings.
  lemma ScalarExtend(h: seq<Reading>, s: Sample, m: Metric)
    requires m != Disk
    ensures var v := match m case Cpu => s.cpu case Temperature => s.temperature case Memory => s.memory
                             case Swap => s.swap case Disk => None;
            Extend(h, Observations(s), Stream(m, ""), s.timestamp)
            == if v.Some? then h + [Reading(v.value, s.timestamp)] else h
  {
    var id, now := Stream(m, ""), s.timestamp;
    var a, b := Scalar(Cpu, s.cpu), Scalar(Temperature, s.temperature);
    var c, d := Scalar(Memory, s.memory), Scalar(Swap, s.swap);
    var e := if s.disks.Some? then DiskObs(s.disks.value) else [];
    assert Observations(s) == a + b + c + d + e;
    hide Extend, Scalar, DiskObs, Observations;
    ExtendAppend(h, a + b + c + d, e, id, now);
    ExtendAppend(h, a + b + c, d, id, now);
    ExtendAppend(h, a + b, c, id, now);
    ExtendAppend(h, a, b, id, now);
    forall h: seq<Reading>
      ensures Extend(h, e, id, now) == h
    {
      if s.disks.Some? {
        ExtendDisks(h, s.disks.value, id, now);
      } else {
        ExtendNothing(h, id, now);
      }
    }
    var h1 := Extend(h, a, id, now);
    var h2 := Extend(h1, b, id, now);
    var h3 := Extend(h2, c, id, now);
    ExtendScalar(h, Cpu, s.cpu, id, now);
    ExtendScalar(h1, Temperature, s.temperature, id, now);
    ExtendScalar(h2, Memory, s.memory, id, now);
    ExtendScalar(h3, Swap, s.swap, id, now);
  }

  lemma ExtendNothing(h: seq<Reading>, id: Stream, now: int)
    ensures Extend(h, [], id, now) == h
  {
  }

  lemma {:induction false} ScalarHistories(samples: seq<Sample>)
    ensures History(samples, Stream(Cpu, "")) == Readings(samples, (s: Sample) => s.cpu)
    ensures History(samples, Stream(Temperature, "")) == Readings(samples, (s: Sample) => s.temperature)
    ensures History(samples, Stream(Memory, "")) == Readings(samples, (s: Sample) => s.memory)
    ensures History(samples, Stream(Swap, "")) == Readings(samples, (s: Sample) => s.swap)
  {
    hide Extend, Observations;
    if |samples| == 0 {
    } else {
      var init, s := samples[..|samples| - 1], samples[|samples| - 1];
      ScalarHistories(init);
      ScalarExtend(History(init, Stream(Cpu, "")), s, Cpu);
      ScalarExtend(History(init, Stream(Temperature, "")), s, Temperature);
      ScalarExtend(History(init, Stream(Memory, "")), s, Memory);
      ScalarExtend(History(init, Stream(Swap, "")), s, Swap);
    }
  }

  // After any run the level of each scalar is the debounced level of its own field's values under its own cutoffs.
  lemma ScalarLevels(c: Config, samples: seq<Sample>, outs: seq<seq<Event>>, states: seq<EngineVal>)
    requires c.thresholds.Ordered() && Chronological(samples) && IsRun(c, samples, outs, states)
    ensures var st, t, d := states[|samples|].states, c.thresholds, c.forDur;
            && LevelOf(st, Stream(Cpu, "")) == DebouncedLevel(Readings(samples, (s: Sample) => s.cpu), t.cpu, d)
            && LevelOf(st, Stream(Temperature, ""))
               == DebouncedLevel(Readings(samples, (s: Sample) => s.temperature), t.temperature, d)
            && LevelOf(st, Stream(Memory, ""))
               == DebouncedLevel(Readings(samples, (s: Sample) => s.memory), t.memory, d)
            && LevelOf(st, Stream(Swap, "")) == DebouncedLevel(Readings(samples, (s: Sample) => s.swap), t.swap, d)
  {
    ScalarHistories(samples);
    hide IsRun, DebouncedLevel, LevelOf, History, Readings, Chronological;
    DebounceExactOverRuns(c, samples, outs, states, Stream(Cpu, ""));
    DebounceExactOverRuns(c, samples, outs, states, Stream(Temperature, ""));
    DebounceExactOverRuns(c, samples, outs, states, Stream(Memory, ""));
    DebounceExactOverRuns(c, samples, outs, states, Stream(Swap, ""));
  }

  // ------------------------------------------------------------------------------------------
  // Disks

  // The values a list of disks gives for a mountpoint.
  ghost function ValuesAt(disks: seq<DiskSample>, mountpoint: string, now: int): seq<Reading> {
    if |disks| == 0 then []
    else
      var d := disks[|disks| - 1];
      ValuesAt(disks[..|disks| - 1], mountpoint, now)
        + (if d.mountpoint == mountpoint then [Reading(d.usedPercent, now)] else [])
  }

  // The values of a mountpoint since a sample last listed the disks without it; a sample whose listing failed adds
  // nothing and forgets nothing.
  ghost function DiskReadings(samples: seq<Sample>, mountpoint: string): seq<Reading> {
    if |samples| == 0 then []
    else
      var before, s := DiskReadings(samples[..|samples| - 1], mountpoint), samples[|samples| - 1];
      if s.disks.None? then before
      else
        var now := ValuesAt(s.disks.value, mountpoint, s.timestamp);
        if now == [] then [] else before + now
  }

  lemma {:induction false} DiskExtend(h: seq<Reading>, disks: seq<DiskSample>, mountpoint: string, now: int)
    ensures Extend(h, DiskObs(disks), Stream(Disk, mountpoint), now) == h + ValuesAt(disks, mountpoint, now)
  {
    if |disks| == 0 {
      assert h + [] == h;
    } else {
      var init, d := disks[..|disks| - 1], disks[|disks| - 1];
      DiskExtend(h, init, mountpoint, now);
      DiskObsSnoc(disks);
      hide DiskObs;
      var one := if d.mountpoint == mountpoint then [Reading(d.usedPercent, now)] else [];
      assert h + ValuesAt(init, mountpoint, now) + one == h + (ValuesAt(init, mountpoint, now) + one);
      assert one == [] ==> h + ValuesAt(init, mountpoint, now) + one == h + ValuesAt(init, mountpoint, now);
    }
  }

  lemma DiskObsSnoc(disks: seq<DiskSample>)
    requires |disks| > 0
    ensures var obs, d := DiskObs(disks), disks[|disks| - 1];
            && |obs| == |disks| && obs[..|obs| - 1] == DiskObs(disks[..|disks| - 1])
            && obs[|obs| - 1] == Obs(Stream(Disk, d.mountpoint), d.usedPercent)
  {
  }

  lemma {:induction false} NotListed(disks: seq<DiskSample>, mountpoint: string, now: int)
    ensures ValuesAt(disks, mountpoint, now) == []
       <==> forall i :: 0 <= i < |disks| ==> disks[i].mountpoint != mountpoint
  {
    if |disks| == 0 {
    } else {
      NotListed(disks[..|disks| - 1], mountpoint, now);
    }
  }

  lemma ScalarsAside(h: seq<Reading>, s: Sample, mountpoint: string)
    ensures Extend(h, ScalarObs(s), Stream(Disk, mountpoint), s.timestamp) == h
  {
    var id, now := Stream(Disk, mountpoint), s.timestamp;
    var a, b := Scalar(Cpu, s.cpu), Scalar(Temperature, s.temperature);
    var c, d := Scalar(Memory, s.memory), Scalar(Swap, s.swap);
    assert ScalarObs(s) == a + b + c + d;
    hide Extend, Scalar, ScalarObs;
    ExtendAppend(h, a + b + c, d, id, now);
    ExtendAppend(h, a + b, c, id, now);
    ExtendAppend(h, a, b, id, now);
    ExtendScalar(h, Cpu, s.cpu, id, now);
    ExtendScalar(h, Temperature, s.temperature, id, now);
    ExtendScalar(h, Memory, s.memory, id, now);
    ExtendScalar(h, Swap, s.swap, id, now);
  }

  lemma {:induction false} DiskHistory(samples: seq<Sample>, mountpoint: string)
    ensures History(samples, Stream(Disk, mountpoint)) == DiskReadings(samples, mountpoint)
  {
    hide Extend, DiskObs, ScalarObs, ValuesAt;
    if |samples| == 0 {
    } else {
      var init, s := samples[..|samples| - 1], samples[|samples| - 1];
      var h := History(init, Stream(Disk, mountpoint));
      DiskHistory(init, mountpoint);
      ScalarsAside(h, s, mountpoint);
      if s.disks.Some? {
        ExtendAppend(h, ScalarObs(s), DiskObs(s.disks.value), Stream(Disk, mountpoint), s.timestamp);
        DiskExtend(h, s.disks.value, mountpoint, s.timestamp);
        NotListed(s.disks.value, mountpoint, s.timestamp);
      } else {
        assert Observations(s) == ScalarObs(s);
      }
    }
  }

  // The level of a disk is the debounced level of its mountpoint's values under the disk cutoffs.
  lemma DiskLevel(c: Config, samples: seq<Sample>, outs: seq<seq<Event>>, states: seq<EngineVal>, mountpoint: string)
    requires c.thresholds.Ordered() && Chronological(samples) && IsRun(c, samples, outs, states)
    ensures LevelOf(states[|samples|].states, Stream(Disk, mountpoint))
         == DebouncedLevel(DiskReadings(samples, mountpoint), c.thresholds.disk, c.forDur)
  {
    DiskHistory(samples, mountpoint);
    hide IsRun, DebouncedLevel, LevelOf, History, DiskReadings, Chronological;
    DebounceExactOverRuns(c, samples, outs, states, Stream(Disk, mountpoint));
  }

  // ------------------------------------------------------------------------------------------
  // Without debouncing

  ghost predicate ShowsLast(st: States, m: Metric, v: Option<real>, cut: Cutoffs) {
    v.Some? ==> LevelOf(st, Stream(m, "")) == LevelClass(v.value, cut)
  }

  lemma {:induction false} ReadingsChronological(samples: seq<Sample>, field: Sample -> Option<real>)
    requires Chronological(samples)
    ensures Debouncing.Sorted(Readings(samples, field))
    ensures |samples| > 0 ==>
              forall i :: 0 <= i < |Readings(samples, field)|
                ==> Readings(samples, field)[i].at <= samples[|samples| - 1].timestamp
  {
    if |samples| == 0 {
    } else {
      ReadingsChronological(samples[..|samples| - 1], field);
    }
  }

  lemma LastShown(c: Config, samples: seq<Sample>, field: Sample -> Option<real>, cut: Cutoffs)
    requires |samples| > 0 && Chronological(samples) && c.forDur <= 0 && cut.warn <= cut.crit
    requires field(samples[|samples| - 1]).Some?
    ensures DebouncedLevel(Readings(samples, field), cut, c.forDur)
         == LevelClass(field(samples[|samples| - 1]).value, cut)
  {
    ReadingsChronological(samples, field);
    var h := Readings(samples, field);
    assert h[|h| - 1].value == field(samples[|samples| - 1]).value;
    hide Readings, DebouncedLevel;
    NoDebounceIsLevelClass(h, cut, c.forDur);
  }

  // Without a debounce window, every scalar just read is at the level its value has under its own cutoffs.
  lemma ScalarsAtOnce(c: Config, samples: seq<Sample>, outs: seq<seq<Event>>, states: seq<EngineVal>)
    requires c.thresholds.Ordered() && Chronological(samples) && IsRun(c, samples, outs, states)
    requires |samples| > 0 && c.forDur <= 0
    ensures var st, t, s := states[|samples|].states, c.thresholds, samples[|samples| - 1];
            && ShowsLast(st, Cpu, s.cpu, t.cpu)
            && ShowsLast(st, Temperature, s.temperature, t.temperature)
            && ShowsLast(st, Memory, s.memory, t.memory)
            && ShowsLast(st, Swap, s.swap, t.swap)
  {
    ScalarLevels(c, samples, outs, states);
    CutoffsOrdered(c.thresholds);
    var t, s := c.thresholds, samples[|samples| - 1];
    hide IsRun, DebouncedLevel, LevelOf, Readings, Chronological, LevelClass, Thresholds.Ordered;
    if s.cpu.Some? {
      LastShown(c, samples, (s: Sample) => s.cpu, t.cpu);
    }
    if s.temperature.Some? {
      LastShown(c, samples, (s: Sample) => s.temperature, t.temperature);
    }
    if s.memory.Some? {
      LastShown(c, samples, (s: Sample) => s.memory, t.memory);
    }
    if s.swap.Some? {
      LastShown(c, samples, (s: Sample) => s.swap, t.swap);
    }
  }

  lemma CutoffsOrdered(t: Thresholds)
    ensures t.Ordered() <==> (t.cpu.warn <= t.cpu.crit && t.temperature.warn <= t.temperature.crit
                              && t.memory.warn <= t.memory.crit && t.swap.warn <= t.swap.crit
                              && t.disk.warn <= t.disk.crit)
  {
    assert t.For(Cpu) == t.cpu && t.For(Temperature) == t.temperature && t.For(Memory) == t.memory
           && t.For(Swap) == t.swap && t.For(Disk) == t.disk;
  }

  lemma {:induction false} ValuesChronological(disks: seq<DiskSample>, mountpoint: string, now: int)
    ensures forall i :: 0 <= i < |ValuesAt(disks, mountpoint, now)| ==> ValuesAt(disks, mountpoint, now)[i].at == now
  {
    if |disks| == 0 {
    } else {
      ValuesChronological(disks[..|disks| - 1], mountpoint, now);
    }
  }

  lemma {:induction false} DiskReadingsChronological(samples: seq<Sample>, mountpoint: string)
    requires Chronological(samples)
    ensures Debouncing.Sorted(DiskReadings(samples, mountpoint))
    ensures |samples| > 0 ==>
              forall i :: 0 <= i < |DiskReadings(samples, mountpoint)|
                ==> DiskReadings(samples, mountpoint)[i].at <= samples[|samples| - 1].timestamp
  {
    if |samples| == 0 {
    } else {
      var s := samples[|samples| - 1];
      DiskReadingsChronological(samples[..|samples| - 1], mountpoint);
      if s.disks.Some? {
        ValuesChronological(s.disks.value, mountpoint, s.timestamp);
      }
    }
  }

  // So is every disk just listed, at that of its last entry in the list.
  lemma DiskAtOnce(c: Config, samples: seq<Sample>, outs: seq<seq<Event>>, states: seq<EngineVal>, i: nat)
    requires c.thresholds.Ordered() && Chronological(samples) && IsRun(c, samples, outs, states)
    requires |samples| > 0 && c.forDur <= 0
    requires var s := samples[|samples| - 1];
             && s.disks.Some? && i < |s.disks.value|
             && forall j :: i < j < |s.disks.value| ==> s.disks.value[j].mountpoint != s.disks.value[i].mountpoint
    ensures var d := samples[|samples| - 1].disks.value[i];
            LevelOf(states[|samples|].states, Stream(Disk, d.mountpoint))
            == LevelClass(d.usedPercent, c.thresholds.disk)
  {
    var s := samples[|samples| - 1];
    var d := s.disks.value[i];
    DiskLevel(c, samples, outs, states, d.mountpoint);
    CutoffsOrdered(c.thresholds);
    DiskReadingsChronological(samples, d.mountpoint);
    LastValue(s.disks.value, i, s.timestamp);
    var h := DiskReadings(samples, d.mountpoint);
    assert h[|h| - 1].value == d.usedPercent;
    hide IsRun, DebouncedLevel, DiskReadings, Chronological, LevelOf, LevelClass;
    NoDebounceIsLevelClass(h, c.thresholds.disk, c.forDur);
  }

  lemma {:induction false} LastValue(disks: seq<DiskSample>, i: nat, now: int)
    requires i < |disks| && forall j :: i < j < |disks| ==> disks[j].mountpoint != disks[i].mountpoint
    ensures var vs := ValuesAt(disks, disks[i].mountpoint, now);
            |vs| > 0 && vs[|vs| - 1] == Reading(disks[i].usedPercent, now)
  {
    if i == |disks| - 1 {
    } else {
      LastValue(disks[..|disks| - 1], i, now);
    }
  }

  // ------------------------------------------------------------------------------------------
  // One evaluation, from any state

  lemma {:induction false} Unobserved(c: Config, states: States, obs: seq<Obs>, now: int, id: Stream)
    requires forall i :: 0 <= i < |obs| ==> obs[i].id != id
    ensures id in ObserveAll(c, states, obs, now) <==> id in states
    ensures id in states ==> ObserveAll(c, states, obs, now)[id] == states[id]
    ensures EventsOf(EventsAll(c, states, obs, now), id) == []
  {
    if |obs| == 0 {
    } else {
      var init, o := obs[..|obs| - 1], obs[|obs| - 1];
      Unobserved(c, states, init, now, id);
      var before := ObserveAll(c, states, init, now);
      EventsOfAppend(EventsAll(c, states, init, now), EventsOne(c, before, o, now), id);
      var src, dst := LevelOf(before, o.id), LevelOf(ObserveOne(c, before, o, now), o.id);
      if src != dst {
        OneEventChain(Transition(o.id, src, dst, o.value, now), id);
      }
    }
  }

  // A stream that a sample does not read keeps its state and emits nothing, unless it is a disk missing from a list of
  // disks: that one is forgotten, with one last event clearing it if it was alerting.
  lemma UnreadStream(c: Config, e: EngineVal, s: Sample, e': EngineVal, emitted: seq<Event>, id: Stream)
    requires EvaluateStep(c, e, s, e', emitted)
    requires id == Stream(Cpu, "") ==> s.cpu.None?
    requires id == Stream(Temperature, "") ==> s.temperature.None?
    requires id == Stream(Memory, "") ==> s.memory.None?
    requires id == Stream(Swap, "") ==> s.swap.None?
    requires id.metric == Disk && s.disks.Some? ==>
               forall i :: 0 <= i < |s.disks.value| ==> s.disks.value[i].mountpoint != id.resource
    ensures if id.metric == Disk && s.disks.Some? then
              && id !in e'.states
              && EventsOf(emitted, id)
                 == if id in e.states && e.states[id].active != OK
                    then [Event(id, Cleared, e.states[id].active, OK, e.states[id].lastValue, s.timestamp)]
                    else []
            else
              && (id in e'.states <==> id in e.states) && (id in e.states ==> e'.states[id] == e.states[id])
              && EventsOf(emitted, id) == []
  {
    var transitions := EventsAll(c, e.states, Observations(s), s.timestamp);
    var pruned := emitted[|transitions|..];
    UnreadTransitions(c, e.states, s, id);
    Forgotten(ObserveAll(c, e.states, Observations(s), s.timestamp), e.states, s, pruned, id);
    hide ObserveAll, EventsAll, Observations, EventsOf, IsPruneLog, Prune;
    assert emitted == transitions + pruned;
    EventsOfAppend(transitions, pruned, id);
  }

  // What pruning makes of a stream whose state is the one in before.
  lemma Forgotten(observed: States, before: States, s: Sample, pruned: seq<Event>, id: Stream)
    requires IsPruneLog(observed, s, pruned)
    requires (id in observed <==> id in before) && (id in before ==> observed[id] == before[id])
    requires id.metric == Disk && s.disks.Some? ==>
               forall i :: 0 <= i < |s.disks.value| ==> s.disks.value[i].mountpoint != id.resource
    ensures if id.metric == Disk && s.disks.Some? then
              && id !in Prune(observed, s)
              && EventsOf(pruned, id)
                 == if id in before && before[id].active != OK
                    then [Event(id, Cleared, before[id].active, OK, before[id].lastValue, s.timestamp)]
                    else []
            else
              && (id in Prune(observed, s) <==> id in before)
              && (id in before ==> Prune(observed, s)[id] == before[id])
              && EventsOf(pruned, id) == []
  {
    hide EventsOf;
    assert EventsOf(pruned, id) == Farewell(observed, s, id);
  }

  lemma UnreadTransitions(c: Config, states: States, s: Sample, id: Stream)
    requires id == Stream(Cpu, "") ==> s.cpu.None?
    requires id == Stream(Temperature, "") ==> s.temperature.None?
    requires id == Stream(Memory, "") ==> s.memory.None?
    requires id == Stream(Swap, "") ==> s.swap.None?
    requires id.metric == Disk && s.disks.Some? ==>
               forall i :: 0 <= i < |s.disks.value| ==> s.disks.value[i].mountpoint != id.resource
    ensures var observed := ObserveAll(c, states, Observations(s), s.timestamp);
            && (id in observed <==> id in states) && (id in states ==> observed[id] == states[id])
    ensures EventsOf(EventsAll(c, states, Observations(s), s.timestamp), id) == []
  {
    NotObserved(s, id);
    hide Observations, ObserveAll, EventsAll, EventsOf;
    Unobserved(c, states, Observations(s), s.timestamp, id);
  }

  lemma NotObserved(s: Sample, id: Stream)
    requires id == Stream(Cpu, "") ==> s.cpu.None?
    requires id == Stream(Temperature, "") ==> s.temperature.None?
    requires id == Stream(Memory, "") ==> s.memory.None?
    requires id == Stream(Swap, "") ==> s.swap.None?
    requires id.metric == Disk && s.disks.Some? ==>
               forall i :: 0 <= i < |s.disks.value| ==> s.disks.value[i].mountpoint != id.resource
    ensures forall i :: 0 <= i < |Observations(s)| ==> Observations(s)[i].id != id
  {
    forall o | o in Observations(s)
      ensures o.id != id
    {
      if o !in ScalarObs(s) {
        var i :| 0 <= i < |s.disks.value| && DiskObs(s.disks.value)[i] == o;
      }
    }
  }

  // ------------------------------------------------------------------------------------------
  // Order

  lemma {:induction false} ObserveAllAppend(c: Config, states: States, a: seq<Obs>, b: seq<Obs>, now: int)
    ensures ObserveAll(c, states, a + b, now) == ObserveAll(c, ObserveAll(c, states, a, now), b, now)
  {
    hide ObserveOne;
    if |b| == 0 {
      assert a + b == a;
    } else {
      ObserveAllAppend(c, states, a, b[..|b| - 1], now);
      assert (a + b)[..|a + b| - 1] == a + b[..|b| - 1];
    }
  }

  lemma {:induction false} EventsAllAppend(c: Config, states: States, a: seq<Obs>, b: seq<Obs>, now: int)
    ensures EventsAll(c, states, a + b, now)
         == EventsAll(c, states, a, now) + EventsAll(c, ObserveAll(c, states, a, now), b, now)
  {
    hide ObserveOne, EventsOne, ObserveAll;
    if |b| == 0 {
      assert a + b == a;
    } else {
      var init, o := b[..|b| - 1], b[|b| - 1];
      EventsAllAppend(c, states, a, init, now);
      ObserveAllAppend(c, states, a, init, now);
      assert (a + b)[..|a + b| - 1] == a + init && (a + b)[|a + b| - 1] == o;
    }
  }

  // All events of a log concern one stream.
  ghost predicate AllOf(log: seq<Event>, id: Stream) {
    forall e :: e in log ==> e.id == id
  }

  lemma OneStream(log: seq<Event>, own: Stream, id: Stream)
    requires AllOf(log, own)
    ensures EventsOf(log, id) == if id == own then log else []
  {
    if id == own {
      FilterEverything(log, (e: Event) => e.id == id);
    } else if EventsOf(log, id) != [] {
      FilterIn(log, (e: Event) => e.id == id, EventsOf(log, id)[0]);
      assert false;
    }
  }

  lemma ScalarEvents(c: Config, states: States, m: Metric, v: Option<real>, now: int)
    ensures AllOf(EventsAll(c, states, Scalar(m, v), now), Stream(m, ""))
  {
    if v.Some? {
      assert Scalar(m, v)[..0] == [];
    }
  }

  ghost predicate DisksOnly(log: seq<Event>) {
    forall e :: e in log ==> e.id.metric == Disk
  }

  lemma DiskEvents(c: Config, states: States, disks: seq<DiskSample>, now: int)
    ensures DisksOnly(EventsAll(c, states, DiskObs(disks), now))
  {
    forall e | e in EventsAll(c, states, DiskObs(disks), now)
      ensures e.id.metric == Disk
    {
      var n := EventOfReading(c, states, DiskObs(disks), now, e);
    }
  }

  lemma PrunedDisks(states: States, s: Sample, log: seq<Event>)
    requires IsPruneLog(states, s, log)
    ensures DisksOnly(log)
  {
    forall e | e in log
      ensures e.id.metric == Disk
    {
      EventsOfIn(log, e);
      assert EventsOf(log, e.id) == Farewell(states, s, e.id);
    }
  }

  lemma NoScalarEvents(log: seq<Event>, id: Stream)
    requires DisksOnly(log) && id.metric != Disk
    ensures EventsOf(log, id) == []
  {
    if EventsOf(log, id) != [] {
      FilterIn(log, (e: Event) => e.id == id, EventsOf(log, id)[0]);
      assert false;
    }
  }

  lemma PartsOf(a: seq<Event>, b: seq<Event>, c: seq<Event>, d: seq<Event>, rest: seq<Event>, id: Stream)
    requires AllOf(a, Stream(Cpu, "")) && AllOf(b, Stream(Temperature, "")) && AllOf(c, Stream(Memory, ""))
    requires AllOf(d, Stream(Swap, "")) && DisksOnly(rest) && id.metric != Disk
    ensures EventsOf(a + b + c + d + rest, id)
         == EventsOf(a, id) + EventsOf(b, id) + EventsOf(c, id) + EventsOf(d, id)
  {
    hide AllOf, DisksOnly, EventsOf;
    EventsOfAppend(a + b + c + d, rest, id);
    EventsOfAppend(a + b + c, d, id);
    EventsOfAppend(a + b, c, id);
    EventsOfAppend(a, b, id);
    NoScalarEvents(rest, id);
  }

  lemma PartsInOrder(a: seq<Event>, b: seq<Event>, c: seq<Event>, d: seq<Event>, rest: seq<Event>)
    requires AllOf(a, Stream(Cpu, "")) && AllOf(b, Stream(Temperature, "")) && AllOf(c, Stream(Memory, ""))
    requires AllOf(d, Stream(Swap, "")) && DisksOnly(rest)
    ensures var log := a + b + c + d + rest;
            && EventsOf(log, Stream(Cpu, "")) == a && EventsOf(log, Stream(Temperature, "")) == b
            && EventsOf(log, Stream(Memory, "")) == c && EventsOf(log, Stream(Swap, "")) == d
  {
    hide AllOf, DisksOnly, EventsOf;
    forall id: Stream | id.metric != Disk && id.resource == ""
      ensures EventsOf(a + b + c + d + rest, id)
           == if id.metric == Cpu then a else if id.metric == Temperature then b
              else if id.metric == Memory then c else d
    {
      PartsOf(a, b, c, d, rest, id);
      OneStream(a, Stream(Cpu, ""), id);
      OneStream(b, Stream(Temperature, ""), id);
      OneStream(c, Stream(Memory, ""), id);
      OneStream(d, Stream(Swap, ""), id);
    }
  }

  lemma ObservedParts(c: Config, states: States, s: Sample)
    returns (cpu: seq<Event>, temperature: seq<Event>, memory: seq<Event>, swap: seq<Event>, disks: seq<Event>)
    ensures EventsAll(c, states, Observations(s), s.timestamp) == cpu + temperature + memory + swap + disks
    ensures AllOf(cpu, Stream(Cpu, "")) && AllOf(temperature, Stream(Temperature, ""))
            && AllOf(memory, Stream(Memory, "")) && AllOf(swap, Stream(Swap, "")) && DisksOnly(disks)
  {
    var now := s.timestamp;
    var o1, o2 := Scalar(Cpu, s.cpu), Scalar(Temperature, s.temperature);
    var o3, o4 := Scalar(Memory, s.memory), Scalar(Swap, s.swap);
    var o5 := if s.disks.Some? then DiskObs(s.disks.value) else [];
    assert Observations(s) == o1 + o2 + o3 + o4 + o5;
    assert EventsAll(c, states, [], now) == [] && DisksOnly([]);
    hide ObserveAll, EventsAll, Scalar, DiskObs, Observations, AllOf, DisksOnly;
    var st1 := ObserveAll(c, states, o1, now);
    var st2 := ObserveAll(c, st1, o2, now);
    var st3 := ObserveAll(c, st2, o3, now);
    var st4 := ObserveAll(c, st3, o4, now);
    ObserveAllAppend(c, states, o1, o2, now);
    ObserveAllAppend(c, states, o1 + o2, o3, now);
    ObserveAllAppend(c, states, o1 + o2 + o3, o4, now);
    EventsAllAppend(c, states, o1, o2, now);
    EventsAllAppend(c, states, o1 + o2, o3, now);
    EventsAllAppend(c, states, o1 + o2 + o3, o4, now);
    EventsAllAppend(c, states, o1 + o2 + o3 + o4, o5, now);
    cpu, temperature := EventsAll(c, states, o1, now), EventsAll(c, st1, o2, now);
    memory, swap := EventsAll(c, st2, o3, now), EventsAll(c, st3, o4, now);
    disks := EventsAll(c, st4, o5, now);
    ScalarEvents(c, states, Cpu, s.cpu, now);
    ScalarEvents(c, st1, Temperature, s.temperature, now);
    ScalarEvents(c, st2, Memory, s.memory, now);
    ScalarEvents(c, st3, Swap, s.swap, now);
    if s.disks.Some? {
      DiskEvents(c, st4, s.disks.value, now);
    } else {
      NothingObserved(c, st4, now);
    }
  }

  lemma NothingObserved(c: Config, states: States, now: int)
    ensures DisksOnly(EventsAll(c, states, [], now))
  {
  }

  // One evaluation reports the processor first, then temperature, memory and swap, and the disks last.
  lemma EmittedInOrder(c: Config, e: EngineVal, s: Sample, e': EngineVal, emitted: seq<Event>)
    requires EvaluateStep(c, e, s, e', emitted)
    ensures var scalars := EventsOf(emitted, Stream(Cpu, "")) + EventsOf(emitted, Stream(Temperature, ""))
                         + EventsOf(emitted, Stream(Memory, "")) + EventsOf(emitted, Stream(Swap, ""));
            scalars <= emitted && DisksOnly(emitted[|scalars|..])
  {
    var transitions := EventsAll(c, e.states, Observations(s), s.timestamp);
    var pruned := emitted[|transitions|..];
    PrunedDisks(ObserveAll(c, e.states, Observations(s), s.timestamp), s, pruned);
    var cpu, temperature, memory, swap, disks := ObservedParts(c, e.states, s);
    var scalars, rest := cpu + temperature + memory + swap, disks + pruned;
    assert emitted == scalars + rest && DisksOnly(rest);
    hide AllOf, DisksOnly, EventsOf, EvaluateStep;
    PartsInOrder(cpu, temperature, memory, swap, rest);
    assert emitted[|scalars|..] == rest;
  }
}
