/** The alert engine's data and its evaluation step, as functions on values. */
module Alert {
  import opened Seqs

  datatype Level = OK | Warn | Crit

  function Severity(l: Level): nat {
    match l
    case OK => 0
    case Warn => 1
    case Crit => 2
  }

  datatype Metric = Cpu | Temperature | Memory | Swap | Disk

  // One alert stream: a metric and, for disks, the mountpoint.
  datatype Stream = Stream(metric: Metric, resource: string)

  datatype Kind = Fired | Cleared

  // src and dst are the levels the transition leaves and enters.
  datatype Event = Event(id: Stream, kind: Kind, src: Level, dst: Level, value: real, at: int)

  datatype Cutoffs = Cutoffs(warn: real, crit: real)

  datatype Thresholds = Thresholds(cpu: Cutoffs, temperature: Cutoffs, memory: Cutoffs, swap: Cutoffs, disk: Cutoffs) {
    function For(m: Metric): Cutoffs {
      match m
      case Cpu => cpu
      case Temperature => temperature
      case Memory => memory
      case Swap => swap
      case Disk => disk
    }

    // What configuration validation enforces of every pair of cutoffs.
    ghost predicate Ordered() {
      forall m :: For(m).warn <= For(m).crit
    }
  }

  datatype Config = Config(thresholds: Thresholds, forDur: int, maxEvents: nat)

  datatype DiskSample = DiskSample(mountpoint: string, usedPercent: real)

  // A metric whose collection failed this tick is None.
  datatype Sample = Sample(timestamp: int, cpu: Option<real>, temperature: Option<real>, memory: Option<real>,
                           swap: Option<real>, disks: Option<seq<DiskSample>>)

  // The debounce bookkeeping of one stream.
  datatype Debounce = Debounce(active: Level, activeSince: int, lastValue: real,
                               warnAbove: bool, warnSince: int, critAbove: bool, critSince: int, initialized: bool)

  function Fresh(now: int): Debounce {
    Debounce(OK, now, 0.0, false, 0, false, 0, false)
  }

  function UpdateTimers(st: Debounce, aboveWarn: bool, aboveCrit: bool, now: int): Debounce {
    var w := if !st.initialized || st.warnAbove != aboveWarn then st.(warnAbove := aboveWarn, warnSince := now) else st;
    var c := if !st.initialized || st.critAbove != aboveCrit then w.(critAbove := aboveCrit, critSince := now) else w;
    c.(initialized := true)
  }

  function NextLevel(current: Level, critConfirmed: bool, warnConfirmed: bool,
                     belowCritConfirmed: bool, belowWarnConfirmed: bool): Level {
    match current
    case OK => if critConfirmed then Crit else if warnConfirmed then Warn else OK
    case Warn => if critConfirmed then Crit else if belowWarnConfirmed then OK else Warn
    case Crit => if belowCritConfirmed then (if belowWarnConfirmed then OK else Warn) else Crit
  }

  function NextLevelOf(st: Debounce, now: int, forDur: int): Level {
    var critHeld := now - st.critSince >= forDur;
    var warnHeld := now - st.warnSince >= forDur;
    NextLevel(st.active, st.critAbove && critHeld, st.warnAbove && warnHeld,
              !st.critAbove && critHeld, !st.warnAbove && warnHeld)
  }

  // One reading of one stream: the new bookkeeping. The level moved iff `active` did.
  function Observe(st: Debounce, value: real, cut: Cutoffs, now: int, forDur: int): Debounce {
    var st1 := UpdateTimers(st.(lastValue := value), value >= cut.warn, value >= cut.crit, now);
    var next := NextLevelOf(st1, now, forDur);
    if next == st1.active then st1 else st1.(active := next, activeSince := now)
  }

  function Transition(id: Stream, src: Level, dst: Level, value: real, at: int): Event {
    Event(id, if Severity(dst) < Severity(src) then Cleared else Fired, src, dst, value, at)
  }

  type States = map<Stream, Debounce>

  // A stream's state is created at its first reading.
  function StateAt(states: States, id: Stream, now: int): Debounce {
    if id in states then states[id] else Fresh(now)
  }

  // The reported level of a stream; one the engine has no state for is not alerting.
  function LevelOf(states: States, id: Stream): Level {
    if id in states then states[id].active else OK
  }

  datatype Obs = Obs(id: Stream, value: real)

  function Scalar(m: Metric, v: Option<real>): seq<Obs> {
    if v.Some? then [Obs(Stream(m, ""), v.value)] else []
  }

  function DiskObs(disks: seq<DiskSample>): seq<Obs> {
    seq(|disks|, i requires 0 <= i < |disks| => Obs(Stream(Disk, disks[i].mountpoint), disks[i].usedPercent))
  }

  function ScalarObs(s: Sample): seq<Obs> {
    Scalar(Cpu, s.cpu) + Scalar(Temperature, s.temperature) + Scalar(Memory, s.memory) + Scalar(Swap, s.swap)
  }

  // The readings of a sample in evaluation order.
  function Observations(s: Sample): seq<Obs> {
    ScalarObs(s) + (if s.disks.Some? then DiskObs(s.disks.value) else [])
  }

  function ObserveOne(c: Config, states: States, o: Obs, now: int): States {
    states[o.id := Observe(StateAt(states, o.id, now), o.value, c.thresholds.For(o.id.metric), now, c.forDur)]
  }

  // The transition, if any, that ObserveOne makes.
  function EventsOne(c: Config, states: States, o: Obs, now: int): seq<Event> {
    var src := LevelOf(states, o.id);
    var dst := LevelOf(ObserveOne(c, states, o, now), o.id);
    if src == dst then [] else [Transition(o.id, src, dst, o.value, now)]
  }

  ghost function ObserveAll(c: Config, states: States, obs: seq<Obs>, now: int): States {
    if |obs| == 0 then states
    else ObserveOne(c, ObserveAll(c, states, obs[..|obs| - 1], now), obs[|obs| - 1], now)
  }

  ghost function EventsAll(c: Config, states: States, obs: seq<Obs>, now: int): seq<Event> {
    if |obs| == 0 then []
    else EventsAll(c, states, obs[..|obs| - 1], now)
         + EventsOne(c, ObserveAll(c, states, obs[..|obs| - 1], now), obs[|obs| - 1], now)
  }

  // The sample carries an authoritative disk list that does not mention this disk stream.
  predicate Vanished(s: Sample, id: Stream) {
    && id.metric == Disk
    && s.disks.Some?
    && (forall i :: 0 <= i < |s.disks.value| ==> s.disks.value[i].mountpoint != id.resource)
  }

  ghost function Prune(states: States, s: Sample): States {
    map id | id in states && !Vanished(s, id) :: states[id]
  }

  ghost function EventsOf(log: seq<Event>, id: Stream): seq<Event> {
    Filter(log, (e: Event) => e.id == id)
  }

  // What pruning owes a stream: one final cleared event if it vanishes while alerting.
  ghost function Farewell(states: States, s: Sample, id: Stream): seq<Event> {
    if id in states && Vanished(s, id) && states[id].active != OK
    then [Transition(id, states[id].active, OK, states[id].lastValue, s.timestamp)]
    else []
  }

  // The order in which the streams are pruned is not determined, only what each of them emits.
  ghost predicate IsPruneLog(states: States, s: Sample, log: seq<Event>) {
    forall id :: EventsOf(log, id) == Farewell(states, s, id)
  }

  datatype EngineVal = EngineVal(states: States, events: seq<Event>)

  // One call of Evaluate, as a relation between engine values and the emitted events.
  ghost predicate EvaluateStep(c: Config, e: EngineVal, s: Sample, e': EngineVal, emitted: seq<Event>) {
    var observed := ObserveAll(c, e.states, Observations(s), s.timestamp);
    var transitions := EventsAll(c, e.states, Observations(s), s.timestamp);
    && transitions <= emitted
    && IsPruneLog(observed, s, emitted[|transitions|..])
    && e'.states == Prune(observed, s)
    && e'.events == LastN(e.events + emitted, c.maxEvents)
  }
}
