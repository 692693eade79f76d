/** The arithmetic bounds of the configuration that the other modules rest on. */
module Configuration {
  import opened Seqs
  import opened Alert

  datatype Timing = Timing(pollIntervalSeconds: real, updatesCheckMinutes: real, updatesStaleThresholdMinutes: real,
                           historyWindowMinutes: real)

  datatype TimingError = BadPollInterval | BadUpdatesCheck | BadUpdatesStale | BadHistoryWindow | TooManyPoints

  const MAX_HISTORY_CAPACITY := 1_000_000

  // History points per series the configuration asks for, before rounding.
  function Ratio(t: Timing): real
    requires t.pollIntervalSeconds > 0.0
  {
    t.historyWindowMinutes * 60.0 / t.pollIntervalSeconds
  }

  function ValidateTiming(t: Timing): Option<TimingError> {
    if t.pollIntervalSeconds <= 0.0 then Some(BadPollInterval)
    else if t.updatesCheckMinutes <= 0.0 then Some(BadUpdatesCheck)
    else if t.updatesStaleThresholdMinutes < 0.0 then Some(BadUpdatesStale)
    else if t.historyWindowMinutes <= 0.0 then Some(BadHistoryWindow)
    else if Ratio(t) > MAX_HISTORY_CAPACITY as real then Some(TooManyPoints)
    else None
  }

  // Conversion to int truncates toward zero.
  function Truncate(x: real): int {
    if x >= 0.0 then x.Floor else -((-x).Floor)
  }

  function HistoryCapacity(t: Timing): int {
    if t.pollIntervalSeconds <= 0.0 then 1
    else
      var capacity := Truncate(Ratio(t));
      if capacity < 1 then 1 else capacity
  }

  lemma Quotient(x: real, p: real)
    requires p > 0.0
    ensures x / p * p == x
  {
  }

  lemma Scale(x: real, y: real, p: real)
    requires p > 0.0
    ensures x < y ==> x * p < y * p
    ensures x <= y ==> x * p <= y * p
  {
  }

  // Rounding a positive ratio down to a capacity of at least one.
  lemma RoundedCapacity(r: real, p: real, window: real)
    requires p > 0.0 && 0.0 < r <= MAX_HISTORY_CAPACITY as real && r * p == window
    ensures var c := if Truncate(r) < 1 then 1 else Truncate(r);
            && 1 <= c <= MAX_HISTORY_CAPACITY
            && (c + 1) as real * p > window
            && (c > 1 ==> c as real * p <= window)
  {
    var c := if Truncate(r) < 1 then 1 else Truncate(r);
    assert r < (c + 1) as real;
    Scale(r, (c + 1) as real, p);
    Scale(c as real, r, p);
  }

  // Whatever is configured, at least one point is asked for, and exactly one if the interval or the window is not
  // positive.
  lemma CapacityOfAny(t: Timing)
    ensures HistoryCapacity(t) >= 1
    ensures t.pollIntervalSeconds <= 0.0 || t.historyWindowMinutes <= 0.0 ==> HistoryCapacity(t) == 1
  {
    if t.pollIntervalSeconds > 0.0 && t.historyWindowMinutes <= 0.0 {
      Quotient(t.historyWindowMinutes * 60.0, t.pollIntervalSeconds);
      Scale(0.0, Ratio(t), t.pollIntervalSeconds);
      assert Ratio(t) <= 0.0;
    }
  }

  // Which timings are accepted: positive intervals and window, no negative threshold, and a window of no more than a
  // million poll intervals.
  lemma AcceptedTiming(t: Timing)
    ensures ValidateTiming(t).None?
       <==> && t.pollIntervalSeconds > 0.0 && t.updatesCheckMinutes > 0.0 && t.updatesStaleThresholdMinutes >= 0.0
            && t.historyWindowMinutes > 0.0
            && t.historyWindowMinutes * 60.0 <= 1_000_000.0 * t.pollIntervalSeconds
  {
    if t.pollIntervalSeconds > 0.0 {
      Quotient(t.historyWindowMinutes * 60.0, t.pollIntervalSeconds);
      Scale(Ratio(t), 1_000_000.0, t.pollIntervalSeconds);
      Scale(1_000_000.0, Ratio(t), t.pollIntervalSeconds);
    }
  }

  // A validated configuration asks for between one and a million points per series, and they cover the history window
  // up to less than one poll interval.
  lemma ValidatedCapacity(t: Timing)
    requires ValidateTiming(t).None?
    ensures 1 <= HistoryCapacity(t) <= 1_000_000
    ensures (HistoryCapacity(t) + 1) as real * t.pollIntervalSeconds > t.historyWindowMinutes * 60.0
    ensures HistoryCapacity(t) > 1 ==>
              HistoryCapacity(t) as real * t.pollIntervalSeconds <= t.historyWindowMinutes * 60.0
  {
    var p, window := t.pollIntervalSeconds, t.historyWindowMinutes * 60.0;
    Quotient(window, p);
    if window / p <= 0.0 {
      Scale(window / p, 0.0, p);
      assert false;
    }
    RoundedCapacity(window / p, p, window);
  }

  predicate Good(c: Cutoffs) {
    0.0 <= c.warn <= c.crit
  }

  // The first metric whose cutoffs are negative or crossed, in the order temperature, cpu, disk, swap, memory.
  method ValidateThresholds(t: Thresholds) returns (bad: Option<Metric>)
    ensures bad.None? <==> forall m :: 0.0 <= t.For(m).warn <= t.For(m).crit
    ensures bad.Some? ==> !Good(t.For(bad.value))
    ensures bad.Some? && bad.value != Temperature ==> Good(t.temperature)
    ensures bad.Some? && bad.value != Temperature && bad.value != Cpu ==> Good(t.cpu)
    ensures bad == Some(Swap) || bad == Some(Memory) ==> Good(t.disk)
    ensures bad == Some(Memory) ==> Good(t.swap)
  {
    var checked := [Temperature, Cpu, Disk, Swap, Memory];
    for i := 0 to |checked|
      invariant forall j :: 0 <= j < i ==> 0.0 <= t.For(checked[j]).warn <= t.For(checked[j]).crit
    {
      assert i > 0 ==> Good(t.For(checked[0]));
      assert i > 1 ==> Good(t.For(checked[1]));
      assert i > 2 ==> Good(t.For(checked[2]));
      assert i > 3 ==> Good(t.For(checked[3]));
      var c := t.For(checked[i]);
      if c.warn < 0.0 || c.crit < 0.0 || c.warn > c.crit {
        return Some(checked[i]);
      }
    }
    forall m
      ensures 0.0 <= t.For(m).warn <= t.For(m).crit
    {
      match m {
        case Temperature => assert checked[0] == m;
        case Cpu => assert checked[1] == m;
        case Disk => assert checked[2] == m;
        case Swap => assert checked[3] == m;
        case Memory => assert checked[4] == m;
      }
    }
    bad := None;
  }
}
