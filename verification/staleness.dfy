/** How old the published snapshot can get while the collector's loop keeps its pace, and what /healthz makes of it. */
module Staleness {
  import opened Seqs

  const STALENESS_MULTIPLE := 3

  // All durations are in nanoseconds. configured is healthz_max_staleness_seconds, 0 by default.
  function HealthzMaxStaleness(configured: int, fastInterval: int, tickOverhead: int): int {
    if configured > 0 then configured else STALENESS_MULTIPLE * fastInterval + 2 * tickOverhead
  }

  // stamp is the published snapshot's timestamp, None for the zero time of before the first tick.
  predicate Healthy(maxStaleness: int, stamp: Option<int>, now: int) {
    !(maxStaleness > 0 && (stamp.None? || now - stamp.value > maxStaleness))
  }

  // What the collector's loop does, one thing at a time: a fast tick, a slow tick, or waiting for a ticker.
  datatype Activity = Fast(length: nat) | Slow(length: nat) | Wait(length: nat)

  /** The time, the published timestamp, and the time spent waiting and in slow ticks since the last fast one. */
  datatype Clock = Clock(now: int, stamp: Option<int>, waited: nat, slowed: nat)

  // A fast tick takes its timestamp when it starts and publishes it when it is done.
  function Advance(c: Clock, a: Activity): Clock {
    match a
    case Fast(d) => Clock(c.now + d, Some(c.now), 0, 0)
    case Slow(d) => c.(now := c.now + d, slowed := c.slowed + d)
    case Wait(d) => c.(now := c.now + d, waited := c.waited + d)
  }

  function After(start: int, run: seq<Activity>): Clock {
    if |run| == 0 then Clock(start, None, 0, 0) else Advance(After(start, run[..|run| - 1]), run[|run| - 1])
  }

  // Fast ticks last at most w; between two of them the loop waits at most i and spends at most 2 * i in slow ticks.
  ghost predicate Paced(start: int, run: seq<Activity>, i: nat, w: nat) {
    && (forall k :: 0 <= k < |run| && run[k].Fast? ==> run[k].length <= w)
    && (forall k :: 0 <= k <= |run| ==> After(start, run[..k]).waited <= i && After(start, run[..k]).slowed <= 2 * i)
  }

  lemma {:induction false} AgeAfter(start: int, run: seq<Activity>, w: nat)
    requires forall k :: 0 <= k < |run| && run[k].Fast? ==> run[k].length <= w
    ensures var c := After(start, run); c.stamp.Some? ==> c.now - c.stamp.value <= w + c.waited + c.slowed
  {
    if |run| == 0 {
    } else {
      AgeAfter(start, run[..|run| - 1], w);
    }
  }

  // Once a snapshot is published, a collector that keeps its pace is healthy under the default bound at every moment of
  // every run, also in the middle of whatever it is doing.
  lemma PacedCollectorIsHealthy(start: int, run: seq<Activity>, last: Activity, elapsed: nat, i: nat, w: nat)
    requires Paced(start, run + [last], i, w) && elapsed <= last.length && After(start, run).stamp.Some?
    ensures var c := After(start, run);
            && c.now + elapsed - c.stamp.value <= 3 * i + 2 * w
            && Healthy(HealthzMaxStaleness(0, i, w), c.stamp, c.now + elapsed)
  {
    var all := run + [last];
    assert all[..|run|] == run && all[..|all|] == all && all[|run|] == last;
    assert forall k :: 0 <= k < |run| ==> run[k] == all[k];
    AgeAfter(start, run, w);
    assert After(start, all[..|run|]).waited <= i && After(start, all[..|all|]).waited <= i;
    assert After(start, all[..|run|]).slowed <= 2 * i && After(start, all[..|all|]).slowed <= 2 * i;
  }

  // The slowest run that keeps the pace.
  function Slowest(i: nat, w: nat): seq<Activity> {
    [Fast(w), Wait(i), Slow(2 * i)]
  }

  // No smaller bound would do.
  lemma BoundIsTight(start: int, i: nat, w: nat)
    ensures Paced(start, Slowest(i, w) + [Fast(w)], i, w)
    ensures var c := After(start, Slowest(i, w));
            c.stamp.Some? && c.now + w - c.stamp.value == HealthzMaxStaleness(0, i, w)
  {
    var run := Slowest(i, w);
    var all := run + [Fast(w)];
    AfterSnoc(start, [], Fast(w));
    AfterSnoc(start, [Fast(w)], Wait(i));
    AfterSnoc(start, [Fast(w), Wait(i)], Slow(2 * i));
    AfterSnoc(start, run, Fast(w));
    assert [] + [Fast(w)] == [Fast(w)] && [Fast(w)] + [Wait(i)] == [Fast(w), Wait(i)]
           && [Fast(w), Wait(i)] + [Slow(2 * i)] == run;
    assert all[..0] == [] && all[..1] == [Fast(w)] && all[..2] == [Fast(w), Wait(i)] && all[..3] == run
           && all[..4] == all;
    forall k | 0 <= k <= |all|
      ensures After(start, all[..k]).waited <= i && After(start, all[..k]).slowed <= 2 * i
    {
      assert k == 0 || k == 1 || k == 2 || k == 3 || k == 4;
    }
  }

  lemma AfterSnoc(start: int, run: seq<Activity>, a: Activity)
    ensures After(start, run + [a]) == Advance(After(start, run), a)
  {
    assert (run + [a])[..|run|] == run;
  }

  ghost function Duration(idle: seq<Activity>): nat {
    if |idle| == 0 then 0 else Duration(idle[..|idle| - 1]) + idle[|idle| - 1].length
  }

  ghost predicate NoFast(idle: seq<Activity>) {
    forall k :: 0 <= k < |idle| ==> !idle[k].Fast?
  }

  lemma {:induction false} IdleAges(start: int, run: seq<Activity>, idle: seq<Activity>)
    requires NoFast(idle)
    ensures After(start, run + idle).now == After(start, run).now + Duration(idle)
    ensures After(start, run + idle).stamp == After(start, run).stamp
  {
    if |idle| == 0 {
      assert run + idle == run;
    } else {
      IdleAges(start, run, idle[..|idle| - 1]);
      assert run + idle == run + idle[..|idle| - 1] + [idle[|idle| - 1]];
      AfterSnoc(start, run + idle[..|idle| - 1], idle[|idle| - 1]);
    }
  }

  // The verdict over time. Before the first fast tick is done a collector is unhealthy; afterwards it is healthy
  // exactly as long as its last fast tick, counted from its start, was no longer ago than the bound: the configured
  // one, or three intervals and twice the overhead of a tick. A server without a bound never looks.
  lemma HealthFollowsLastTick(start: int, run: seq<Activity>, d: nat, idle: seq<Activity>, configured: int, i: nat,
                              w: nat)
    requires NoFast(idle) && (configured > 0 || i > 0)
    ensures var bound := HealthzMaxStaleness(configured, i, w);
            var c := After(start, run + [Fast(d)] + idle);
            Healthy(bound, c.stamp, c.now)
            <==> d + Duration(idle) <= (if configured > 0 then configured else 3 * i + 2 * w)
    ensures var bound := HealthzMaxStaleness(configured, i, w);
            var c := After(start, idle);
            !Healthy(bound, c.stamp, c.now)
    ensures Healthy(0, After(start, run).stamp, After(start, run).now)
  {
    IdleAges(start, run + [Fast(d)], idle);
    AfterSnoc(start, run, Fast(d));
    IdleAges(start, [], idle);
    assert [] + idle == idle;
  }
}
