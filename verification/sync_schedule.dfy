/** How the spacing of the collector's ticks decides what the dashboard shows. */
module SyncSchedule {
  import Configuration
  import opened HistoryData
  import opened Trim
  import opened Picks
  import opened Dashboard
  import opened Polling
  import opened SyncServer
  import opened SyncMerge
  import opened SyncRuns
  import opened SyncTheorems

  // No two consecutive points are closer than the interval, to the millisecond.
  ghost predicate Spaced(ps: Points, interval: nat) {
    forall i {:trigger ps[i]} :: 0 < i < |ps| ==> Ms(ps[i]) - Ms(ps[i - 1]) >= interval
  }

  ghost function Span(d: nat, interval: nat): (s: nat)
    ensures s == d * interval
  {
    if d == 0 then 0 else Span(d - 1, interval) + interval
  }

  lemma Step(ps: Points, interval: nat, j: nat)
    requires Spaced(ps, interval) && 0 < j < |ps|
    ensures Ms(ps[j]) - Ms(ps[j - 1]) >= interval
  {
  }

  lemma {:induction false} SpacedApart(ps: Points, interval: nat, i: nat, d: nat)
    requires Spaced(ps, interval) && i + d < |ps|
    ensures Ms(ps[i + d]) - Ms(ps[i]) >= Span(d, interval)
  {
    if d == 0 {
    } else {
      hide Spaced, Ms;
      SpacedApart(ps, interval, i, d - 1);
      Step(ps, interval, i + d);
    }
  }

  // The window covers less than one interval more than the server's capacity does.
  ghost predicate Covered(g: Setting, interval: nat) {
    0 < g.client.windowMs < (g.capacity + 1) * interval
  }

  // Which it does for the capacity and the window, in whole milliseconds, that any validated configuration asks for, if
  // the window is at least a millisecond and the interval no shorter than the poll interval.
  lemma ValidatedIsCovered(t: Configuration.Timing, g: Setting, interval: nat)
    requires Configuration.ValidateTiming(t).None? && g.capacity == Configuration.HistoryCapacity(t)
    requires t.historyWindowMinutes * 60000.0 >= 1.0 && g.client.windowMs == (t.historyWindowMinutes * 60000.0).Floor
    requires interval as real >= t.pollIntervalSeconds * 1000.0
    ensures Covered(g, interval)
  {
    Configuration.ValidatedCapacity(t);
    var n := g.capacity + 1;
    assert n as real * t.pollIntervalSeconds > t.historyWindowMinutes * 60.0;
    Longer(n as real, t.pollIntervalSeconds * 1000.0, interval as real);
    assert (n * interval) as real == n as real * interval as real;
    assert n as real * (t.pollIntervalSeconds * 1000.0) == n as real * t.pollIntervalSeconds * 1000.0;
  }

  lemma Longer(n: real, x: real, y: real)
    requires n >= 0.0 && x <= y
    ensures n * x <= n * y
  {
  }

  // With ticks no closer than the interval, whatever the server has evicted beyond the newest point held has left the
  // dashboard's window as well.
  lemma SpacedWindow(g: Setting, full: seq<Points>, seen: nat, interval: nat)
    requires |full| == SCALARS && 0 < seen <= |full[0]| && Spaced(full[0], interval) && Covered(g, interval)
    requires First(|full[0]|, g.capacity) > seen
    ensures forall i :: 0 <= i < seen ==> !Window(g.client, full)(full[0][i])
  {
    var n := |full[0]|;
    forall i | 0 <= i < seen
      ensures !Window(g.client, full)(full[0][i])
    {
      SpacedApart(full[0], interval, i, n - 1 - i);
      Multiply(g.capacity + 1, n - 1 - i, interval);
    }
  }

  lemma Multiply(a: nat, b: nat, c: nat)
    requires a <= b
    ensures a * c <= b * c
  {
  }

  lemma SpacedDelta(g: Setting, full: seq<Points>, held: set<nat>, seen: nat, interval: nat)
    requires |full| == SCALARS && Increasing(full[0]) && 0 < seen <= |full[0]| && g.capacity >= 1
    requires Spaced(full[0], interval) && Covered(g, interval)
    requires (forall i :: i in held ==> i < seen) && Unbroken(held, seen)
    ensures Unbroken(AfterDelta(g.client, full, held, seen, g.capacity), |full[0]|)
  {
    if First(|full[0]|, g.capacity) <= seen {
      UnbrokenDelta(g, full, held, seen);
    } else {
      SpacedWindow(g, full, seen, interval);
      LateUnbroken(g, full, held, seen);
    }
  }

  lemma DeltaFacts(g: Setting, s: Sys)
    requires Inv(g, s) && s.client.phase != Idle && !s.client.Resyncing()
    ensures |s.full| == SCALARS && 0 < s.seen <= |s.full[0]| && (forall i :: i in s.held ==> i < s.seen)
    ensures s.client.latest.Some? && s.client.latest.value.Valid() && s.server.Valid() && s.client.Valid()
  {
  }

  lemma SpacedAnswer(g: Setting, s: Sys, s': Sys, interval: nat)
    requires Inv(g, s) && AnswerStep(g, s, true, s') && Unbroken(s.held, s.seen)
    requires Spaced(s.full[0], interval) && Covered(g, interval)
    ensures Unbroken(s'.held, s'.seen)
  {
    assert g.capacity >= 1 && Increasing(s.full[0]);
    if s.client.Resyncing() {
      RangeHeldOk(g, s.full);
    } else {
      DeltaFacts(g, s);
      hide Inv, Tracked, Since, AfterDelta, Unbroken, Spaced, Merge, Increasing;
      SpacedDelta(g, s.full, s.held, s.seen, interval);
    }
  }

  lemma SpacedStep(g: Setting, s: Sys, e: Event, s': Sys, interval: nat)
    requires Inv(g, s) && Next(g, s, e, s') && Unbroken(s.held, s.seen)
    requires Spaced(s'.full[0], interval) && Covered(g, interval)
    ensures Unbroken(s'.held, s'.seen)
  {
    if e == Answer(true) {
      SpacedAnswer(g, s, s', interval);
    } else {
      hide Inv, Unbroken, Spaced, Merge, Tracked, Since;
    }
  }

  // With ticks no closer than the poll interval no run ever leaves a hole, however long the dashboard was away between
  // polls.
  lemma {:induction false} SpacedRunsAreUnbroken(g: Setting, run: seq<Sys>, events: seq<Event>, interval: nat)
    requires IsRun(g, run, events) && |run[|events|].full| == SCALARS
    requires Spaced(run[|events|].full[0], interval) && Covered(g, interval)
    ensures Unbroken(run[|events|].held, run[|events|].seen)
  {
    var n := |events| - 1;
    if |events| == 0 {
    } else {
      assert Stepped(g, run[n], events[n], run[n + 1]);
      EarlierSpaced(g, run[n], events[n], run[n + 1], interval);
      RunOk(g, run[..n + 1], events[..n]);
      hide Inv, Next, Init, Unbroken, Spaced;
      SpacedRunsAreUnbroken(g, run[..n + 1], events[..n], interval);
      SpacedStep(g, run[n], events[n], run[n + 1], interval);
    }
  }

  lemma EarlierSpaced(g: Setting, s: Sys, e: Event, s': Sys, interval: nat)
    requires Stepped(g, s, e, s') && |s'.full| == SCALARS && Spaced(s'.full[0], interval)
    ensures |s.full| == SCALARS && Spaced(s.full[0], interval)
  {
    assert |s.full[0]| <= |s'.full[0]| && s.full[0] == s'.full[0][..|s.full[0]|];
    forall i | 0 < i < |s.full[0]|
      ensures Ms(s.full[0][i]) - Ms(s.full[0][i - 1]) >= interval
    {
      assert s'.full[0][i] == s.full[0][i] && s'.full[0][i - 1] == s.full[0][i - 1];
    }
  }

  ghost predicate OnSchedule(ps: Points, start: int, interval: nat) {
    forall i {:trigger ps[i]} :: 0 <= i < |ps| ==> Ms(ps[i]) == start + i * interval
  }

  lemma ScheduledApart(ps: Points, start: int, interval: nat, i: nat, j: nat)
    requires OnSchedule(ps, start, interval) && i <= j < |ps|
    ensures Ms(ps[j]) - Ms(ps[i]) == (j - i) * interval
  {
    Difference(i, j, interval);
  }

  lemma Difference(i: nat, j: nat, c: nat)
    requires i <= j
    ensures j * c - i * c == (j - i) * c
  {
  }

  lemma EvictedStays(g: Setting, full: seq<Points>, held: set<nat>, start: int, interval: nat)
    requires |full| == SCALARS && |full[0]| > g.capacity && OnSchedule(full[0], start, interval)
    requires g.client.windowMs == g.capacity * interval && |full[0]| - g.capacity - 1 in held
    ensures !NoEvictedInWindow(g, full, held)
  {
    ScheduledApart(full[0], start, interval, |full[0]| - g.capacity - 1, |full[0]| - 1);
  }

  // The newest point the server has evicted is still within the dashboard's window when the ticks are on schedule, the
  // window is a whole number of intervals, and the whole window was last fetched one tick ago: the view is then not
  // exact.
  lemma OnScheduleViewIsNotExact(g: Setting, run: seq<Sys>, events: seq<Event>, start: int, interval: nat)
    requires DeltaStep(g, run, events)
    requires var s := run[|events| - 1];
             && |s.full| == SCALARS && |s.full[0]| == s.seen + 1 && s.seen >= g.capacity
             && s.log != [] && s.log[|s.log| - 1].Resynced?
             && g.client.windowMs == g.capacity * interval && OnSchedule(s.full[0], start, interval)
    ensures var s' := run[|events|];
            && |s'.full| == SCALARS && |s'.full[0]| > 0 && s'.server.Valid()
            && s'.client.latest.Some? && s'.client.latest.value.Valid()
            && !ExactView(g, s'.client.latest.value, s'.server, s'.full)
  {
    var s := run[|events| - 1];
    DeltaStepAccepts(g, run, events);
    ResyncHeld(g, s);
    ViewIsExactUnlessEvicted(g, run, events);
    hide DeltaStep, Inv, Accepts, AfterDelta, OnSchedule, ExactView, NoEvictedInWindow;
    EvictedStays(g, s.full, s.held, start, interval);
  }

  lemma ResyncHeld(g: Setting, s: Sys)
    requires Inv(g, s) && s.log != [] && s.log[|s.log| - 1].Resynced?
    ensures |s.full| == SCALARS && s.server.Valid() && s.held == Range(First(s.seen, g.capacity), s.seen)
  {
  }
}
