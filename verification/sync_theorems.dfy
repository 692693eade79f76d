/** What the dashboard's history is worth, over every run of the incremental protocol. */
module SyncTheorems {
  import opened Seqs
  import opened HistoryData
  import opened Trim
  import opened Picks
  import opened Dashboard
  import opened DashboardFacts
  import opened Polling
  import opened SyncServer
  import opened SyncClient
  import opened SyncMerge
  import opened SyncRuns

  lemma {:induction false} PickIncreasing(ps: Points, held: set<nat>)
    requires Increasing(ps)
    ensures Increasing(Pick(ps, held))
  {
    if |ps| == 0 {
    } else {
      var init, last := ps[..|ps| - 1], ps[|ps| - 1];
      PickIncreasing(init, held);
      forall p | p in Pick(init, held)
        ensures p.at < last.at
      {
        PickMember(init, held, p);
      }
    }
  }

  lemma {:induction false} PickSameTimes(a: Points, b: Points, held: set<nat>)
    requires SameTimes(a, b)
    ensures SameTimes(Pick(a, held), Pick(b, held))
  {
    if |a| == 0 {
    } else {
      PickSameTimes(a[..|a| - 1], b[..|b| - 1], held);
    }
  }

  lemma AlignedIncreasing(a: Points, b: Points)
    requires SameTimes(a, b) && Increasing(b)
    ensures Increasing(a)
  {
  }

  // At every moment of every run the series held are strictly ordered in time, aligned with each other, and hold only
  // points the collector recorded.
  lemma HeldSeriesAreOrdered(g: Setting, run: seq<Sys>, events: seq<Event>, k: nat)
    requires IsRun(g, run, events) && k < SCALARS && run[|events|].client.latest.Some?
    ensures var s := run[|events|];
            var latest := s.client.latest.value;
            && latest.Valid() && |s.full| == SCALARS
            && Increasing(latest.scalar[k]) && SameTimes(latest.scalar[k], latest.scalar[0])
            && (forall p :: p in latest.scalar[k] ==> p in s.full[k])
  {
    RunOk(g, run, events);
    var s := run[|events|];
    var latest := s.client.latest.value;
    assert Holds(latest, s.full, s.held, s.seen) && Increasing(s.full[0]);
    OrderedPick(latest, s.full, s.held, s.seen, k);
  }

  lemma OrderedPick(latest: History, full: seq<Points>, held: set<nat>, seen: nat, k: nat)
    requires Holds(latest, full, held, seen) && Increasing(full[0]) && k < SCALARS
    ensures Increasing(latest.scalar[k]) && SameTimes(latest.scalar[k], latest.scalar[0])
    ensures forall p :: p in latest.scalar[k] ==> p in full[k]
  {
    assert SameTimes(full[k], full[0]) && SameTimes(full[0], full[0]);
    assert latest.scalar[k] == Pick(full[k], held) && latest.scalar[0] == Pick(full[0], held);
    AlignedIncreasing(full[k], full[0]);
    PickIncreasing(full[k], held);
    PickSameTimes(full[k], full[0], held);
    forall p | p in latest.scalar[k]
      ensures p in full[k]
    {
      PickMember(full[k], held, p);
    }
  }

  // The last poll succeeded and no tick has been recorded since its answer.
  ghost predicate Current(s: Sys) {
    |s.full| == SCALARS && s.client.latest.Some? && s.seen == |s.full[0]| && s.log != []
  }

  // A full window is the server's history, whatever was held before.
  lemma ResyncCopiesServer(g: Setting, run: seq<Sys>, events: seq<Event>, k: nat)
    requires IsRun(g, run, events) && k < SCALARS && Current(run[|events|])
    requires var log := run[|events|].log; log[|log| - 1].Resynced?
    ensures run[|events|].client.latest.value.Valid() && run[|events|].server.Valid()
    ensures run[|events|].client.latest.value.scalar[k] == run[|events|].server.scalar[k]
  {
    RunOk(g, run, events);
    var s := run[|events|];
    assert Holds(s.client.latest.value, s.full, s.held, s.seen);
    assert SameTimes(s.full[k], s.full[0]) && s.server.scalar[k] == LastN(s.full[k], g.capacity);
    PickRange(s.full[k], First(s.seen, g.capacity));
  }

  // Every scalar series held is exactly what the server retains within the window.
  ghost predicate ExactView(g: Setting, latest: History, h: History, full: seq<Points>)
    requires |full| == SCALARS && |full[0]| > 0 && latest.Valid() && h.Valid()
  {
    forall k :: 0 <= k < SCALARS ==> latest.scalar[k] == Filter(h.scalar[k], Window(g.client, full))
  }

  // The server's points within the window, as a selection of everything recorded.
  lemma RetainedInWindow(g: Setting, h: History, full: seq<Points>, k: nat)
    requires ServerOk(h, full, g.capacity) && k < SCALARS && |full[0]| > 0
    ensures Filter(h.scalar[k], Window(g.client, full))
         == Pick(full[k], Keeping(full[0], Range(First(|full[0]|, g.capacity), |full[0]|), Window(g.client, full)))
  {
    var r := First(|full[0]|, g.capacity);
    assert SameTimes(full[k], full[0]) && h.scalar[k] == LastN(full[k], g.capacity);
    PickRange(full[k], r);
    TrimmedPick(full, g.client, Range(r, |full[0]|), k);
  }

  // The dashboard holds everything up to its newest point from some point on, as long as every delta since the last
  // resync came before the server had evicted what the dashboard missed.
  lemma WholeRunsAreUnbroken(g: Setting, run: seq<Sys>, events: seq<Event>)
    requires IsRun(g, run, events) && run[|events|].whole
    ensures Unbroken(run[|events|].held, run[|events|].seen)
  {
    RunOk(g, run, events);
    hide IsRun;
  }

  // After every successful poll of every run, whatever was evicted meanwhile, no point that the server retains within
  // the window is missing.
  lemma NothingIsMissing(g: Setting, run: seq<Sys>, events: seq<Event>, k: nat, p: HistoryPoint)
    requires IsRun(g, run, events) && k < SCALARS && Current(run[|events|]) && run[|events|].seen > 0
    requires run[|events|].server.Valid()
    requires p in Filter(run[|events|].server.scalar[k], Window(g.client, run[|events|].full))
    ensures run[|events|].client.latest.value.Valid() && p in run[|events|].client.latest.value.scalar[k]
  {
    RunOk(g, run, events);
    hide IsRun;
    var s := run[|events|];
    RetainedInWindow(g, s.server, s.full, k);
    var r := First(|s.full[0]|, g.capacity);
    var kept := Keeping(s.full[0], Range(r, |s.full[0]|), Window(g.client, s.full));
    PickMember(s.full[k], kept, p);
    assert Holds(s.client.latest.value, s.full, s.held, s.seen) && Complete(g, s.full, s.held, s.seen);
    assert forall i :: i in kept ==> i in s.held;
    PickMember(s.full[k], s.held, p);
  }

  // ------------------------------------------------------------------------------------------
  // The join

  // The last answer was a delta that the dashboard appended.
  ghost predicate DeltaStep(g: Setting, run: seq<Sys>, events: seq<Event>) {
    && IsRun(g, run, events) && |events| > 0 && events[|events| - 1] == Answer(true)
    && run[|events|].log == run[|events| - 1].log + [DeltaAppended]
  }

  lemma DeltaStepExtends(g: Setting, run: seq<Sys>, events: seq<Event>, s': Sys)
    requires IsRun(g, run, events) && Stepped(g, run[|events|], Answer(true), s')
    requires s'.log == run[|events|].log + [DeltaAppended]
    ensures DeltaStep(g, run + [s'], events + [Answer(true)])
    ensures (run + [s'])[|events + [Answer(true)]| - 1] == run[|events|]
            && (run + [s'])[|events + [Answer(true)]|] == s'
  {
    hide Stepped;
    RunExtends(g, run, events, Answer(true), s');
  }

  lemma DeltaStepAccepts(g: Setting, run: seq<Sys>, events: seq<Event>)
    requires DeltaStep(g, run, events)
    ensures var s, s' := run[|events| - 1], run[|events|];
            && Inv(g, s) && s.client.phase.AwaitingFirst? && s.client.phase.asked.Some? && s.client.latest.Some?
            && s'.full == s.full && s'.server == s.server && s'.seen == |s.full[0]|
            && Accepts(g.client, s.client.latest.value, s.server, s.full, s.held, s.seen, g.capacity,
                       s.client.phase.asked.value)
            && s'.held == AfterDelta(g.client, s.full, s.held, s.seen, g.capacity)
  {
    var n := |events| - 1;
    RunOk(g, run[..n + 1], events[..n]);
    var s, s' := run[n], run[n + 1];
    assert Stepped(g, s, events[n], s');
    assert AnswerStep(g, s, true, s');
    hide ServerOk, Holds, Tracked, Since, Appended, TrimWindow, AfterDelta, Anchored;
    assert s.log + [DeltaAppended] != s.log + [Resynced] by {
      assert (s.log + [DeltaAppended])[|s.log|] != (s.log + [Resynced])[|s.log|];
    }
    assert s.log + [DeltaAppended] != s.log;
  }

  // No point held and evicted is within the window that ends at the newest point recorded.
  ghost predicate NoEvictedInWindow(g: Setting, full: seq<Points>, held: set<nat>)
    requires |full| == SCALARS && |full[0]| > 0
  {
    forall i :: i in held && i < First(|full[0]|, g.capacity) && i < |full[0]| ==> !Window(g.client, full)(full[0][i])
  }

  lemma SameSelection(g: Setting, full: seq<Points>, held: set<nat>, seen: nat)
    requires |full| == SCALARS && |full[0]| > 0 && (forall i :: i in held ==> i < seen <= |full[0]|)
    requires NoEvictedInWindow(g, full, held)
    requires Complete(g, full, AfterDelta(g.client, full, held, seen, g.capacity), |full[0]|)
    ensures AfterDelta(g.client, full, held, seen, g.capacity)
         == Keeping(full[0], Range(First(|full[0]|, g.capacity), |full[0]|), Window(g.client, full))
  {
  }

  lemma EvictedIsGone(ps: Points, i: nat, r: nat)
    requires Increasing(ps) && i < r <= |ps|
    ensures ps[i] !in ps[r..]
  {
    assert forall j :: 0 <= j < |ps[r..]| ==> ps[r..][j] == ps[r + j];
  }

  lemma EvictedNotRetained(g: Setting, h: History, full: seq<Points>, i: nat)
    requires ServerOk(h, full, g.capacity) && i < First(|full[0]|, g.capacity)
    ensures i < |full[0]| && full[0][i] !in Filter(h.scalar[0], Window(g.client, full))
  {
    var r := First(|full[0]|, g.capacity);
    assert h.scalar[0] == full[0][r..];
    EvictedIsGone(full[0], i, r);
    if full[0][i] in Filter(h.scalar[0], Window(g.client, full)) {
      FilterIn(h.scalar[0], Window(g.client, full), full[0][i]);
      assert false;
    }
  }

  // A selection of the recorded points shows the server's window exactly when it is the one the server makes.
  lemma ViewOfSelection(g: Setting, latest: History, h: History, full: seq<Points>, held: set<nat>, seen: nat)
    requires ServerOk(h, full, g.capacity) && |full[0]| > 0 && (forall i :: i in held ==> i < seen <= |full[0]|)
    requires Complete(g, full, AfterDelta(g.client, full, held, seen, g.capacity), |full[0]|)
    requires Holds(latest, full, AfterDelta(g.client, full, held, seen, g.capacity), |full[0]|)
    ensures ExactView(g, latest, h, full) <==> NoEvictedInWindow(g, full, held)
  {
    var held' := AfterDelta(g.client, full, held, seen, g.capacity);
    if NoEvictedInWindow(g, full, held) {
      SameSelection(g, full, held, seen);
      forall k | 0 <= k < SCALARS
        ensures latest.scalar[k] == Filter(h.scalar[k], Window(g.client, full))
      {
        RetainedInWindow(g, h, full, k);
      }
    } else {
      var i :| i in held && i < First(|full[0]|, g.capacity) && i < |full[0]| && Window(g.client, full)(full[0][i]);
      assert i in held' && latest.scalar[0] == Pick(full[0], held');
      PickMember(full[0], held', full[0][i]);
      EvictedNotRetained(g, h, full, i);
    }
  }

  // The dashboard's state around an appended delta, in terms of what was held before.
  lemma DeltaStepHolds(g: Setting, run: seq<Sys>, events: seq<Event>)
    requires DeltaStep(g, run, events)
    ensures var s, s' := run[|events| - 1], run[|events|];
            && ServerOk(s.server, s.full, g.capacity) && 0 < s.seen <= |s.full[0]|
            && (forall i :: i in s.held ==> i < s.seen)
            && s'.full == s.full && s'.server == s.server && s'.client.latest.Some?
            && Holds(s'.client.latest.value, s.full, AfterDelta(g.client, s.full, s.held, s.seen, g.capacity),
                     |s.full[0]|)
            && Complete(g, s.full, AfterDelta(g.client, s.full, s.held, s.seen, g.capacity), |s.full[0]|)
  {
    RunOk(g, run, events);
    DeltaStepAccepts(g, run, events);
    var s := run[|events| - 1];
    assert Holds(s.client.latest.value, s.full, s.held, s.seen) && s.seen > 0;
    hide DeltaStep, Accepts, AfterDelta, ServerOk, Complete, Unbroken, Trailing, Anchored;
  }

  // Appending a delta leaves exactly the server's window if and only if no point that was held before, but that the
  // server has evicted since, is still within the window.
  lemma ViewIsExactUnlessEvicted(g: Setting, run: seq<Sys>, events: seq<Event>)
    requires DeltaStep(g, run, events)
    ensures var s, s' := run[|events| - 1], run[|events|];
            && |s.full| == SCALARS && |s.full[0]| > 0 && s'.full == s.full
            && s'.server.Valid() && s'.client.latest.Some? && s'.client.latest.value.Valid()
            && (ExactView(g, s'.client.latest.value, s'.server, s'.full) <==> NoEvictedInWindow(g, s.full, s.held))
  {
    DeltaStepHolds(g, run, events);
    var s, s' := run[|events| - 1], run[|events|];
    hide DeltaStep, ExactView, Complete, AfterDelta, NoEvictedInWindow;
    ViewOfSelection(g, s'.client.latest.value, s.server, s.full, s.held, s.seen);
  }

  lemma JoinUnbroken(g: Setting, full: seq<Points>, held: set<nat>, seen: nat)
    requires |full| == SCALARS && Increasing(full[0]) && 0 < seen <= |full[0]| && g.capacity >= 1
    requires (forall i :: i in held ==> i < seen) && seen - 1 in held && Unbroken(held, seen)
    ensures Unbroken(AfterDelta(g.client, full, held, seen, g.capacity), |full[0]|)
       <==> First(|full[0]|, g.capacity) <= seen || !Window(g.client, full)(full[0][seen - 1])
  {
    var n := |full[0]|;
    var held' := AfterDelta(g.client, full, held, seen, g.capacity);
    if First(n, g.capacity) <= seen {
      UnbrokenDelta(g, full, held, seen);
    } else if Window(g.client, full)(full[0][seen - 1]) {
      assert seen - 1 in held' && seen !in held';
    } else {
      forall i | i in held'
        ensures i >= seen
      {
        if i < seen {
          MsIncreasing(full, i, seen - 1);
        }
      }
      LateUnbroken(g, full, held, seen);
    }
  }

  lemma LateUnbroken(g: Setting, full: seq<Points>, held: set<nat>, seen: nat)
    requires |full| == SCALARS && Increasing(full[0]) && 0 < seen <= |full[0]|
    requires forall i :: i in AfterDelta(g.client, full, held, seen, g.capacity) ==> i >= seen
    requires forall i :: i in held ==> i < seen
    ensures Unbroken(AfterDelta(g.client, full, held, seen, g.capacity), |full[0]|)
  {
    var held' := AfterDelta(g.client, full, held, seen, g.capacity);
    forall i, j | i in held' && i <= j < |full[0]|
      ensures j in held'
    {
      MsIncreasing(full, i, j);
    }
  }

  // Appending a delta leaves no hole if and only if the server still retained the point after the newest one held, or
  // the window has moved past everything held before.
  lemma DeltaLeavesNoHoleUnlessEvicted(g: Setting, run: seq<Sys>, events: seq<Event>)
    requires DeltaStep(g, run, events) && Unbroken(run[|events| - 1].held, run[|events| - 1].seen)
    ensures var s, s' := run[|events| - 1], run[|events|];
            && |s.full| == SCALARS && 0 < s.seen <= |s.full[0]|
            && (Unbroken(s'.held, s'.seen)
                <==> First(|s.full[0]|, g.capacity) <= s.seen || !Window(g.client, s.full)(s.full[0][s.seen - 1]))
  {
    DeltaStepAccepts(g, run, events);
    var s := run[|events| - 1];
    hide DeltaStep, Inv, AfterDelta;
    JoinUnbroken(g, s.full, s.held, s.seen);
  }

  lemma {:induction false} ScalarPointsFrom(scalar: seq<Points>, t: int, p: HistoryPoint)
    requires forall k, q :: 0 <= k < |scalar| && q in scalar[k] ==> t <= q.at
    requires p in ScalarPoints(scalar)
    ensures t <= p.at
  {
    if p in ScalarPoints(scalar[..|scalar| - 1]) {
      ScalarPointsFrom(scalar[..|scalar| - 1], t, p);
    }
  }

  lemma AlignedFrom(a: Points, b: Points, j: nat, q: HistoryPoint)
    requires Increasing(b) && j < |b| == |a| && q in a[j..] && forall i :: 0 <= i < |a| ==> a[i].at == b[i].at
    ensures b[j].at <= q.at
  {
    var i :| 0 <= i < |a[j..]| && a[j..][i] == q;
    assert a[j + i] == q;
  }

  lemma {:induction false} DevicePointsOnTick(device: seq<map<Key, Points>>, recorded: Points, p: HistoryPoint)
    requires forall d :: 0 <= d < |device| ==> Timely(device[d], recorded)
    requires p in DevicePoints(device)
    ensures OnTick(recorded, p.at)
  {
    if p in DevicePoints(device[..|device| - 1]) {
      DevicePointsOnTick(device[..|device| - 1], recorded, p);
    } else {
      var m := device[|device| - 1];
      assert Timely(m, recorded);
      var k :| k in m && p in m[k];
    }
  }

  lemma SinceTimely(h: History, t: int, d: nat, recorded: Points)
    requires h.Valid() && d < DEVICES && Timely(h.device[d], recorded)
    ensures Timely(Since(h, Some(t)).device[d], recorded)
  {
  }

  // A point taken by a tick and later than the newest point held is of a tick the dashboard has not seen.
  lemma UnseenTick(recorded: Points, seen: nat, q: HistoryPoint)
    requires Increasing(recorded) && 0 < seen < |recorded| && OnTick(recorded, q.at) && Ms(q) > Ms(recorded[seen - 1])
    ensures Ms(q) >= Ms(recorded[seen])
  {
    MsLater(q, recorded[seen - 1]);
    assert recorded[0].at <= recorded[seen - 1].at;
    var i :| 0 <= i < |recorded| && recorded[i].at == q.at;
    assert recorded[seen].at <= recorded[i].at;
  }

  lemma DeltaScalarUnseen(c: ClientConfig, prev: History, h: History, full: seq<Points>, held: set<nat>, seen: nat,
                          cap: nat,
                          t: int, q: HistoryPoint)
    requires Accepts(c, prev, h, full, held, seen, cap, t) && seen < |full[0]|
    requires q in ScalarPoints(Since(h, Some(t)).scalar)
    ensures Ms(q) >= Ms(full[0][seen])
  {
    var delta := Since(h, Some(t));
    forall k, p | 0 <= k < SCALARS && p in delta.scalar[k]
      ensures full[0][seen].at <= p.at
    {
      AcceptedDelta(c, prev, h, full, held, seen, cap, t, k);
      AlignedFrom(full[k], full[0], JoinAt(seen, |full[0]|, cap), p);
    }
    hide Accepts, Since;
    ScalarPointsFrom(delta.scalar, full[0][seen].at, q);
  }

  lemma DeltaDeviceUnseen(h: History, full: seq<Points>, seen: nat, cap: nat, t: int, q: HistoryPoint)
    requires ServerOk(h, full, cap) && 0 < seen < |full[0]| && Ms(q) > Ms(full[0][seen - 1])
    requires q in DevicePoints(Since(h, Some(t)).device[..TRACKED_DEVICES])
    ensures Ms(q) >= Ms(full[0][seen])
  {
    var delta := Since(h, Some(t));
    forall d | 0 <= d < TRACKED_DEVICES
      ensures Timely(delta.device[..TRACKED_DEVICES][d], full[0])
    {
      SinceTimely(h, t, d, full[0]);
    }
    hide Since, Timely, OnTick;
    DevicePointsOnTick(delta.device[..TRACKED_DEVICES], full[0], q);
    UnseenTick(full[0], seen, q);
  }

  // Whatever series it belongs to, no point of an accepted delta is older than the first tick not seen.
  lemma DeltaPointUnseen(c: ClientConfig, prev: History, h: History, full: seq<Points>, held: set<nat>, seen: nat,
                         cap: nat,
                         t: int, q: HistoryPoint)
    requires Accepts(c, prev, h, full, held, seen, cap, t) && seen < |full[0]|
    requires q in Tracked(Since(h, Some(t)))
    ensures Ms(q) >= Ms(full[0][seen])
  {
    assert ServerOk(h, full, cap) && Holds(prev, full, held, seen) && Increasing(full[0]);
    HeldNewest(prev, full, held, seen);
    hide ServerOk, Holds, Anchored, HistoryUpTo, Since;
    if q in ScalarPoints(Since(h, Some(t)).scalar) {
      DeltaScalarUnseen(c, prev, h, full, held, seen, cap, t, q);
    } else {
      assert Ms(q) >= Oldest(Tracked(Since(h, Some(t))));
      DeltaDeviceUnseen(h, full, seen, cap, t, q);
    }
  }

  lemma AcceptedJump(c: ClientConfig, prev: History, h: History, full: seq<Points>, held: set<nat>, seen: nat,
                     cap: nat, t: int)
    requires Accepts(c, prev, h, full, held, seen, cap, t) && seen < |full[0]|
    ensures JoinAt(seen, |full[0]|, cap) < |full[0]| && Tracked(Since(h, Some(t))) != {}
    ensures Ms(full[0][JoinAt(seen, |full[0]|, cap)]) > Ms(full[0][seen - 1])
  {
    var delta, j := Since(h, Some(t)), JoinAt(seen, |full[0]|, cap);
    assert Holds(prev, full, held, seen) && Increasing(full[0]) && cap >= 1;
    HeldNewest(prev, full, held, seen);
    AcceptedDelta(c, prev, h, full, held, seen, cap, t, 0);
    assert delta.scalar[0][0] == full[0][j];
    ScalarTracked(delta, 0, full[0][j]);
  }

  lemma AcceptedGap(c: ClientConfig, prev: History, h: History, full: seq<Points>, held: set<nat>, seen: nat,
                    cap: nat, t: int)
    requires Accepts(c, prev, h, full, held, seen, cap, t) && seen < |full[0]|
    ensures Tracked(Since(h, Some(t))) != {}
    ensures 0 < Oldest(Tracked(Since(h, Some(t)))) - Ms(full[0][seen - 1]) <= GapToleranceMs(c)
    ensures Ms(full[0][seen]) - Ms(full[0][seen - 1]) <= GapToleranceMs(c)
  {
    var delta := Since(h, Some(t));
    AcceptedJump(c, prev, h, full, held, seen, cap, t);
    assert Holds(prev, full, held, seen) && Increasing(full[0]);
    HeldNewest(prev, full, held, seen);
    var q :| q in Tracked(delta) && Ms(q) == Oldest(Tracked(delta));
    DeltaPointUnseen(c, prev, h, full, held, seen, cap, t, q);
  }

  // The join test bounds the jump from the newest point held to the oldest point of any series of the delta. The scalar
  // series jump within the tolerance as well if and only if the server had evicted nothing the dashboard missed, or
  // what it retains still starts within the tolerance.
  lemma JoinGapIsBounded(g: Setting, run: seq<Sys>, events: seq<Event>)
    requires DeltaStep(g, run, events)
    requires |run[|events| - 1].full| == SCALARS && run[|events| - 1].seen < |run[|events| - 1].full[0]|
    ensures var s := run[|events| - 1];
            var n, first := |s.full[0]|, First(|s.full[0]|, g.capacity);
            && s.seen > 0 && s.server.Valid() && s.client.phase.AwaitingFirst? && s.client.phase.asked.Some?
            && first < n && JoinAt(s.seen, n, g.capacity) < n
            && var delta, newest := Since(s.server, s.client.phase.asked), Ms(s.full[0][s.seen - 1]);
            && var gap := Ms(s.full[0][JoinAt(s.seen, n, g.capacity)]) - newest;
            && Tracked(delta) != {} && 0 < Oldest(Tracked(delta)) - newest <= GapToleranceMs(g.client)
            && 0 < gap
            && (gap <= GapToleranceMs(g.client)
                <==> first <= s.seen || Ms(s.full[0][first]) - newest <= GapToleranceMs(g.client))
  {
    DeltaStepAccepts(g, run, events);
    var s := run[|events| - 1];
    assert s.seen > 0 && g.capacity >= 1;
    hide DeltaStep, Inv, AfterDelta, Accepts, Joins, Tracked, Since, Oldest, Newest, GapToleranceMs;
    var prev, t := s.client.latest.value, s.client.phase.asked.value;
    AcceptedGap(g.client, prev, s.server, s.full, s.held, s.seen, g.capacity, t);
    AcceptedJump(g.client, prev, s.server, s.full, s.held, s.seen, g.capacity, t);
  }

  // ------------------------------------------------------------------------------------------
  // The periodic resync

  lemma {:induction false} DeltasPileUp(log: seq<Outcome>, i: nat, m: nat)
    requires i <= m <= |log| && forall j :: i <= j < m ==> log[j].DeltaAppended?
    ensures Trailing(log[..m]) >= m - i
    decreases m
  {
    if i < m {
      DeltasPileUp(log, i, m - 1);
      assert log[..m][..m - 1] == log[..m - 1];
    }
  }

  // Of any eleven consecutive successful polls at least one, and of any session the first one, fetches the whole
  // window.
  lemma ResyncIsPeriodic(g: Setting, run: seq<Sys>, events: seq<Event>, i: nat)
    requires IsRun(g, run, events) && i + 10 < |run[|events|].log|
    ensures run[|events|].log[0].Resynced?
    ensures exists j :: i <= j <= i + 10 && run[|events|].log[j].Resynced?
  {
    RunOk(g, run, events);
    assert LogOk(run[|events|].client, run[|events|].log);
    hide *;
    LogResyncs(run[|events|].client, run[|events|].log, i);
  }

  lemma LogResyncs(client: Client, log: seq<Outcome>, i: nat)
    requires LogOk(client, log) && i + 10 < |log|
    ensures log[0].Resynced? && exists j :: i <= j <= i + 10 && log[j].Resynced?
  {
    var m := i + RESYNC_EVERY_POLLS + 1;
    assert Trailing(log[..m]) <= RESYNC_EVERY_POLLS;
    hide *;
    if forall j :: i <= j < m ==> log[j].DeltaAppended? {
      DeltasPileUp(log, i, m);
    }
  }
}
