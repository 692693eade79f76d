/** The device series in the incremental protocol: nothing the server retains within the window is missing. */
module SyncDevices {
  import opened Seqs
  import opened HistoryData
  import opened Trim
  import opened StoreValues
  import opened Dashboard
  import opened DashboardFacts
  import opened Polling
  import opened SyncServer
  import opened SyncClient
  import opened SyncMerge
  import opened SyncRuns
  import opened SyncTheorems

  // p is a point of device k's series of kind d.
  ghost predicate Has(h: History, d: nat, k: Key, p: HistoryPoint) {
    d < |h.device| && k in h.device[d] && p in h.device[d][k]
  }

  // Everything the server has of the tracked devices up to the newest scalar point seen and within the window ending
  // there is held.
  ghost predicate DevicesHeld(c: ClientConfig, latest: History, h: History, full: seq<Points>, seen: nat)
    requires |full| == SCALARS && 0 < seen <= |full[0]|
  {
    var newest := full[0][seen - 1];
    forall d: nat, k, p ::
      (d < TRACKED_DEVICES && Has(h, d, k, p) && p.at <= newest.at && InWindow(c.windowMs, Ms(newest))(p))
      ==> Has(latest, d, k, p)
  }

  ghost predicate DevicesOk(g: Setting, s: Sys) {
    (s.client.latest.Some? && |s.full| == SCALARS && 0 < s.seen <= |s.full[0]|)
    ==> DevicesHeld(g.client, s.client.latest.value, s.server, s.full, s.seen)
  }

  lemma TickedHas(h: History, m: Measurement, cap: nat, window: int, d: nat, k: Key, p: HistoryPoint)
    requires h.Valid() && m.Valid() && Has(Ticked(h, m, cap, window), d, k, p)
    ensures p.at == m.now || Has(h, d, k, p)
  {
    RecordedOrNew(h.device[d], m.Reports(d), m.now, cap, k, p);
  }

  lemma TickDevices(g: Setting, s: Sys, m: Measurement, s': Sys)
    requires Inv(g, s) && DevicesOk(g, s) && Next(g, s, Event.Tick(m), s')
    ensures DevicesOk(g, s')
  {
    assert |s.full| == SCALARS && s.seen <= |s.full[0]|;
    hide ServerOk, ClientOk, HeldOk, LogOk, Ticked, Has;
    if s.client.latest.Some? && s.seen > 0 {
      var newest := s.full[0][s.seen - 1];
      assert s'.full[0][s.seen - 1] == newest && newest.at < m.now;
      forall d: nat, k, p | d < TRACKED_DEVICES && Has(s'.server, d, k, p) && p.at <= newest.at
                            && InWindow(g.client.windowMs, Ms(newest))(p)
        ensures Has(s.client.latest.value, d, k, p)
      {
        TickedHas(s.server, m, g.capacity, g.evictWindow, d, k, p);
      }
    }
  }

  lemma SuffixHas(ps: Points, t: int, p: HistoryPoint)
    requires Sorted(ps) && p in ps && p.at > t
    ensures p in Suffix(ps, After(t))
  {
    SuffixIsFilter(ps, After(t));
    FilterHas(ps, After(t), p);
  }

  lemma SinceHas(h: History, t: int, d: nat, k: Key, p: HistoryPoint)
    requires h.Valid() && d < DEVICES && Has(h, d, k, p) && p.at > t && SortedMap(h.device[d])
    ensures Has(Since(h, Some(t)), d, k, p)
  {
    hide Suffix, After, Sorted;
    SuffixHas(h.device[d][k], t, p);
    SuffixMapHas(h.device[d], After(t), k, p);
  }

  lemma SuffixMapHas(m: map<Key, Points>, keep: Keep, k: Key, p: HistoryPoint)
    requires k in m && p in Suffix(m[k], keep)
    ensures k in SuffixMap(m, keep) && p in SuffixMap(m, keep)[k]
  {
    hide Suffix;
  }

  lemma AppendedHas(prev: History, delta: History, d: nat, k: Key, p: HistoryPoint)
    requires prev.Valid() && delta.Valid() && d < TRACKED_DEVICES && (Has(prev, d, k, p) || Has(delta, d, k, p))
    ensures Has(Appended(prev, delta), d, k, p)
  {
  }

  lemma TrimHas(h: History, windowMs: nat, d: nat, k: Key, p: HistoryPoint)
    requires h.Valid() && d < TRACKED_DEVICES && Has(h, d, k, p) && Tracked(h) != {}
    requires InWindow(windowMs, Newest(Tracked(h)))(p)
    ensures Has(TrimWindow(h, windowMs), d, k, p)
  {
    if windowMs != 0 {
      FilterHas(h.device[d][k], Within(Newest(Tracked(h)) - windowMs), p);
    }
  }

  // What an accepted delta leaves out was held before.
  lemma AcceptedHas(c: ClientConfig, prev: History, h: History, full: seq<Points>, held: set<nat>, seen: nat, cap: nat,
                    t: int, d: nat, k: Key, p: HistoryPoint)
    requires Accepts(c, prev, h, full, held, seen, cap, t) && DevicesHeld(c, prev, h, full, seen)
    requires d < TRACKED_DEVICES && Has(h, d, k, p) && Window(c, full)(p)
    ensures Has(Appended(prev, Since(h, Some(t))), d, k, p)
  {
    assert SortedMap(h.device[d]) && Increasing(full[0]) && t <= full[0][seen - 1].at;
    hide Has, Since, Appended, ServerOk, Joins, Holds;
    if p.at > t {
      SinceHas(h, t, d, k, p);
    } else {
      MsIncreasing(full, seen - 1, |full[0]| - 1);
    }
    AppendedHas(prev, Since(h, Some(t)), d, k, p);
  }

  lemma MergeDevices(c: ClientConfig, prev: History, h: History, full: seq<Points>, held: set<nat>, seen: nat, cap: nat,
                     t: int)
    requires Accepts(c, prev, h, full, held, seen, cap, t) && DevicesHeld(c, prev, h, full, seen)
    ensures DevicesHeld(c, TrimWindow(Appended(prev, Since(h, Some(t))), c.windowMs), h, full, |full[0]|)
  {
    AppendedNewest(c, prev, h, full, held, seen, cap, t);
    hide Has, Accepts, Since, Appended, Tracked, TrimWindow;
    var a := Appended(prev, Since(h, Some(t)));
    forall d: nat, k, p | d < TRACKED_DEVICES && Has(h, d, k, p) && Window(c, full)(p)
      ensures Has(TrimWindow(a, c.windowMs), d, k, p)
    {
      AcceptedHas(c, prev, h, full, held, seen, cap, t, d, k, p);
      TrimHas(a, c.windowMs, d, k, p);
    }
  }

  lemma AnswerDevices(g: Setting, s: Sys, ok: bool, s': Sys)
    requires Inv(g, s) && DevicesOk(g, s) && Next(g, s, Answer(ok), s')
    ensures DevicesOk(g, s')
  {
    assert s.server.Valid();
    hide ServerOk, HeldOk, LogOk, Holds, Since, Tracked, Appended, TrimWindow, Joins, Has, AfterDelta;
    if ok && s.client.Resyncing() {
      assert s'.client.latest == Some(s.server);
    } else if ok && Merge(g.client, s.client.latest.value, Reply(s.server, s.client)).Some? {
      MergeDevices(g.client, s.client.latest.value, s.server, s.full, s.held, s.seen, g.capacity,
                   s.client.phase.asked.value);
    }
  }

  lemma StepDevices(g: Setting, s: Sys, e: Event, s': Sys)
    requires Inv(g, s) && DevicesOk(g, s) && Next(g, s, e, s')
    ensures DevicesOk(g, s')
  {
    hide Inv, DevicesHeld, Tracked;
    match e
    case Tick(m) => TickDevices(g, s, m, s');
    case Poll =>
    case Answer(ok) => AnswerDevices(g, s, ok, s');
    case Render =>
  }

  lemma {:induction false} RunDevices(g: Setting, run: seq<Sys>, events: seq<Event>)
    requires IsRun(g, run, events)
    ensures DevicesOk(g, run[|events|])
  {
    hide Inv, Next, DevicesHeld;
    if |events| == 0 {
      assert run[0].client == Fresh();
    } else {
      var n := |events| - 1;
      RunDevices(g, run[..n + 1], events[..n]);
      RunOk(g, run[..n + 1], events[..n]);
      assert Stepped(g, run[n], events[n], run[n + 1]);
      StepDevices(g, run[n], events[n], run[n + 1]);
    }
  }

  // After every successful poll of every run no point of a tracked device that the server retains within the window is
  // missing either.
  lemma NoDevicePointIsMissing(g: Setting, run: seq<Sys>, events: seq<Event>, d: nat, k: Key, p: HistoryPoint)
    requires IsRun(g, run, events) && Current(run[|events|]) && run[|events|].seen > 0
    requires d < 3 && Has(run[|events|].server, d, k, p)
    requires Window(g.client, run[|events|].full)(p)
    ensures Has(run[|events|].client.latest.value, d, k, p)
  {
    RunOk(g, run, events);
    RunDevices(g, run, events);
    hide IsRun;
    var s := run[|events|];
    ServerUpTo(s.server, s.full, g.capacity);
    assert HistoryUpTo(s.server, s.full[0][s.seen - 1].at) && MapUpTo(s.server.device[d], s.full[0][s.seen - 1].at);
    assert UpTo(s.server.device[d][k], s.full[0][s.seen - 1].at);
    hide Inv;
  }

  lemma SinceFrom(h: History, t: int, d: nat, k: Key, p: HistoryPoint)
    requires h.Valid() && d < DEVICES && Has(Since(h, Some(t)), d, k, p)
    ensures Has(h, d, k, p)
  {
  }

  lemma AppendedFrom(prev: History, delta: History, d: nat, k: Key, p: HistoryPoint)
    requires prev.Valid() && delta.Valid() && d < 3 && Has(Appended(prev, delta), d, k, p)
    ensures Has(prev, d, k, p) || Has(delta, d, k, p)
  {
  }

  lemma TrimFrom(h: History, windowMs: nat, d: nat, k: Key, p: HistoryPoint)
    requires h.Valid() && d < 3 && Has(TrimWindow(h, windowMs), d, k, p) && Tracked(h) != {}
    ensures Has(h, d, k, p) && InWindow(windowMs, Newest(Tracked(h)))(p)
  {
    if windowMs != 0 {
      FilterIn(h.device[d][k], Within(Newest(Tracked(h)) - windowMs), p);
    }
  }

  lemma MergedView(c: ClientConfig, prev: History, h: History, full: seq<Points>, held: set<nat>, seen: nat, cap: nat,
                   t: int, d: nat, k: Key, p: HistoryPoint)
    requires Accepts(c, prev, h, full, held, seen, cap, t) && DevicesHeld(c, prev, h, full, seen) && d < 3
    ensures Has(TrimWindow(Appended(prev, Since(h, Some(t))), c.windowMs), d, k, p)
       <==> (Has(prev, d, k, p) || Has(h, d, k, p)) && Window(c, full)(p)
  {
    AppendedNewest(c, prev, h, full, held, seen, cap, t);
    assert h.Valid() && prev.Valid();
    hide Has, Accepts, Since, Appended, Tracked, TrimWindow;
    var delta := Since(h, Some(t));
    var a := Appended(prev, delta);
    if Has(TrimWindow(a, c.windowMs), d, k, p) {
      TrimFrom(a, c.windowMs, d, k, p);
      AppendedFrom(prev, delta, d, k, p);
      if Has(delta, d, k, p) {
        SinceFrom(h, t, d, k, p);
      }
    }
    if (Has(prev, d, k, p) || Has(h, d, k, p)) && Window(c, full)(p) {
      if Has(prev, d, k, p) {
        AppendedHas(prev, delta, d, k, p);
      } else {
        AcceptedHas(c, prev, h, full, held, seen, cap, t, d, k, p);
      }
      TrimHas(a, c.windowMs, d, k, p);
    }
  }

  lemma DeltaStepMerges(g: Setting, run: seq<Sys>, events: seq<Event>)
    requires DeltaStep(g, run, events)
    ensures var s, s' := run[|events| - 1], run[|events|];
            && s.server.Valid() && s.client.Valid() && s.client.phase.AwaitingFirst? && s.client.phase.asked.Some?
            && s'.client.latest
               == Some(TrimWindow(Appended(s.client.latest.value, Since(s.server, s.client.phase.asked)),
                                  g.client.windowMs))
  {
    DeltaStepAccepts(g, run, events);
    var n := |events| - 1;
    assert Stepped(g, run[n], events[n], run[n + 1]);
    assert AnswerStep(g, run[n], true, run[n + 1]);
    hide Accepts, Tracked, Since, Appended, TrimWindow, Inv;
  }

  // The device points held after a delta are those held before and those the server retains, within the window.
  lemma DeviceView(g: Setting, run: seq<Sys>, events: seq<Event>, d: nat, k: Key, p: HistoryPoint)
    requires DeltaStep(g, run, events) && d < 3
    ensures var s, s' := run[|events| - 1], run[|events|];
            && |s.full| == SCALARS && |s.full[0]| > 0 && s.client.latest.Some? && s'.client.latest.Some?
            && (Has(s'.client.latest.value, d, k, p)
                <==> (Has(s.client.latest.value, d, k, p) || Has(s.server, d, k, p)) && Window(g.client, s.full)(p))
  {
    DeltaStepAccepts(g, run, events);
    DeltaStepMerges(g, run, events);
    var n := |events| - 1;
    RunDevices(g, run[..n + 1], events[..n]);
    var s := run[n];
    hide DeltaStep, Has, DevicesHeld, Inv, TrimWindow, Appended, Since;
    MergedView(g.client, s.client.latest.value, s.server, s.full, s.held, s.seen, g.capacity,
               s.client.phase.asked.value, d, k, p);
  }

  lemma TrimDropsEmpty(h: History, windowMs: nat, d: nat, k: Key)
    requires h.Valid() && windowMs > 0 && Tracked(h) != {} && d < DEVICES && k in TrimWindow(h, windowMs).device[d]
    ensures d < 3 && TrimWindow(h, windowMs).device[d][k] != []
  {
  }

  lemma TrimTracksOnly(prev: History, delta: History, windowMs: nat, d: nat, k: Key)
    requires prev.Valid() && delta.Valid() && d < DEVICES && k in TrimWindow(Appended(prev, delta), windowMs).device[d]
    ensures d < 3
  {
  }

  // The disk I/O series are not kept, and with a window no device is left without a point.
  lemma NoEmptyDevice(g: Setting, run: seq<Sys>, events: seq<Event>, d: nat, k: Key)
    requires DeltaStep(g, run, events) && d < DEVICES
    ensures run[|events|].client.latest.Some? && run[|events|].client.latest.value.Valid()
    ensures var m := run[|events|].client.latest.value.device[d];
            k in m ==> d < 3 && (g.client.windowMs > 0 ==> m[k] != [])
  {
    DeltaStepAccepts(g, run, events);
    DeltaStepMerges(g, run, events);
    var s := run[|events| - 1];
    AppendedNewest(g.client, s.client.latest.value, s.server, s.full, s.held, s.seen, g.capacity,
                   s.client.phase.asked.value);
    hide DeltaStep, Accepts, Tracked, Since, Appended, TrimWindow, Inv;
    var a := Appended(s.client.latest.value, Since(s.server, s.client.phase.asked));
    if k in TrimWindow(a, g.client.windowMs).device[d] {
      TrimTracksOnly(s.client.latest.value, Since(s.server, s.client.phase.asked), g.client.windowMs, d, k);
      if g.client.windowMs > 0 {
        TrimDropsEmpty(a, g.client.windowMs, d, k);
      }
    }
  }
}
