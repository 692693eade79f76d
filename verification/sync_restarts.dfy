/** The incremental protocol with restarts of the collector: what is held stays in order, and a resync repairs. */
module SyncRestarts {
  import opened Seqs
  import opened HistoryData
  import opened Trim
  import opened StoreValues
  import opened Picks
  import opened Dashboard
  import opened DashboardFacts
  import opened Polling
  import opened SyncServer
  import opened SyncClient
  import opened SyncMerge
  import opened SyncRuns
  import opened SyncTheorems

  // The server and the dashboard, and, as a history variable, how each successful poll ended.
  datatype World = World(server: History, client: Client, log: seq<Outcome>)

  // A step of the protocol, or a restart of the collector that leaves the server with the history restored: a persisted
  // one, which may lack any number of the latest points and has whole milliseconds, or none at all.
  datatype WorldEvent = Proto(e: Event) | Restart(restored: History)

  // A history a collector can retain, whatever it has evicted.
  ghost predicate ServerFrom(h: History, cap: nat) {
    h.Valid() && ServerOk(h, h.scalar, cap)
  }

  ghost predicate WorldInit(g: Setting, w: World) {
    ServerFrom(w.server, g.capacity) && w.client == Fresh() && w.log == []
  }

  ghost function Ending(g: Setting, w: World, ok: bool): seq<Outcome>
    requires w.server.Valid() && w.client.Valid() && w.client.phase != Idle
  {
    if !ok then []
    else if w.client.Resyncing() then [Resynced]
    else if Merge(g.client, w.client.latest.value, Reply(w.server, w.client)).Some? then [DeltaAppended]
    else []
  }

  ghost predicate WorldNext(g: Setting, w: World, e: WorldEvent, w': World) {
    && w.server.Valid() && w.client.Valid()
    && match e
       case Restart(h) => ServerFrom(h, g.capacity) && w' == w.(server := h)
       case Proto(Tick(m)) =>
         Later(w.server.scalar, m) && w' == w.(server := Ticked(w.server, m, g.capacity, g.evictWindow))
       case Proto(Poll) => w' == w.(client := Asked(w.client))
       case Proto(Answer(ok)) =>
         && w.client.phase != Idle
         && Answered(g.client, w.client, if ok then Some(Reply(w.server, w.client)) else None, w'.client)
         && w' == w.(client := w'.client, log := w.log + Ending(g, w, ok))
       case Proto(Render) =>
         && w.client.latest.Some? && w' == w.(client := w'.client) && Rendered(w'.client, w.client.latest.value)
         && w'.client.polls == w.client.polls && w'.client.phase == w.client.phase
  }

  ghost predicate IsWorldRun(g: Setting, ws: seq<World>, events: seq<WorldEvent>) {
    && |ws| == |events| + 1 && WorldInit(g, ws[0])
    && forall i :: 0 <= i < |events| ==> WorldNext(g, ws[i], events[i], ws[i + 1])
  }

  // ------------------------------------------------------------------------------------------
  // Order

  // The scalar series are strictly ordered in time and aligned with each other, the tracked device series are in order
  // of time.
  ghost predicate InOrder(h: History) {
    && h.Valid() && Increasing(h.scalar[0])
    && (forall k :: 0 <= k < SCALARS ==> SameTimes(h.scalar[k], h.scalar[0]))
    && (forall d :: 0 <= d < 3 ==> SortedMap(h.device[d]))
  }

  lemma SuffixSameTimes(a: Points, b: Points, t: int)
    requires SameTimes(a, b) && Increasing(b)
    ensures SameTimes(Suffix(a, After(t)), Suffix(b, After(t))) && Increasing(Suffix(b, After(t)))
  {
    AlignedIncreasing(a, b);
    hide Suffix, After;
    var i := SuffixAfter(a, t);
    var j := SuffixAfter(b, t);
    assert i < |a| ==> (a[i].at <= t <==> b[i].at <= t);
    assert j < |a| ==> (a[j].at <= t <==> b[j].at <= t);
    assert i == j;
  }

  lemma SuffixSorted(m: map<Key, Points>, keep: Keep)
    requires SortedMap(m)
    ensures SortedMap(SuffixMap(m, keep))
  {
    forall k | k in SuffixMap(m, keep)
      ensures Sorted(Suffix(m[k], keep))
    {
    }
  }

  lemma SinceInOrder(h: History, t: Option<int>)
    requires InOrder(h)
    ensures InOrder(Since(h, t))
  {
    hide Suffix, SuffixMap, After, SameTimes, Increasing, SortedMap;
    if t.Some? {
      forall k | 0 <= k < SCALARS
        ensures SameTimes(Since(h, t).scalar[k], Since(h, t).scalar[0]) && Increasing(Since(h, t).scalar[0])
      {
        SuffixSameTimes(h.scalar[k], h.scalar[0], t.value);
      }
      forall d | 0 <= d < TRACKED_DEVICES
        ensures SortedMap(Since(h, t).device[d])
      {
        SuffixSorted(h.device[d], After(t.value));
      }
    }
  }

  // Every point of a later series comes in a later millisecond than every point of an earlier one.
  ghost predicate Precedes(a: Points, b: Points) {
    forall p, q :: p in a && q in b ==> Ms(p) < Ms(q)
  }

  lemma AppendIncreasing(a: Points, b: Points)
    requires Increasing(a) && Increasing(b) && Precedes(a, b)
    ensures Increasing(a + b)
  {
    forall i, j | 0 <= i < |a| && 0 <= j < |b|
      ensures a[i].at < b[j].at
    {
      MsLater(b[j], a[i]);
    }
  }

  lemma AppendSorted(a: Points, b: Points)
    requires Sorted(a) && Sorted(b) && Precedes(a, b)
    ensures Sorted(a + b)
  {
    forall i, j | 0 <= i < |a| && 0 <= j < |b|
      ensures a[i].at < b[j].at
    {
      MsLater(b[j], a[i]);
    }
  }

  // The join test puts every series of an accepted delta after everything held.
  lemma JoinPrecedes(c: ClientConfig, prev: History, delta: History, a: Points, b: Points)
    requires prev.Valid() && delta.Valid() && Joins(c, prev, delta)
    requires (forall p :: p in a ==> p in Tracked(prev)) && forall q :: q in b ==> q in Tracked(delta)
    ensures Precedes(a, b)
  {
  }

  lemma AppendedScalars(c: ClientConfig, prev: History, delta: History, k: nat)
    requires InOrder(prev) && InOrder(delta) && Joins(c, prev, delta) && k < SCALARS
    ensures var a := Appended(prev, delta); SameTimes(a.scalar[k], a.scalar[0]) && Increasing(a.scalar[0])
  {
    hide Tracked, Joins;
    assert SameTimes(prev.scalar[k], prev.scalar[0]) && SameTimes(delta.scalar[k], delta.scalar[0]);
    forall p | p in prev.scalar[0]
      ensures p in Tracked(prev)
    {
      ScalarTracked(prev, 0, p);
    }
    forall p | p in delta.scalar[0]
      ensures p in Tracked(delta)
    {
      ScalarTracked(delta, 0, p);
    }
    JoinPrecedes(c, prev, delta, prev.scalar[0], delta.scalar[0]);
    AppendIncreasing(prev.scalar[0], delta.scalar[0]);
  }

  lemma AppendedDevices(c: ClientConfig, prev: History, delta: History, d: nat)
    requires InOrder(prev) && InOrder(delta) && Joins(c, prev, delta) && d < TRACKED_DEVICES
    ensures SortedMap(Appended(prev, delta).device[d])
  {
    hide Tracked, Joins, Increasing, SameTimes;
    var m, n := prev.device[d], delta.device[d];
    assert SortedMap(m) && SortedMap(n);
    forall k | k in MergedMap(m, n)
      ensures Sorted(MergedMap(m, n)[k])
    {
      var a, b := if k in m then m[k] else [], if k in n then n[k] else [];
      forall p | p in a
        ensures p in Tracked(prev)
      {
        DeviceTracked(prev, d, k, p);
      }
      forall p | p in b
        ensures p in Tracked(delta)
      {
        DeviceTracked(delta, d, k, p);
      }
      JoinPrecedes(c, prev, delta, a, b);
      AppendSorted(a, b);
    }
  }

  lemma DropInOrder(h: History, cutoff: int)
    requires InOrder(h)
    ensures InOrder(DropOlder(h, cutoff))
  {
    hide SameTimes, Increasing, Filter;
    var keep := Within(cutoff);
    forall k | 0 <= k < SCALARS
      ensures SameTimes(DropOlder(h, cutoff).scalar[k], DropOlder(h, cutoff).scalar[0])
    {
      FilterSameTimes(h.scalar[k], h.scalar[0], keep);
    }
    FilterIncreasing(h.scalar[0], keep);
    forall d | 0 <= d < TRACKED_DEVICES
      ensures SortedMap(DropOlder(h, cutoff).device[d])
    {
      TrimmedSorted(h.device[d], cutoff);
    }
  }

  lemma TrimmedSorted(m: map<Key, Points>, cutoff: int)
    requires SortedMap(m)
    ensures SortedMap(TrimmedMap(m, cutoff))
  {
    forall k | k in TrimmedMap(m, cutoff)
      ensures Sorted(TrimmedMap(m, cutoff)[k])
    {
      FilterSorted(m[k], Within(cutoff));
    }
  }

  lemma MergeInOrder(c: ClientConfig, prev: History, delta: History)
    requires InOrder(prev) && InOrder(delta) && Joins(c, prev, delta)
    ensures InOrder(TrimWindow(Appended(prev, delta), c.windowMs))
  {
    hide Tracked, Joins, SameTimes, Increasing, SortedMap, Appended, DropOlder;
    forall k | 0 <= k < SCALARS
      ensures var a := Appended(prev, delta); SameTimes(a.scalar[k], a.scalar[0]) && Increasing(a.scalar[0])
    {
      AppendedScalars(c, prev, delta, k);
    }
    forall d | 0 <= d < TRACKED_DEVICES
      ensures SortedMap(Appended(prev, delta).device[d])
    {
      AppendedDevices(c, prev, delta, d);
    }
    var a := Appended(prev, delta);
    assert InOrder(a);
    if c.windowMs != 0 && Tracked(a) != {} {
      DropInOrder(a, Newest(Tracked(a)) - c.windowMs);
    }
  }

  // ------------------------------------------------------------------------------------------
  // The invariant

  ghost predicate WorldOk(g: Setting, w: World) {
    && ServerFrom(w.server, g.capacity) && w.client.Valid()
    && (w.client.latest.Some? ==> InOrder(w.client.latest.value))
    && LogOk(w.client, w.log)
    && (w.client.phase.AwaitingFirst? && w.client.phase.asked.Some? ==> w.client.polls < RESYNC_EVERY_POLLS)
  }

  lemma ServerInOrder(h: History, cap: nat)
    requires ServerFrom(h, cap)
    ensures InOrder(h)
  {
  }

  // What was recorded before and has been evicted makes no difference.
  lemma Rebased(h: History, full: seq<Points>, cap: nat)
    requires ServerOk(h, full, cap)
    ensures ServerFrom(h, cap)
  {
    hide Behind, Timely, SortedMap;
    forall k | 0 <= k < SCALARS
      ensures SameTimes(h.scalar[k], h.scalar[0]) && h.scalar[k] == LastN(h.scalar[k], cap)
    {
      assert SameTimes(full[k], full[0]) && h.scalar[k] == LastN(full[k], cap) && h.scalar[0] == LastN(full[0], cap);
    }
    forall d | 0 <= d < DEVICES
      ensures Behind(h.device[d], h.scalar[0]) && Timely(h.device[d], h.scalar[0])
    {
      RetainedBehind(h.device[d], full[0], cap);
      RetainedTimely(h.device[d], full[0], cap);
    }
  }

  lemma WorldTick(g: Setting, w: World, m: Measurement, w': World)
    requires WorldOk(g, w) && WorldNext(g, w, Proto(Event.Tick(m)), w')
    ensures WorldOk(g, w')
  {
    hide ServerOk, InOrder, LogOk, Ticked;
    TickServer(w.server, w.server.scalar, m, g.capacity, g.evictWindow);
    Rebased(w'.server, Recorded(w.server.scalar, m), g.capacity);
  }

  lemma WorldAnswer(g: Setting, w: World, ok: bool, w': World)
    requires WorldOk(g, w) && WorldNext(g, w, Proto(Answer(ok)), w')
    ensures WorldOk(g, w')
  {
    hide ServerFrom, InOrder, Trailing, Tracked, Since, TrimWindow, Appended, Joins;
    if ok && w.client.Resyncing() {
      ServerInOrder(w.server, g.capacity);
      LogGrows(w.log, Resynced);
    } else if ok && Merge(g.client, w.client.latest.value, Reply(w.server, w.client)).Some? {
      ServerInOrder(w.server, g.capacity);
      SinceInOrder(w.server, w.client.phase.asked);
      MergeInOrder(g.client, w.client.latest.value, Reply(w.server, w.client));
      LogGrows(w.log, DeltaAppended);
    } else {
      assert w.log + [] == w.log;
    }
  }

  lemma WorldStepOk(g: Setting, w: World, e: WorldEvent, w': World)
    requires WorldOk(g, w) && WorldNext(g, w, e, w')
    ensures WorldOk(g, w')
  {
    hide ServerFrom, InOrder, Tracked, Ticked, Trailing;
    match e
    case Restart(h) =>
    case Proto(Tick(m)) => WorldTick(g, w, m, w');
    case Proto(Poll) =>
    case Proto(Answer(ok)) => WorldAnswer(g, w, ok, w');
    case Proto(Render) =>
  }

  lemma {:induction false} WorldRunOk(g: Setting, ws: seq<World>, events: seq<WorldEvent>)
    requires IsWorldRun(g, ws, events)
    ensures WorldOk(g, ws[|events|])
  {
    hide WorldOk, WorldNext, WorldInit;
    if |events| == 0 {
      WorldInitOk(g, ws[0]);
    } else {
      var n := |events| - 1;
      WorldRunOk(g, ws[..n + 1], events[..n]);
      WorldStepOk(g, ws[n], events[n], ws[n + 1]);
    }
  }

  lemma WorldInitOk(g: Setting, w: World)
    requires WorldInit(g, w)
    ensures WorldOk(g, w)
  {
    hide ServerFrom;
  }

  // At every moment of every run, restarts included, what the dashboard holds is in order.
  lemma HeldInOrder(g: Setting, ws: seq<World>, events: seq<WorldEvent>)
    requires IsWorldRun(g, ws, events) && ws[|events|].client.latest.Some?
    ensures InOrder(ws[|events|].client.latest.value)
  {
    WorldRunOk(g, ws, events);
    hide IsWorldRun;
  }

  // Of any eleven consecutive successful polls, wherever the restarts fall, one fetches the whole window.
  lemma ResyncsGoOn(g: Setting, ws: seq<World>, events: seq<WorldEvent>, i: nat)
    requires IsWorldRun(g, ws, events) && i + 10 < |ws[|events|].log|
    ensures exists j :: i <= j <= i + 10 && ws[|events|].log[j].Resynced?
  {
    WorldRunOk(g, ws, events);
    assert LogOk(ws[|events|].client, ws[|events|].log);
    hide *;
    LogResyncs(ws[|events|].client, ws[|events|].log, i);
  }

  // ------------------------------------------------------------------------------------------
  // Without restarts the two protocols are the same

  // s is a state of the protocol without restarts in which server and dashboard are as in w.
  ghost predicate Shows(s: Sys, w: World) {
    s.server == w.server && s.client == w.client
  }

  // No point of the series is at t or later.
  ghost predicate Before(ps: Points, t: int) {
    forall i :: 0 <= i < |ps| ==> ps[i].at < t
  }

  lemma LastDecides(ps: Points, t: int)
    requires Increasing(ps) && |ps| > 0
    ensures Before(ps, t) <==> ps[|ps| - 1].at < t
  {
  }

  lemma RetainedIncreasing(ps: Points, cap: nat)
    requires Increasing(ps) && cap >= 1
    ensures var retained := LastN(ps, cap);
            && Increasing(retained) && (retained == [] <==> ps == [])
            && (ps != [] ==> retained[|retained| - 1] == ps[|ps| - 1])
  {
  }

  lemma AllBefore(ps: Points, cap: nat, t: int)
    requires Increasing(ps) && cap >= 1
    ensures Before(ps, t) <==> Before(LastN(ps, cap), t)
  {
    RetainedIncreasing(ps, cap);
    if ps != [] {
      hide LastN, Before, Increasing;
      LastDecides(ps, t);
      LastDecides(LastN(ps, cap), t);
    }
  }

  lemma LaterRetained(full: seq<Points>, h: History, cap: nat, m: Measurement)
    requires ServerOk(h, full, cap)
    ensures Later(full, m) <==> Later(h.scalar, m)
  {
    assert h.scalar[0] == LastN(full[0], cap);
    hide ServerOk, LastN;
    AllBefore(full[0], cap, m.now);
  }

  // Every step of the protocol without restarts is one of the protocol with them.
  lemma StepIsWorldStep(g: Setting, s: Sys, e: Event, s': Sys)
    requires Inv(g, s) && Stepped(g, s, e, s')
    ensures WorldNext(g, World(s.server, s.client, s.log), Proto(e), World(s'.server, s'.client, s'.log))
  {
    hide ServerOk, Holds, Tracked, Since, Merge, Ticked, HeldOk, LogOk;
    match e
    case Tick(m) => LaterRetained(s.full, s.server, g.capacity, m);
    case Poll =>
    case Answer(ok) => assert s.log + [] == s.log;
    case Render =>
  }

  ghost function Worlds(run: seq<Sys>): seq<World> {
    seq(|run|, i requires 0 <= i < |run| => World(run[i].server, run[i].client, run[i].log))
  }

  ghost function Protos(events: seq<Event>): seq<WorldEvent> {
    seq(|events|, i requires 0 <= i < |events| => Proto(events[i]))
  }

  lemma RunIsWorldRun(g: Setting, run: seq<Sys>, events: seq<Event>)
    requires IsRun(g, run, events)
    ensures IsWorldRun(g, Worlds(run), Protos(events))
  {
    hide Inv, Stepped, WorldNext;
    forall i | 0 <= i < |events|
      ensures WorldNext(g, Worlds(run)[i], Protos(events)[i], Worlds(run)[i + 1])
    {
      assert IsRun(g, run[..i + 1], events[..i]);
      RunOk(g, run[..i + 1], events[..i]);
      StepIsWorldStep(g, run[i], events[i], run[i + 1]);
    }
  }

  // Every step of the protocol with restarts but a restart is one of that without.
  lemma WorldStepIsStep(g: Setting, s: Sys, w: World, e: Event, w': World) returns (s': Sys)
    requires Inv(g, s) && Shows(s, w) && WorldNext(g, w, Proto(e), w')
    ensures Stepped(g, s, e, s') && Shows(s', w')
    ensures w.log <= w'.log && s'.log == s.log + w'.log[|w.log|..]
  {
    assert s.server.Valid() && s.client.Valid() && |s.full| == SCALARS;
    hide ServerOk, Holds, Tracked, Since, Merge, Ticked, HeldOk, LogOk, AfterDelta;
    match e
    case Tick(m) =>
      LaterRetained(s.full, s.server, g.capacity, m);
      s' := s.(server := w'.server, full := Recorded(s.full, m));
    case Poll => s' := s.(client := w'.client);
    case Render => s' := s.(client := w'.client);
    case Answer(ok) => s' := WorldAnswerIsAnswer(g, s, w, ok, w');
  }

  lemma WorldAnswerIsAnswer(g: Setting, s: Sys, w: World, ok: bool, w': World) returns (s': Sys)
    requires Inv(g, s) && Shows(s, w) && WorldNext(g, w, Proto(Answer(ok)), w')
    ensures Stepped(g, s, Answer(ok), s') && Shows(s', w')
    ensures w.log <= w'.log && s'.log == s.log + w'.log[|w.log|..]
  {
    assert s.server.Valid() && s.client.Valid() && |s.full| == SCALARS;
    hide ServerOk, Holds, Tracked, Since, Merge, HeldOk, LogOk, AfterDelta;
    var n := |s.full[0]|;
    if ok && s.client.Resyncing() {
      s' := s.(client := w'.client, held := Range(First(n, g.capacity), n), seen := n, whole := true,
               log := s.log + [Resynced]);
    } else if ok && Merge(g.client, s.client.latest.value, Reply(s.server, s.client)).Some? {
      s' := s.(client := w'.client, held := AfterDelta(g.client, s.full, s.held, s.seen, g.capacity), seen := n,
               whole := s.whole && First(n, g.capacity) <= s.seen, log := s.log + [DeltaAppended]);
    } else {
      s' := s.(client := w'.client);
    }
  }

  // ------------------------------------------------------------------------------------------
  // A resync repairs

  // The last answer was the whole window.
  ghost predicate ResyncStep(g: Setting, w: World, w': World) {
    WorldNext(g, w, Proto(Answer(true)), w') && w.client.Resyncing()
  }

  // A dashboard that opens on this server and polls at once is in the same state.
  lemma ResyncStartsAfresh(g: Setting, w: World, w': World) returns (run: seq<Sys>, events: seq<Event>)
    requires WorldOk(g, w) && ResyncStep(g, w, w')
    ensures IsRun(g, run, events) && Shows(run[|events|], w') && run[|events|].log == [Resynced]
  {
    var h := w.server;
    var n := |h.scalar[0]|;
    var s0 := Sys(h, h.scalar, Fresh(), {}, 0, true, []);
    var s1 := s0.(client := Asked(Fresh()));
    var s2 := s1.(client := w'.client, held := Range(First(n, g.capacity), n), seen := n, whole := true,
                  log := [Resynced]);
    assert [] + [Resynced] == [Resynced];
    hide ServerOk, Tracked;
    assert Init(g, s0) && Stepped(g, s0, Poll, s1) && Stepped(g, s1, Answer(true), s2);
    run, events := [s0, s1, s2], [Poll, Answer(true)];
  }

  // The event that made an entry of the log a full fetch.
  lemma {:induction false} ResyncOfLog(g: Setting, ws: seq<World>, events: seq<WorldEvent>, r: nat, j: nat)
    returns (i: nat)
    requires IsWorldRun(g, ws, events) && r <= |events|
    requires |ws[r].log| <= j < |ws[|events|].log| && ws[|events|].log[j].Resynced?
    ensures r <= i < |events| && events[i] == Proto(Answer(true)) && ResyncStep(g, ws[i], ws[i + 1])
  {
    var n := |events| - 1;
    LogOnlyGrows(g, ws[n], events[n], ws[n + 1]);
    if j < |ws[n].log| {
      i := ResyncOfLog(g, ws[..n + 1], events[..n], r, j);
    } else {
      i := n;
    }
  }

  lemma LogOnlyGrows(g: Setting, w: World, e: WorldEvent, w': World)
    requires WorldNext(g, w, e, w')
    ensures w.log <= w'.log
    ensures |w'.log| <= |w.log| + 1
    ensures |w'.log| > |w.log| && w'.log[|w.log|].Resynced? ==> e == Proto(Answer(true)) && ResyncStep(g, w, w')
  {
  }

  // However the restarts fall, eleven successful polls after any moment the whole window has been fetched.
  lemma ResyncComes(g: Setting, ws: seq<World>, events: seq<WorldEvent>, r: nat) returns (i: nat)
    requires IsWorldRun(g, ws, events) && r <= |events|
    requires |ws[|events|].log| > |ws[r].log| + 10
    ensures r <= i < |events| && events[i] == Proto(Answer(true)) && ResyncStep(g, ws[i], ws[i + 1])
  {
    ResyncsGoOn(g, ws, events, |ws[r].log|);
    var j :| |ws[r].log| <= j <= |ws[r].log| + 10 && ws[|events|].log[j].Resynced?;
    hide IsWorldRun;
    i := ResyncOfLog(g, ws, events, r, j);
  }

  ghost predicate NoRestart(events: seq<WorldEvent>) {
    forall i :: 0 <= i < |events| ==> events[i].Proto?
  }

  // From the first full window after a restart on, server and dashboard are, until the next one, in a state that a run
  // without restarts leads to: all that is proved of such runs holds again.
  lemma {:induction false} AsIfNeverRestarted(g: Setting, ws: seq<World>, events: seq<WorldEvent>, i: nat)
    returns (run: seq<Sys>, evs: seq<Event>)
    requires IsWorldRun(g, ws, events) && i < |events| && ResyncStep(g, ws[i], ws[i + 1])
    requires events[i] == Proto(Answer(true)) && NoRestart(events[i..])
    ensures IsRun(g, run, evs) && Shows(run[|evs|], ws[|events|])
    ensures ws[i + 1].log <= ws[|events|].log
    ensures run[|evs|].log == [Resynced] + ws[|events|].log[|ws[i + 1].log|..]
  {
    hide WorldNext, WorldOk, WorldInit, Inv, Stepped, ResyncStep, Shows;
    var n := |events| - 1;
    if i == n {
      WorldRunOk(g, ws[..i + 1], events[..i]);
      run, evs := ResyncStartsAfresh(g, ws[i], ws[i + 1]);
    } else {
      assert NoRestart(events[..n][i..]) by {
        assert forall j :: 0 <= j < |events[..n][i..]| ==> events[..n][i..][j] == events[i..][j];
      }
      run, evs := AsIfNeverRestarted(g, ws[..n + 1], events[..n], i);
      RunOk(g, run, evs);
      assert events[n] == events[i..][n - i];
      var s' := WorldStepIsStep(g, run[|evs|], ws[n], events[n].e, ws[n + 1]);
      RunExtends(g, run, evs, events[n].e, s');
      run, evs := run + [s'], evs + [events[n].e];
    }
  }
}
