/** Runs of the incremental history protocol: collector ticks interleaved with polls that fail or succeed. */
module SyncRuns {
  import opened Seqs
  import opened HistoryData
  import opened Trim
  import opened StoreValues
  import opened Picks
  import opened Dashboard
  import opened DashboardFacts
  import opened Polling
  import opened SyncServer
  import opened SyncClient
  import opened SyncMerge

  datatype Setting = Setting(client: ClientConfig, capacity: nat, evictWindow: int)

  datatype Outcome = Resynced | DeltaAppended

  /**
   * The server's retained history and the dashboard, with history variables: every point ever recorded per scalar
   * (full), which of them the dashboard holds (held, all below seen, the number recorded when it last succeeded),
   * whether every delta since the last resync came before the server had evicted anything the dashboard missed
   * (whole), and how each successful poll ended (log).
   */
  datatype Sys = Sys(server: History, full: seq<Points>, client: Client, held: set<nat>, seen: nat, whole: bool,
                     log: seq<Outcome>)

  // Answer(false) is a failed fetch; Render is the redraw of what is held, after a change of theme.
  datatype Event = Tick(m: Measurement) | Poll | Answer(ok: bool) | Render

  ghost predicate Init(g: Setting, s: Sys) {
    && ServerOk(s.server, s.full, g.capacity) && s.full == s.server.scalar
    && s.client == Fresh() && s.held == {} && s.seen == 0 && s.whole && s.log == []
  }

  // The server's answer to the request the dashboard awaits.
  ghost function Reply(server: History, client: Client): (h: History)
    requires server.Valid() && client.phase != Idle
    ensures h.Valid()
  {
    if client.Resyncing() then server else Since(server, client.phase.asked)
  }

  ghost predicate Retried(s: Sys, s': Sys) {
    s' == s.(client := s'.client)
  }

  ghost predicate AnswerStep(g: Setting, s: Sys, ok: bool, s': Sys)
    requires s.server.Valid() && s.client.Valid() && |s.full| == SCALARS
  {
    var n := |s.full[0]|;
    && s.client.phase != Idle
    && Answered(g.client, s.client, if ok then Some(Reply(s.server, s.client)) else None, s'.client)
    && if !ok then Retried(s, s')
       else if s.client.Resyncing() then
         s' == s.(client := s'.client, held := Range(First(n, g.capacity), n), seen := n, whole := true,
                  log := s.log + [Resynced])
       else if Merge(g.client, s.client.latest.value, Reply(s.server, s.client)).None? then Retried(s, s')
       else
         n > 0 &&
         s' == s.(client := s'.client, held := AfterDelta(g.client, s.full, s.held, s.seen, g.capacity), seen := n,
                  whole := s.whole && First(n, g.capacity) <= s.seen, log := s.log + [DeltaAppended])
  }

  ghost predicate Next(g: Setting, s: Sys, e: Event, s': Sys)
    requires s.server.Valid() && s.client.Valid() && |s.full| == SCALARS
  {
    match e
    case Tick(m) =>
      Later(s.full, m)
      && s' == s.(server := Ticked(s.server, m, g.capacity, g.evictWindow), full := Recorded(s.full, m))
    case Poll => s' == s.(client := Asked(s.client))
    case Answer(ok) => AnswerStep(g, s, ok, s')
    case Render =>
      && s.client.latest.Some? && s' == s.(client := s'.client)
      && Rendered(s'.client, s.client.latest.value)
      && s'.client.polls == s.client.polls && s'.client.phase == s.client.phase
  }

  // ------------------------------------------------------------------------------------------
  // The invariant

  ghost predicate Pending(s: Sys, t: Option<int>) {
    t.Some? ==> s.client.latest.Some? && Anchored(t.value, s.full, s.seen)
  }

  ghost predicate ClientOk(s: Sys) {
    && s.client.Valid() && s.client.polls <= RESYNC_EVERY_POLLS
    && (s.client.latest.Some? ==> Holds(s.client.latest.value, s.full, s.held, s.seen))
    && Pending(s, s.client.since)
    && (s.client.phase.AwaitingFirst? ==> Pending(s, s.client.phase.asked))
    && (s.client.phase.AwaitingFirst? && s.client.phase.asked.Some? ==> s.client.polls < RESYNC_EVERY_POLLS)
  }

  // Without a hole the indices held reach up to the newest.
  ghost predicate Unbroken(held: set<nat>, seen: nat) {
    forall i, j :: i in held && i <= j < seen ==> j in held
  }

  // What is missing was evicted or has left the window.
  ghost predicate Complete(g: Setting, full: seq<Points>, held: set<nat>, seen: nat)
    requires |full| == SCALARS && seen <= |full[0]|
  {
    forall j: nat :: j < seen && j !in held ==>
      j < First(seen, g.capacity) || !InWindow(g.client.windowMs, Ms(full[0][seen - 1]))(full[0][j])
  }

  ghost predicate HeldOk(g: Setting, s: Sys) {
    && |s.full| == SCALARS && s.seen <= |s.full[0]|
    && (s.log != [] ==> Complete(g, s.full, s.held, s.seen)) && (s.whole ==> Unbroken(s.held, s.seen))
    && (s.log != [] && s.log[|s.log| - 1].Resynced? ==> s.held == Range(First(s.seen, g.capacity), s.seen))
  }

  // The number of deltas appended since the last resync.
  ghost function Trailing(log: seq<Outcome>): nat {
    if |log| == 0 || log[|log| - 1].Resynced? then 0 else 1 + Trailing(log[..|log| - 1])
  }

  ghost predicate LogOk(client: Client, log: seq<Outcome>) {
    && (client.latest.Some? <==> log != []) && (log != [] ==> log[0].Resynced?)
    && Trailing(log) == client.polls
    && (forall m :: 0 <= m <= |log| ==> Trailing(log[..m]) <= RESYNC_EVERY_POLLS)
  }

  ghost predicate Inv(g: Setting, s: Sys) {
    ServerOk(s.server, s.full, g.capacity) && ClientOk(s) && HeldOk(g, s) && LogOk(s.client, s.log)
  }

  lemma InitOk(g: Setting, s: Sys)
    requires Init(g, s)
    ensures Inv(g, s)
  {
  }

  lemma HoldsGrows(latest: History, full: seq<Points>, held: set<nat>, seen: nat, m: Measurement)
    requires Holds(latest, full, held, seen) && m.Valid()
    ensures Holds(latest, Recorded(full, m), held, seen)
  {
    hide Behind;
    forall k | 0 <= k < SCALARS
      ensures SameTimes(Recorded(full, m)[k], Recorded(full, m)[0])
              && latest.scalar[k] == Pick(Recorded(full, m)[k], held)
    {
      assert SameTimes(full[k], full[0]) && latest.scalar[k] == Pick(full[k], held);
      PickGrow(full[k], [HistoryPoint(m.now, m.scalars[k])], held);
    }
    assert Recorded(full, m)[0][..seen] == full[0][..seen];
  }

  lemma TickOk(g: Setting, s: Sys, m: Measurement, s': Sys)
    requires Inv(g, s) && Next(g, s, Tick(m), s')
    ensures Inv(g, s')
  {
    assert |s.full| == SCALARS && |s'.full[0]| == |s.full[0]| + 1;
    hide ServerOk, Ticked, Holds, Behind, Trailing, Unbroken;
    TickServer(s.server, s.full, m, g.capacity, g.evictWindow);
    if s.client.latest.Some? {
      HoldsGrows(s.client.latest.value, s.full, s.held, s.seen, m);
    }
    assert forall i :: 0 <= i < |s.full[0]| ==> s'.full[0][i] == s.full[0][i];
  }

  lemma LogGrows(log: seq<Outcome>, o: Outcome)
    requires forall m :: 0 <= m <= |log| ==> Trailing(log[..m]) <= RESYNC_EVERY_POLLS
    requires o.DeltaAppended? ==> Trailing(log) < RESYNC_EVERY_POLLS
    ensures Trailing(log + [o]) == if o.Resynced? then 0 else Trailing(log) + 1
    ensures forall m :: 0 <= m <= |log + [o]| ==> Trailing((log + [o])[..m]) <= RESYNC_EVERY_POLLS
  {
    assert (log + [o])[..|log|] == log;
    forall m | 0 <= m <= |log + [o]|
      ensures Trailing((log + [o])[..m]) <= RESYNC_EVERY_POLLS
    {
      if m <= |log| {
        assert (log + [o])[..m] == log[..m];
      } else {
        assert (log + [o])[..m] == log + [o];
      }
    }
  }

  lemma RangeHeldOk(g: Setting, full: seq<Points>)
    requires |full| == SCALARS
    ensures var n := |full[0]|;
            Unbroken(Range(First(n, g.capacity), n), n) && Complete(g, full, Range(First(n, g.capacity), n), n)
  {
  }

  lemma ResyncOk(g: Setting, s: Sys, s': Sys)
    requires Inv(g, s) && s.client.phase != Idle && s.client.Resyncing() && AnswerStep(g, s, true, s')
    ensures Inv(g, s')
  {
    assert |s.full| == SCALARS && Increasing(s.full[0]);
    hide ServerOk, Holds, Behind, Tracked, Merge, Since, Newest, Anchored, Trailing, Complete, Unbroken;
    RangeHeldOk(g, s.full);
    FullWindowHolds(s.server, s.full, g.capacity);
    RenderedAnchors(s'.client, s.server, s.full, s'.held, s'.seen);
    LogGrows(s.log, Resynced);
  }

  lemma MsIncreasing(full: seq<Points>, i: nat, j: nat)
    requires |full| == SCALARS && Increasing(full[0]) && i <= j < |full[0]|
    ensures Ms(full[0][i]) <= Ms(full[0][j])
  {
  }

  lemma UnbrokenDelta(g: Setting, full: seq<Points>, held: set<nat>, seen: nat)
    requires |full| == SCALARS && Increasing(full[0]) && 0 < seen <= |full[0]| && g.capacity >= 1
    requires (forall i :: i in held ==> i < seen) && Unbroken(held, seen) && First(|full[0]|, g.capacity) <= seen
    ensures Unbroken(AfterDelta(g.client, full, held, seen, g.capacity), |full[0]|)
  {
    var n := |full[0]|;
    var held' := AfterDelta(g.client, full, held, seen, g.capacity);
    forall i, j | i in held' && i <= j < n
      ensures j in held'
    {
      MsIncreasing(full, i, j);
    }
  }

  lemma CompleteDelta(g: Setting, full: seq<Points>, held: set<nat>, seen: nat)
    requires |full| == SCALARS && Increasing(full[0]) && 0 < seen <= |full[0]| && g.capacity >= 1
    requires Complete(g, full, held, seen)
    ensures Complete(g, full, AfterDelta(g.client, full, held, seen, g.capacity), |full[0]|)
  {
    MsIncreasing(full, seen - 1, |full[0]| - 1);
  }

  lemma DeltaHolds(g: Setting, s: Sys, t: int)
    requires ServerOk(s.server, s.full, g.capacity) && s.client.latest.Some? && Anchored(t, s.full, s.seen)
    requires Holds(s.client.latest.value, s.full, s.held, s.seen)
    requires Merge(g.client, s.client.latest.value, Since(s.server, Some(t))).Some?
    ensures |s.full| == SCALARS && 0 < s.seen <= |s.full[0]| && Increasing(s.full[0]) && g.capacity >= 1
    ensures forall i :: i in s.held ==> i < s.seen
    ensures Holds(Merge(g.client, s.client.latest.value, Since(s.server, Some(t))).value, s.full,
                  AfterDelta(g.client, s.full, s.held, s.seen, g.capacity), |s.full[0]|)
  {
    MergeHolds(g.client, s.client.latest.value, s.server, s.full, s.held, s.seen, g.capacity, t);
  }

  lemma DeltaOk(g: Setting, s: Sys, s': Sys)
    requires Inv(g, s) && s.client.phase != Idle && !s.client.Resyncing() && AnswerStep(g, s, true, s')
    requires Merge(g.client, s.client.latest.value, Reply(s.server, s.client)).Some?
    ensures Inv(g, s')
  {
    hide ServerOk, Holds, Behind, Tracked, Since, Merge, AfterDelta, Anchored, Trailing, Complete, Unbroken, Newest;
    DeltaHolds(g, s, s.client.phase.asked.value);
    RenderedAnchors(s'.client, s'.client.latest.value, s.full, s'.held, s'.seen);
    LogGrows(s.log, DeltaAppended);
    HeldAfterDelta(g, s, s');
  }

  lemma HeldAfterDelta(g: Setting, s: Sys, s': Sys)
    requires |s.full| == SCALARS && Increasing(s.full[0]) && 0 < s.seen <= |s.full[0]| && g.capacity >= 1
    requires (forall i :: i in s.held ==> i < s.seen) && HeldOk(g, s) && s.log != [] && s'.full == s.full
    requires s'.held == AfterDelta(g.client, s.full, s.held, s.seen, g.capacity) && s'.seen == |s.full[0]|
    requires s'.whole == (s.whole && First(|s.full[0]|, g.capacity) <= s.seen) && s'.log == s.log + [DeltaAppended]
    ensures HeldOk(g, s')
  {
    hide AfterDelta, Complete, Unbroken;
    CompleteDelta(g, s.full, s.held, s.seen);
    if s'.whole {
      UnbrokenDelta(g, s.full, s.held, s.seen);
    }
  }

  lemma FailureOk(g: Setting, s: Sys, ok: bool, s': Sys)
    requires Inv(g, s) && s.client.phase != Idle && AnswerStep(g, s, ok, s') && Retried(s, s')
    requires !ok || (!s.client.Resyncing() && Merge(g.client, s.client.latest.value, Reply(s.server, s.client)).None?)
    ensures Inv(g, s')
  {
    hide ServerOk, Holds, Behind, Tracked, Since, Merge, Anchored, Newest, Trailing, Complete, Unbroken;
  }

  lemma RenderOk(g: Setting, s: Sys, s': Sys)
    requires Inv(g, s) && Next(g, s, Render, s')
    ensures Inv(g, s')
  {
    assert |s.full| == SCALARS && Increasing(s.full[0]);
    hide ServerOk, Holds, Behind, Tracked, Since, Merge, Anchored, Newest, Trailing, Complete, Unbroken;
    RenderedAnchors(s'.client, s.client.latest.value, s.full, s.held, s.seen);
  }

  lemma PollOk(g: Setting, s: Sys, s': Sys)
    requires Inv(g, s) && Next(g, s, Poll, s')
    ensures Inv(g, s')
  {
    hide ServerOk, Holds, Anchored, Trailing, Complete, Unbroken;
  }

  lemma StepOk(g: Setting, s: Sys, e: Event, s': Sys)
    requires Inv(g, s) && Next(g, s, e, s')
    ensures Inv(g, s')
  {
    match e
    case Tick(m) => TickOk(g, s, m, s');
    case Poll => PollOk(g, s, s');
    case Render => RenderOk(g, s, s');
    case Answer(ok) =>
      if ok && s.client.Resyncing() {
        ResyncOk(g, s, s');
      } else if ok && Merge(g.client, s.client.latest.value, Reply(s.server, s.client)).Some? {
        DeltaOk(g, s, s');
      } else {
        FailureOk(g, s, ok, s');
      }
  }

  ghost predicate IsRun(g: Setting, run: seq<Sys>, events: seq<Event>) {
    && |run| == |events| + 1 && Init(g, run[0])
    && forall i :: 0 <= i < |events| ==> Stepped(g, run[i], events[i], run[i + 1])
  }

  ghost predicate Stepped(g: Setting, s: Sys, e: Event, s': Sys) {
    s.server.Valid() && s.client.Valid() && |s.full| == SCALARS && Next(g, s, e, s')
  }

  lemma {:induction false} RunOk(g: Setting, run: seq<Sys>, events: seq<Event>)
    requires IsRun(g, run, events)
    ensures Inv(g, run[|events|])
  {
    hide Init, Inv, Next;
    if |events| == 0 {
      InitOk(g, run[0]);
    } else {
      var n := |events| - 1;
      RunOk(g, run[..n + 1], events[..n]);
      assert Stepped(g, run[n], events[n], run[n + 1]);
      StepOk(g, run[n], events[n], run[n + 1]);
    }
  }

  lemma RunExtends(g: Setting, run: seq<Sys>, events: seq<Event>, e: Event, s': Sys)
    requires IsRun(g, run, events) && Stepped(g, run[|events|], e, s')
    ensures IsRun(g, run + [s'], events + [e])
  {
    hide Init, Stepped;
  }

  lemma DeltaIsAnswer(c: ClientConfig, before: Client, delta: History, after: Client)
    requires before.Valid() && delta.Valid() && before.phase.AwaitingFirst? && before.phase.asked.Some?
    requires Merge(c, before.latest.value, delta).Some?
    requires Rendered(after, Merge(c, before.latest.value, delta).value)
    requires after.polls == before.polls + 1 && after.phase == Idle
    ensures Answered(c, before, Some(delta), after)
  {
    hide Merge, Rendered;
  }

  // What makes an answer append a delta.
  lemma DeltaIsStep(g: Setting, s: Sys, s': Sys, t: int, delta: History)
    requires s.server.Valid() && s.client.Valid() && |s.full| == SCALARS && |s.full[0]| > 0
    requires s.client.phase == AwaitingFirst(Some(t)) && delta == Since(s.server, Some(t))
    requires Merge(g.client, s.client.latest.value, delta).Some? && Answered(g.client, s.client, Some(delta), s'.client)
    requires s' == s.(client := s'.client, held := AfterDelta(g.client, s.full, s.held, s.seen, g.capacity),
                      seen := |s.full[0]|, whole := s.whole && First(|s.full[0]|, g.capacity) <= s.seen,
                      log := s.log + [DeltaAppended])
    ensures Stepped(g, s, Answer(true), s')
  {
    hide Merge, Answered, Since, AfterDelta;
  }
}
