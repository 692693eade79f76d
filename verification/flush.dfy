/** Asynchronous flushes of the history behind a try-lock, and the final one when the collector stops. */
module Flush {
  import opened Seqs

  // A writer goroutine: writing, written (or failed) with the lock still held, lock released, counted out of the wait
  // group.
  datatype Stage = Writing | Written | Released | Finished

  // snapshot is the number of fast ticks whose points it writes, good whether its write has succeeded.
  datatype Writer = Writer(snapshot: nat, stage: Stage, good: bool)

  datatype Phase = Running | Waiting | Returned

  /**
   * token: the try-lock is taken; waiting: the wait group's count; installed: the writers whose file was renamed into
   * place, oldest first. History variables: whether the try-lock was taken and how many flushes there had been when the
   * loop ended (busy, flushed).
   */
  datatype Sys = Sys(enabled: bool, phase: Phase, ticks: nat, token: bool, waiting: nat, writers: seq<Writer>,
                     installed: seq<nat>, busy: bool, flushed: nat)

  // Flush is the one after a slow tick; Stop is the cancelled context, with its own flush.
  datatype Event = Tick | Flush | Stop | Write(i: nat, ok: bool) | Release(i: nat) | Done(i: nat) | Return

  function Start(enabled: bool): Sys {
    Sys(enabled, Running, 0, false, 0, [], [], false, 0)
  }

  function Persist(s: Sys): Sys {
    if !s.enabled || s.token then s
    else s.(token := true, waiting := s.waiting + 1, writers := s.writers + [Writer(s.ticks, Writing, false)])
  }

  predicate At(s: Sys, i: nat, stage: Stage) {
    i < |s.writers| && s.writers[i].stage == stage
  }

  function Advance(s: Sys, i: nat, w: Writer): Sys
    requires i < |s.writers|
  {
    s.(writers := s.writers[i := w])
  }

  // An event that is not possible in a state leaves it as it is.
  function Apply(s: Sys, e: Event): Sys {
    match e
    case Tick => if s.phase.Running? then s.(ticks := s.ticks + 1) else s
    case Flush => if s.phase.Running? then Persist(s) else s
    case Stop => if s.phase.Running? then Persist(s).(phase := Waiting, busy := s.token, flushed := |s.writers|) else s
    case Write(i, ok) =>
      if At(s, i, Writing) then
        Advance(s, i, s.writers[i].(stage := Written, good := ok))
          .(installed := if ok then s.installed + [i] else s.installed)
      else s
    case Release(i) => if At(s, i, Written) then Advance(s, i, s.writers[i].(stage := Released)).(token := false) else s
    case Done(i) => 
      if At(s, i, Released) && s.waiting > 0 then
        Advance(s, i, s.writers[i].(stage := Finished)).(waiting := s.waiting - 1)
      else s
    case Return => if s.phase.Waiting? && s.waiting == 0 then s.(phase := Returned) else s
  }

  function Run(enabled: bool, events: seq<Event>): Sys {
    if |events| == 0 then Start(enabled) else Apply(Run(enabled, events[..|events| - 1]), events[|events| - 1])
  }

  // ------------------------------------------------------------------------------------------
  // The invariant

  function Unfinished(ws: seq<Writer>): nat {
    if |ws| == 0 then 0 else Unfinished(ws[..|ws| - 1]) + if ws[|ws| - 1].stage == Finished then 0 else 1
  }

  predicate Holding(w: Writer) {
    w.stage == Writing || w.stage == Written
  }

  // Only the newest writer can hold the lock.
  ghost predicate WritersOk(ws: seq<Writer>, token: bool, ticks: nat) {
    && (forall i :: 0 <= i < |ws| - 1 ==> !Holding(ws[i]))
    && (token <==> |ws| > 0 && Holding(ws[|ws| - 1]))
    && (forall i, j :: 0 <= i <= j < |ws| ==> ws[i].snapshot <= ws[j].snapshot <= ticks)
  }

  // The writers whose write succeeded, in the order their snapshots were taken.
  function Goods(ws: seq<Writer>): seq<nat> {
    if |ws| == 0 then [] else Goods(ws[..|ws| - 1]) + if ws[|ws| - 1].good then [|ws| - 1] else []
  }

  ghost predicate InstalledOk(ws: seq<Writer>, installed: seq<nat>) {
    installed == Goods(ws) && forall i :: 0 <= i < |ws| && ws[i].good ==> ws[i].stage != Writing
  }

  // The flush at the end is skipped exactly when one was in flight.
  ghost predicate ExitOk(s: Sys) {
    s.phase != Running && s.enabled ==>
      && (s.busy ==> |s.writers| == s.flushed > 0)
      && (!s.busy ==> |s.writers| == s.flushed + 1 && s.writers[s.flushed].snapshot == s.ticks)
  }

  ghost predicate Inv(s: Sys) {
    && WritersOk(s.writers, s.token, s.ticks) && InstalledOk(s.writers, s.installed)
    && s.waiting == Unfinished(s.writers)
    && (!s.enabled ==> s.writers == []) && (s.phase.Returned? ==> s.waiting == 0) && ExitOk(s)
  }

  lemma {:induction false} UnfinishedUpdate(ws: seq<Writer>, i: nat, w: Writer)
    requires i < |ws|
    ensures Unfinished(ws[i := w])
         == Unfinished(ws) - (if ws[i].stage == Finished then 0 else 1) + if w.stage == Finished then 0 else 1
  {
    var init := ws[..|ws| - 1];
    if i == |ws| - 1 {
      assert ws[i := w][..|ws| - 1] == init;
    } else {
      UnfinishedUpdate(init, i, w);
      assert ws[i := w][..|ws| - 1] == init[i := w];
    }
  }

  lemma {:induction false} GoodsUpdate(ws: seq<Writer>, i: nat, w: Writer)
    requires i < |ws| && ws[i].good == w.good
    ensures Goods(ws[i := w]) == Goods(ws)
  {
    var init := ws[..|ws| - 1];
    if i == |ws| - 1 {
      assert ws[i := w][..|ws| - 1] == init;
    } else {
      GoodsUpdate(init, i, w);
      assert ws[i := w][..|ws| - 1] == init[i := w];
    }
  }

  lemma TakeWriter(ws: seq<Writer>, ticks: nat, installed: seq<nat>)
    requires WritersOk(ws, false, ticks) && InstalledOk(ws, installed)
    ensures WritersOk(ws + [Writer(ticks, Writing, false)], true, ticks)
    ensures InstalledOk(ws + [Writer(ticks, Writing, false)], installed)
    ensures Unfinished(ws + [Writer(ticks, Writing, false)]) == Unfinished(ws) + 1
  {
    TakenCounts(ws, Writer(ticks, Writing, false));
    hide Goods, Unfinished;
  }

  // A writer that has just started is unfinished and has no success yet.
  lemma TakenCounts(ws: seq<Writer>, w: Writer)
    requires w.stage == Writing && !w.good
    ensures Unfinished(ws + [w]) == Unfinished(ws) + 1 && Goods(ws + [w]) == Goods(ws)
  {
    assert (ws + [w])[..|ws|] == ws;
  }

  lemma PersistOk(s: Sys)
    requires Inv(s) && s.phase.Running?
    ensures Inv(Persist(s))
  {
    hide WritersOk, InstalledOk, Unfinished;
    if s.enabled && !s.token {
      TakeWriter(s.writers, s.ticks, s.installed);
    }
  }

  lemma StopOk(s: Sys)
    requires Inv(s) && s.phase.Running?
    ensures Inv(Apply(s, Stop))
  {
    assert s.token ==> |s.writers| > 0;
    hide WritersOk, InstalledOk, Unfinished;
    PersistOk(s);
  }

  lemma WriteInstalled(ws: seq<Writer>, installed: seq<nat>, ok: bool)
    requires InstalledOk(ws, installed) && |ws| > 0 && ws[|ws| - 1].stage == Writing
    ensures var i := |ws| - 1;
            InstalledOk(ws[i := ws[i].(stage := Written, good := ok)], if ok then installed + [i] else installed)
  {
    var i := |ws| - 1;
    assert ws[i := ws[i].(stage := Written, good := ok)][..i] == ws[..i];
  }

  // Moving a writer on without changing whether its write succeeded.
  lemma MoveOn(s: Sys, i: nat, stage: Stage)
    requires i < |s.writers| && InstalledOk(s.writers, s.installed) && stage != Writing
    ensures var ws := s.writers[i := s.writers[i].(stage := stage)];
            && InstalledOk(ws, s.installed)
            && Unfinished(ws) == Unfinished(s.writers) - (if s.writers[i].stage == Finished then 0 else 1)
                                 + if stage == Finished then 0 else 1
  {
    UnfinishedUpdate(s.writers, i, s.writers[i].(stage := stage));
    GoodsUpdate(s.writers, i, s.writers[i].(stage := stage));
  }

  lemma WriteWriters(ws: seq<Writer>, token: bool, ticks: nat, ok: bool)
    requires WritersOk(ws, token, ticks) && |ws| > 0 && ws[|ws| - 1].stage == Writing
    ensures WritersOk(ws[|ws| - 1 := ws[|ws| - 1].(stage := Written, good := ok)], token, ticks)
  {
  }

  lemma WriteOk(s: Sys, i: nat, ok: bool)
    requires Inv(s)
    ensures Inv(Apply(s, Write(i, ok)))
  {
    assert At(s, i, Writing) ==> i == |s.writers| - 1;
    hide InstalledOk, WritersOk, Unfinished;
    if At(s, i, Writing) {
      UnfinishedUpdate(s.writers, i, s.writers[i].(stage := Written, good := ok));
      WriteWriters(s.writers, s.token, s.ticks, ok);
      WriteInstalled(s.writers, s.installed, ok);
    }
  }

  lemma ReleaseOk(s: Sys, i: nat)
    requires Inv(s)
    ensures Inv(Apply(s, Release(i)))
  {
    hide Unfinished, InstalledOk;
    if At(s, i, Written) {
      MoveOn(s, i, Released);
    }
  }

  lemma DoneOk(s: Sys, i: nat)
    requires Inv(s)
    ensures Inv(Apply(s, Done(i)))
  {
    hide Unfinished, InstalledOk;
    if At(s, i, Released) {
      MoveOn(s, i, Finished);
    }
  }

  lemma StepOk(s: Sys, e: Event)
    requires Inv(s)
    ensures Inv(Apply(s, e)) && Apply(s, e).enabled == s.enabled
  {
    match e
    case Tick =>
    case Flush => if s.phase.Running? { PersistOk(s); }
    case Stop => if s.phase.Running? { StopOk(s); }
    case Write(i, ok) => WriteOk(s, i, ok);
    case Release(i) => ReleaseOk(s, i);
    case Done(i) => DoneOk(s, i);
    case Return =>
  }

  lemma {:induction false} RunOk(enabled: bool, events: seq<Event>)
    ensures Inv(Run(enabled, events)) && Run(enabled, events).enabled == enabled
  {
    if |events| == 0 {
    } else {
      RunOk(enabled, events[..|events| - 1]);
      hide Inv, Apply;
      StepOk(Run(enabled, events[..|events| - 1]), events[|events| - 1]);
    }
  }

  // ------------------------------------------------------------------------------------------
  // What holds of every interleaving

  lemma {:induction false} GoodsIncreasing(ws: seq<Writer>)
    ensures forall k :: 0 <= k < |Goods(ws)| ==> Goods(ws)[k] < |ws| && ws[Goods(ws)[k]].good
    ensures forall j, k :: 0 <= j < k < |Goods(ws)| ==> Goods(ws)[j] < Goods(ws)[k]
  {
    if |ws| == 0 {
    } else {
      GoodsIncreasing(ws[..|ws| - 1]);
    }
  }

  // At most one write is in progress, and snapshots reach the file in the order they were taken.
  lemma WritesAreExclusiveAndOrdered(enabled: bool, events: seq<Event>)
    ensures var s := Run(enabled, events);
            && (forall i: nat, j: nat :: At(s, i, Writing) && At(s, j, Writing) ==> i == j)
            && (forall k :: 0 <= k < |s.installed| ==> s.installed[k] < |s.writers| && s.writers[s.installed[k]].good)
            && (forall j, k :: 0 <= j < k < |s.installed| ==>
                  s.installed[j] < s.installed[k]
                      && s.writers[s.installed[j]].snapshot <= s.writers[s.installed[k]].snapshot)
  {
    RunOk(enabled, events);
    GoodsIncreasing(Run(enabled, events).writers);
    hide Goods, Run;
  }

  lemma {:induction false} AllFinished(ws: seq<Writer>)
    requires Unfinished(ws) == 0
    ensures forall i :: 0 <= i < |ws| ==> ws[i].stage == Finished
  {
    if |ws| == 0 {
    } else {
      AllFinished(ws[..|ws| - 1]);
    }
  }

  // The number of fast ticks the file reflects, by the last write that was installed.
  function InFile(s: Sys): Option<nat> {
    if |s.installed| > 0 && s.installed[|s.installed| - 1] < |s.writers|
    then Some(s.writers[s.installed[|s.installed| - 1]].snapshot) else None
  }

  // The snapshot of the last writer whose write succeeded.
  function LastGood(ws: seq<Writer>): Option<nat> {
    if |ws| == 0 then None else if ws[|ws| - 1].good then Some(ws[|ws| - 1].snapshot) else LastGood(ws[..|ws| - 1])
  }

  lemma {:induction false} GoodsLast(ws: seq<Writer>)
    ensures var g := Goods(ws);
            LastGood(ws) == if |g| > 0 && g[|g| - 1] < |ws| then Some(ws[g[|g| - 1]].snapshot) else None
    ensures forall k :: 0 <= k < |Goods(ws)| ==> Goods(ws)[k] < |ws|
  {
    if |ws| == 0 {
    } else {
      GoodsLast(ws[..|ws| - 1]);
    }
  }

  // Whatever fails and whatever is in flight, the file holds the last snapshot whose write succeeded.
  lemma FileIsLastGood(enabled: bool, events: seq<Event>)
    ensures InFile(Run(enabled, events)) == LastGood(Run(enabled, events).writers)
  {
    RunOk(enabled, events);
    hide Run;
    GoodsLast(Run(enabled, events).writers);
  }

  // When Run has returned nothing is being written, and the file holds the last snapshot taken if that write succeeded.
  // It then has every tick in it if and only if no flush was in flight when the loop ended, or none had been recorded
  // since the flush that was.
  lemma FileAfterReturn(events: seq<Event>)
    requires Run(true, events).phase.Returned?
    ensures var s := Run(true, events);
            && (forall i :: 0 <= i < |s.writers| ==> s.writers[i].stage == Finished)
            && |s.writers| > 0 && (|s.writers| > s.flushed <==> !s.busy)
    ensures var s := Run(true, events);
            s.writers[|s.writers| - 1].good ==>
              && InFile(s) == Some(s.writers[|s.writers| - 1].snapshot)
              && (InFile(s) == Some(s.ticks)
                  <==> !s.busy || (0 < s.flushed <= |s.writers| && s.writers[s.flushed - 1].snapshot == s.ticks))
  {
    RunOk(true, events);
    FileIsLastGood(true, events);
    hide Run, InFile;
    AllFinished(Run(true, events).writers);
  }

  // ------------------------------------------------------------------------------------------
  // A shutdown during a flush

  function Ticks(n: nat): seq<Event> {
    seq(n, i => Tick)
  }

  lemma RunSnoc(events: seq<Event>, e: Event)
    ensures Run(true, events + [e]) == Apply(Run(true, events), e)
  {
    assert (events + [e])[..|events|] == events;
  }

  lemma {:induction false} RunTicks(events: seq<Event>, n: nat)
    requires Run(true, events).phase.Running?
    ensures Run(true, events + Ticks(n)) == Run(true, events).(ticks := Run(true, events).ticks + n)
  {
    if n == 0 {
      assert events + Ticks(0) == events;
    } else {
      RunTicks(events, n - 1);
      assert events + Ticks(n) == (events + Ticks(n - 1)) + [Tick];
      RunSnoc(events + Ticks(n - 1), Tick);
    }
  }

  // A flush whose write has not ended when n more ticks have been recorded.
  lemma InFlight(n: nat)
    ensures Run(true, [Flush] + Ticks(n)) == Sys(true, Running, n, true, 1, [Writer(0, Writing, false)], [], false, 0)
  {
    RunSnoc([], Flush);
    assert [] + [Flush] == [Flush];
    RunTicks([Flush], n);
  }

  // The shutdown from there on, the flush in flight taking its steps after the loop has ended.
  lemma ShutDown(s: Sys, n: nat)
    requires s == Sys(true, Running, n, true, 1, [Writer(0, Writing, false)], [], false, 0)
    ensures var s' := Apply(Apply(Apply(s, Stop), Write(0, true)), Release(0));
            Apply(Apply(s', Done(0)), Return)
            == Sys(true, Returned, n, false, 0, [Writer(0, Finished, true)], [0], true, 1)
  {
  }

  // However many ticks a flush in flight has missed, a shutdown meanwhile loses them all though every write succeeds.
  lemma ShutdownCanLoseAnyNumberOfTicks(n: nat)
    ensures exists events :: Loses(events, n)
  {
    var e2 := [Flush] + Ticks(n);
    var e3 := e2 + [Stop];
    var e4 := e3 + [Write(0, true)];
    var e5 := e4 + [Release(0)];
    var e6 := e5 + [Done(0)];
    InFlight(n);
    ShutDown(Run(true, e2), n);
    hide Run, Apply;
    RunSnoc(e2, Stop);
    RunSnoc(e3, Write(0, true));
    RunSnoc(e4, Release(0));
    RunSnoc(e5, Done(0));
    RunSnoc(e6, Return);
    assert Loses(e6 + [Return], n);
  }

  ghost predicate Loses(events: seq<Event>, n: nat) {
    var s := Run(true, events);
    && s.phase.Returned? && (forall i :: 0 <= i < |s.writers| ==> s.writers[i].good)
    && InFile(s).Some? && s.ticks - InFile(s).value == n
  }
}
