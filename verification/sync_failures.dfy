/** What the dashboard asks for next: after a poll that failed or did not fit, and after any number of deltas. */
module SyncFailures {
  import opened Seqs
  import opened Dashboard
  import opened Polling
  import opened SyncRuns
  import opened SyncRestarts

  // The next answer that succeeds will be the whole window.
  ghost predicate StartsOver(c: Client) {
    if c.phase.Idle? then c.since.None? else c.Resyncing()
  }

  // The answer added nothing to what is held: the fetch failed, or the delta did not fit.
  ghost predicate Unsuccessful(ws: seq<World>, events: seq<WorldEvent>, i: nat) {
    i < |events| && i + 1 < |ws| && events[i].Proto? && events[i].e.Answer? && ws[i + 1].log == ws[i].log
  }

  lemma UnsuccessfulStep(g: Setting, w: World, ok: bool, w': World)
    requires WorldNext(g, w, Proto(Answer(ok)), w') && w'.log == w.log
    ensures StartsOver(w'.client)
    ensures !ok ==> w'.client.phase.Idle?
  {
    hide Merge, Tracked;
    if ok {
      assert |w.log + Ending(g, w, ok)| == |w.log| + |Ending(g, w, ok)|;
    }
  }

  lemma StartingOverStep(g: Setting, w: World, e: WorldEvent, w': World)
    requires WorldNext(g, w, e, w') && StartsOver(w.client)
    requires e == Proto(Render) ==> !w.client.phase.Idle?
    ensures w'.log == w.log + [Resynced] || (w'.log == w.log && StartsOver(w'.client))
  {
    hide Merge, Tracked, ServerFrom;
    assert w.log + [] == w.log;
  }

  // After a failed fetch or a delta that did not fit, the next entry in the log is a full window, however many more
  // polls fail before, as long as no redraw falls between two polls.
  lemma {:induction false} FailureRefetches(g: Setting, ws: seq<World>, events: seq<WorldEvent>, i: nat, n: nat)
    requires IsWorldRun(g, ws, events) && Unsuccessful(ws, events, i) && i < n <= |events|
    requires forall m :: i < m < n && events[m] == Proto(Render) ==> !ws[m].client.phase.Idle?
    ensures ws[i].log <= ws[n].log
    ensures if ws[n].log == ws[i].log then StartsOver(ws[n].client) else ws[n].log[|ws[i].log|].Resynced?
  {
    hide WorldNext, WorldInit;
    if n == i + 1 {
      UnsuccessfulStep(g, ws[i], events[i].e.ok, ws[i + 1]);
    } else {
      FailureRefetches(g, ws, events, i, n - 1);
      LogOnlyGrows(g, ws[n - 1], events[n - 1], ws[n]);
      if ws[n - 1].log == ws[i].log {
        StartingOverStep(g, ws[n - 1], events[n - 1], ws[n]);
      }
    }
  }

  // The same without restarts.
  lemma RunFailureRefetches(g: Setting, run: seq<Sys>, events: seq<Event>, i: nat, n: nat)
    requires IsRun(g, run, events) && i < n <= |events|
    requires events[i].Answer? && run[i + 1].log == run[i].log
    requires forall m :: i < m < n && events[m] == Render ==> !run[m].client.phase.Idle?
    ensures run[i].log <= run[n].log
    ensures if run[n].log == run[i].log then StartsOver(run[n].client) else run[n].log[|run[i].log|].Resynced?
  {
    RunIsWorldRun(g, run, events);
    hide IsRun, IsWorldRun, StartsOver;
    assert |run| == |events| + 1 by {
      RunLength(g, run, events);
    }
    FailureRefetches(g, Worlds(run), Protos(events), i, n);
  }

  lemma RunLength(g: Setting, run: seq<Sys>, events: seq<Event>)
    requires IsRun(g, run, events)
    ensures |run| == |events| + 1
  {
  }

  // ------------------------------------------------------------------------------------------
  // The next poll

  // What a poll asks for: what is newer than since, unless there is nothing to append to or the last ten successful
  // polls were all deltas.
  lemma PollAsks(g: Setting, ws: seq<World>, events: seq<WorldEvent>, j: nat)
    requires IsWorldRun(g, ws, events) && j < |events| && events[j] == Proto(Poll) && ws[j].client.phase.Idle?
    ensures var c := ws[j].client;
            ws[j + 1].client
            == c.(phase := AwaitingFirst(if c.since.Some? && c.latest.Some? && Trailing(ws[j].log) < 10
                                         then c.since else None))
  {
    WorldRunOk(g, ws[..j + 1], events[..j]);
    assert LogOk(ws[j].client, ws[j].log);
    assert WorldNext(g, ws[j], events[j], ws[j + 1]);
    hide IsWorldRun, WorldOk, Trailing;
  }

  // No poll and no answer among the events from a up to b.
  ghost predicate Between(events: seq<WorldEvent>, a: nat, b: nat) {
    b <= |events| && forall m :: a <= m < b ==> events[m] != Proto(Poll) && !(events[m].Proto? && events[m].e.Answer?)
  }

  ghost predicate Redrawn(events: seq<WorldEvent>, a: nat, b: nat) {
    exists m :: a <= m < b <= |events| && events[m] == Proto(Render)
  }

  lemma QuietStep(g: Setting, w: World, e: WorldEvent, w': World)
    requires WorldNext(g, w, e, w') && w.client.phase.Idle?
    requires e != Proto(Poll) && !(e.Proto? && e.e.Answer?)
    ensures w'.client.phase.Idle? && w'.client.latest == w.client.latest && w'.log == w.log
    ensures e != Proto(Render) ==> w'.client == w.client
    ensures e == Proto(Render) ==>
              && w.client.latest.Some? && w.client.latest.value.Valid()
              && (w'.client.since.None? <==> Tracked(w.client.latest.value) == {})
  {
    hide Tracked;
  }

  lemma {:induction false} SinceAfterFailure(g: Setting, ws: seq<World>, events: seq<WorldEvent>, i: nat, j: nat)
    requires IsWorldRun(g, ws, events) && i < j <= |events| && events[i] == Proto(Answer(false))
    requires Between(events, i + 1, j)
    ensures var c := ws[j].client;
            && c.phase.Idle? && ws[j].log == ws[i].log
            && (c.latest.Some? ==> c.latest.value.Valid())
            && (c.since.None? <==>
                !Redrawn(events, i + 1, j) || c.latest.None? || Tracked(c.latest.value) == {})
  {
    hide WorldNext, WorldInit, Tracked;
    if j == i + 1 {
      FailedStep(g, ws[i], ws[j]);
    } else {
      SinceAfterFailure(g, ws, events, i, j - 1);
      QuietStep(g, ws[j - 1], events[j - 1], ws[j]);
      assert Redrawn(events, i + 1, j) <==> Redrawn(events, i + 1, j - 1) || events[j - 1] == Proto(Render);
    }
  }

  lemma FailedStep(g: Setting, w: World, w': World)
    requires WorldNext(g, w, Proto(Answer(false)), w')
    ensures w'.client == w.client.(since := None, phase := Idle) && w'.log == w.log && w.client.Valid()
  {
  }

  // The first poll after a failed fetch asks for the whole window, so that a rejected since is not sent again, unless a
  // redraw in between has set it anew from what is held and no full window is due.
  lemma PollAfterFailure(g: Setting, ws: seq<World>, events: seq<WorldEvent>, i: nat, j: nat)
    requires IsWorldRun(g, ws, events) && i < j < |events| && events[i] == Proto(Answer(false))
    requires Between(events, i + 1, j) && events[j] == Proto(Poll)
    ensures var c := ws[j].client;
            && (c.latest.Some? ==> c.latest.value.Valid())
            && (ws[j + 1].client.Resyncing()
                <==> !Redrawn(events, i + 1, j) || c.latest.None? || Tracked(c.latest.value) == {}
                     || Trailing(ws[j].log) >= 10)
  {
    SinceAfterFailure(g, ws, events, i, j);
    PollAsks(g, ws, events, j);
    hide IsWorldRun, Tracked, Redrawn, Between, Trailing;
  }

  // Which does happen: any dashboard at rest that holds points and is due a delta asks for the same delta once more if
  // its theme is changed between the failure and the next poll.
  lemma RedrawUndoesFailure(g: Setting, ws: seq<World>, events: seq<WorldEvent>)
    returns (ws': seq<World>, events': seq<WorldEvent>)
    requires IsWorldRun(g, ws, events) && ws[|events|].client.phase.Idle? && Trailing(ws[|events|].log) < 10
    requires var l := ws[|events|].client.latest; l.Some? && l.value.Valid() && Tracked(l.value) != {}
    ensures events' == events + [Proto(Poll), Proto(Answer(false)), Proto(Render), Proto(Poll)]
    ensures IsWorldRun(g, ws', events')
    ensures var c := ws'[|events'|].client; c.phase.AwaitingFirst? && c.phase.asked.Some?
  {
    WorldRunOk(g, ws, events);
    var w := ws[|events|];
    assert w.server.Valid() && w.client.Valid() && LogOk(w.client, w.log);
    hide WorldInit, LogOk, ServerFrom, Tracked, Trailing, Merge;
    var l := w.client.latest.value;
    var p :| p in Tracked(l) && Ms(p) == Newest(Tracked(l));
    var w1 := w.(client := Asked(w.client));
    var w2 := w1.(client := w1.client.(since := None, phase := Idle));
    var w3 := w2.(client := w2.client.(since := Some(p.at)));
    var w4 := w3.(client := Asked(w3.client));
    assert w1.log + [] == w1.log;
    assert WorldNext(g, w, Proto(Poll), w1) && WorldNext(g, w1, Proto(Answer(false)), w2);
    assert WorldNext(g, w2, Proto(Render), w3) && WorldNext(g, w3, Proto(Poll), w4);
    hide WorldNext;
    WorldRunExtends(g, ws, events, Proto(Poll), w1);
    WorldRunExtends(g, ws + [w1], events + [Proto(Poll)], Proto(Answer(false)), w2);
    WorldRunExtends(g, ws + [w1] + [w2], events + [Proto(Poll)] + [Proto(Answer(false))], Proto(Render), w3);
    WorldRunExtends(g, ws + [w1] + [w2] + [w3], events + [Proto(Poll)] + [Proto(Answer(false))] + [Proto(Render)],
                    Proto(Poll), w4);
    ws' := ws + [w1] + [w2] + [w3] + [w4];
    events' := events + [Proto(Poll)] + [Proto(Answer(false))] + [Proto(Render)] + [Proto(Poll)];
  }

  lemma WorldRunExtends(g: Setting, ws: seq<World>, events: seq<WorldEvent>, e: WorldEvent, w': World)
    requires IsWorldRun(g, ws, events) && WorldNext(g, ws[|events|], e, w')
    ensures IsWorldRun(g, ws + [w'], events + [e])
  {
    hide WorldInit, WorldNext;
  }
}
