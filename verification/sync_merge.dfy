/** An accepted delta: which recorded points the dashboard holds after appending and trimming it. */
module SyncMerge {
  import opened Seqs
  import opened HistoryData
  import opened Trim
  import opened Picks
  import opened Dashboard
  import opened DashboardFacts
  import opened SyncServer
  import opened SyncClient

  // A dashboard holding prev asked for what is newer than t, and the answer from h passes the join test.
  ghost predicate Accepts(c: ClientConfig, prev: History, h: History, full: seq<Points>, held: set<nat>, seen: nat,
                          cap: nat, t: int): (r: bool)
    ensures r ==> h.Valid() && prev.Valid() && cap >= 1 && |full| == SCALARS && 0 < seen <= |full[0]|
  {
    && ServerOk(h, full, cap) && Holds(prev, full, held, seen) && Anchored(t, full, seen)
    && Joins(c, prev, Since(h, Some(t)))
  }

  // All indices held once the delta is appended, before trimming.
  ghost function Appending(held: set<nat>, seen: nat, n: nat, cap: nat): set<nat> {
    held + Range(JoinAt(seen, n, cap), n)
  }

  ghost function Window(c: ClientConfig, full: seq<Points>): HistoryPoint -> bool
    requires |full| == SCALARS && |full[0]| > 0
  {
    InWindow(c.windowMs, Ms(full[0][|full[0]| - 1]))
  }

  ghost function AfterDelta(c: ClientConfig, full: seq<Points>, held: set<nat>, seen: nat, cap: nat): set<nat>
    requires |full| == SCALARS && |full[0]| > 0
  {
    Keeping(full[0], Appending(held, seen, |full[0]|, cap), Window(c, full))
  }

  lemma AppendedScalar(c: ClientConfig, prev: History, h: History, full: seq<Points>, held: set<nat>, seen: nat,
                       cap: nat, t: int, k: nat)
    requires Accepts(c, prev, h, full, held, seen, cap, t) && k < SCALARS
    ensures Appended(prev, Since(h, Some(t))).scalar[k] == Pick(full[k], Appending(held, seen, |full[0]|, cap))
  {
    AcceptedDelta(c, prev, h, full, held, seen, cap, t, k);
    hide Joins, Since, Behind, ServerOk;
    PickAppend(full[k], held, JoinAt(seen, |full[0]|, cap));
  }

  lemma PartsUpTo(c: ClientConfig, prev: History, h: History, full: seq<Points>, held: set<nat>, seen: nat, cap: nat,
                  t: int)
    requires Accepts(c, prev, h, full, held, seen, cap, t)
    ensures HistoryUpTo(prev, full[0][|full[0]| - 1].at) && HistoryUpTo(h, full[0][|full[0]| - 1].at)
  {
    hide Joins, Since, Behind;
    HeldUpTo(prev, full, held, seen);
    assert full[0][seen - 1].at <= full[0][|full[0]| - 1].at;
    ServerUpTo(h, full, cap);
  }

  lemma NewestAppended(c: ClientConfig, prev: History, h: History, full: seq<Points>, held: set<nat>, seen: nat,
                       cap: nat, t: int)
    requires Accepts(c, prev, h, full, held, seen, cap, t)
    ensures |full[0]| - 1 in Appending(held, seen, |full[0]|, cap)
  {
    hide Joins, Behind, SameTimes, Pick;
  }

  lemma AppendedNewest(c: ClientConfig, prev: History, h: History, full: seq<Points>, held: set<nat>, seen: nat,
                       cap: nat, t: int)
    requires Accepts(c, prev, h, full, held, seen, cap, t)
    ensures var a, last := Appended(prev, Since(h, Some(t))), full[0][|full[0]| - 1];
            && |full[0]| - 1 in Appending(held, seen, |full[0]|, cap)
            && HistoryUpTo(a, last.at) && Tracked(a) != {} && Newest(Tracked(a)) == Ms(last)
  {
    hide Accepts, Joins, Since, Behind, Appended, HistoryUpTo, Tracked, Appending, ServerOk, Holds, Anchored;
    NewestAppended(c, prev, h, full, held, seen, cap, t);
    var delta, n := Since(h, Some(t)), |full[0]|;
    var last := full[0][n - 1];
    PartsUpTo(c, prev, h, full, held, seen, cap, t);
    SinceUpTo(h, t, last.at);
    AppendedUpTo(prev, delta, last.at);
    AppendedScalar(c, prev, h, full, held, seen, cap, t, 0);
    PickMember(full[0], Appending(held, seen, n, cap), last);
    NewestIs(Appended(prev, delta), 0, last);
  }

  lemma TrimmedPick(full: seq<Points>, c: ClientConfig, held: set<nat>, k: nat)
    requires |full| == SCALARS && k < SCALARS && SameTimes(full[k], full[0]) && |full[0]| > 0
    ensures Filter(Pick(full[k], held), Window(c, full)) == Pick(full[k], Keeping(full[0], held, Window(c, full)))
  {
    var keep := Window(c, full);
    PickFilter(full[k], held, keep);
    forall i: nat | i < |full[k]|
      ensures i in Keeping(full[k], held, keep) <==> i in Keeping(full[0], held, keep)
    {
      assert full[k][i].at == full[0][i].at;
    }
    PickSame(full[k], Keeping(full[k], held, keep), Keeping(full[0], held, keep));
  }

  lemma UpToBehind(h: History, full: seq<Points>, d: nat)
    requires h.Valid() && |full| == SCALARS && |full[0]| > 0 && HistoryUpTo(h, full[0][|full[0]| - 1].at)
             && d < TRACKED_DEVICES
    ensures Behind(h.device[d], full[0][..|full[0]|])
  {
    assert full[0][..|full[0]|] == full[0];
  }

  lemma MergedScalar(c: ClientConfig, prev: History, h: History, full: seq<Points>, held: set<nat>, seen: nat,
                     cap: nat, t: int, k: nat)
    requires Accepts(c, prev, h, full, held, seen, cap, t) && k < SCALARS
    ensures SameTimes(full[k], full[0])
    ensures TrimWindow(Appended(prev, Since(h, Some(t))), c.windowMs).scalar[k]
            == Pick(full[k], AfterDelta(c, full, held, seen, cap))
  {
    assert SameTimes(full[k], full[0]);
    hide Accepts, Since, Appended, HistoryUpTo, Tracked, TrimWindow, SameTimes, Appending, Pick, Filter, Keeping;
    AppendedNewest(c, prev, h, full, held, seen, cap, t);
    AppendedScalar(c, prev, h, full, held, seen, cap, t, k);
    TrimmedScalar(Appended(prev, Since(h, Some(t))), c.windowMs, k);
    TrimmedPick(full, c, Appending(held, seen, |full[0]|, cap), k);
  }

  lemma MergedDevice(c: ClientConfig, prev: History, h: History, full: seq<Points>, held: set<nat>, seen: nat,
                     cap: nat, t: int, d: nat)
    requires Accepts(c, prev, h, full, held, seen, cap, t) && d < TRACKED_DEVICES
    ensures Behind(TrimWindow(Appended(prev, Since(h, Some(t))), c.windowMs).device[d], full[0][..|full[0]|])
  {
    hide Accepts, Since, Appended, HistoryUpTo, Tracked, TrimWindow, Appending, Behind;
    AppendedNewest(c, prev, h, full, held, seen, cap, t);
    TrimUpTo(Appended(prev, Since(h, Some(t))), c.windowMs, full[0][|full[0]| - 1].at);
    UpToBehind(TrimWindow(Appended(prev, Since(h, Some(t))), c.windowMs), full, d);
  }

  lemma NewestStays(c: ClientConfig, full: seq<Points>, held: set<nat>, seen: nat, cap: nat)
    requires |full| == SCALARS && |full[0]| > 0 && |full[0]| - 1 in Appending(held, seen, |full[0]|, cap)
    ensures |full[0]| - 1 in AfterDelta(c, full, held, seen, cap)
    ensures forall i :: i in AfterDelta(c, full, held, seen, cap) ==> i < |full[0]|
  {
  }

  // After an accepted delta the dashboard holds what it held and what the server retains of the rest, within the
  // window.
  lemma MergeHolds(c: ClientConfig, prev: History, h: History, full: seq<Points>, held: set<nat>, seen: nat, cap: nat,
                   t: int)
    requires Accepts(c, prev, h, full, held, seen, cap, t)
    ensures Holds(TrimWindow(Appended(prev, Since(h, Some(t))), c.windowMs), full,
                  AfterDelta(c, full, held, seen, cap), |full[0]|)
  {
    hide Accepts, Since, Appended, Tracked, HistoryUpTo, TrimWindow, SameTimes, Appending, AfterDelta, Behind, Pick;
    AppendedNewest(c, prev, h, full, held, seen, cap, t);
    NewestStays(c, full, held, seen, cap);
    forall k | 0 <= k < SCALARS
      ensures SameTimes(full[k], full[0])
      ensures TrimWindow(Appended(prev, Since(h, Some(t))), c.windowMs).scalar[k]
              == Pick(full[k], AfterDelta(c, full, held, seen, cap))
    {
      MergedScalar(c, prev, h, full, held, seen, cap, t, k);
    }
    forall d | 0 <= d < TRACKED_DEVICES
      ensures Behind(TrimWindow(Appended(prev, Since(h, Some(t))), c.windowMs).device[d], full[0][..|full[0]|])
    {
      MergedDevice(c, prev, h, full, held, seen, cap, t, d);
    }
  }
}
