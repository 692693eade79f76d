/** The dashboard half of the incremental history protocol: what it holds of the points ever recorded. */
module SyncClient {
  import opened Seqs
  import opened HistoryData
  import opened Trim
  import opened Picks
  import opened Dashboard
  import opened DashboardFacts
  import opened Polling
  import opened SyncServer

  // Of the scalar points ever recorded the dashboard holds those at the indices in held, all below seen, the newest of
  // them included, and no device point newer than that.
  ghost predicate Holds(latest: History, full: seq<Points>, held: set<nat>, seen: nat) {
    && latest.Valid() && |full| == SCALARS
    && seen <= |full[0]| && (forall i :: i in held ==> i < seen) && (seen > 0 ==> seen - 1 in held)
    && (forall k :: 0 <= k < SCALARS ==> SameTimes(full[k], full[0]) && latest.scalar[k] == Pick(full[k], held))
    && (forall d :: 0 <= d < TRACKED_DEVICES ==> Behind(latest.device[d], full[0][..seen]))
  }

  // The newest point held, to the millisecond, and not later than it.
  ghost predicate Anchored(t: int, full: seq<Points>, seen: nat) {
    && |full| == SCALARS && 0 < seen <= |full[0]|
    && t <= full[0][seen - 1].at && UnixMilli(t) == Ms(full[0][seen - 1])
  }

  lemma MsLater(p: HistoryPoint, q: HistoryPoint)
    ensures Ms(p) > Ms(q) ==> p.at > q.at
  {
  }

  lemma HeldUpTo(latest: History, full: seq<Points>, held: set<nat>, seen: nat)
    requires Holds(latest, full, held, seen) && seen > 0 && Increasing(full[0])
    ensures HistoryUpTo(latest, full[0][seen - 1].at)
  {
    var t := full[0][seen - 1].at;
    forall k | 0 <= k < SCALARS
      ensures UpTo(latest.scalar[k], t)
    {
      assert SameTimes(full[k], full[0]) && latest.scalar[k] == Pick(full[k], held);
      forall p | p in latest.scalar[k]
        ensures p.at <= t
      {
        PickMember(full[k], held, p);
      }
    }
    forall d | 0 <= d < TRACKED_DEVICES
      ensures MapUpTo(latest.device[d], t)
    {
      assert Behind(latest.device[d], full[0][..seen]);
    }
  }

  lemma HeldNewest(latest: History, full: seq<Points>, held: set<nat>, seen: nat)
    requires Holds(latest, full, held, seen) && seen > 0 && Increasing(full[0])
    ensures HistoryUpTo(latest, full[0][seen - 1].at)
    ensures Tracked(latest) != {} && Newest(Tracked(latest)) == Ms(full[0][seen - 1])
  {
    hide Tracked, HistoryUpTo, Behind;
    HeldUpTo(latest, full, held, seen);
    PickMember(full[0], held, full[0][seen - 1]);
    NewestIs(latest, 0, full[0][seen - 1]);
  }

  lemma {:induction false} NoScalarPoints(scalar: seq<Points>)
    requires forall k :: 0 <= k < |scalar| ==> scalar[k] == []
    ensures ScalarPoints(scalar) == {}
  {
    if |scalar| == 0 {
    } else {
      NoScalarPoints(scalar[..|scalar| - 1]);
    }
  }

  lemma {:induction false} NoDevicePoints(device: seq<map<Key, Points>>)
    requires forall d, k :: 0 <= d < |device| && k in device[d] ==> device[d][k] == []
    ensures DevicePoints(device) == {}
  {
    if |device| == 0 {
    } else {
      NoDevicePoints(device[..|device| - 1]);
    }
  }

  lemma HeldNothing(latest: History, full: seq<Points>, held: set<nat>)
    requires Holds(latest, full, held, 0)
    ensures Tracked(latest) == {}
  {
    assert full[0][..0] == [];
    forall k | 0 <= k < SCALARS
      ensures latest.scalar[k] == []
    {
      assert held == {};
      PickNothing(full[k]);
    }
    NoScalarPoints(latest.scalar);
    forall d, k | 0 <= d < TRACKED_DEVICES && k in latest.device[..TRACKED_DEVICES][d]
      ensures latest.device[..TRACKED_DEVICES][d][k] == []
    {
      assert Behind(latest.device[d], []);
    }
    NoDevicePoints(latest.device[..TRACKED_DEVICES]);
  }

  // Whatever newest point the dashboard picks for the next request is anchored.
  lemma RenderedAnchors(c: Client, latest: History, full: seq<Points>, held: set<nat>, seen: nat)
    requires Holds(latest, full, held, seen) && Increasing(full[0]) && Rendered(c, latest)
    ensures c.since.Some? <==> seen > 0
    ensures c.since.Some? ==> Anchored(c.since.value, full, seen)
  {
    assert |full| == SCALARS && seen <= |full[0]|;
    hide Holds, Tracked, HistoryUpTo;
    if seen == 0 {
      HeldNothing(latest, full, held);
    } else {
      HeldNewest(latest, full, held, seen);
      var p :| p in Tracked(latest) && Ms(p) == Newest(Tracked(latest)) && c.since == Some(p.at);
      TrackedUpTo(latest, full[0][seen - 1].at, p);
    }
  }

  // The full window is everything retained.
  lemma FullWindowHolds(h: History, full: seq<Points>, cap: nat)
    requires ServerOk(h, full, cap)
    ensures Holds(h, full, Range(First(|full[0]|, cap), |full[0]|), |full[0]|)
  {
    hide Behind;
    var n := |full[0]|;
    forall k | 0 <= k < SCALARS
      ensures h.scalar[k] == Pick(full[k], Range(First(n, cap), n))
    {
      assert SameTimes(full[k], full[0]) && h.scalar[k] == LastN(full[k], cap);
      PickRange(full[k], First(n, cap));
    }
    assert full[0][..n] == full[0];
  }

  lemma SinceUpTo(h: History, t: int, last: int)
    requires h.Valid() && HistoryUpTo(h, last)
    ensures HistoryUpTo(Since(h, Some(t)), last)
  {
    forall k | 0 <= k < SCALARS
      ensures UpTo(Since(h, Some(t)).scalar[k], last)
    {
      assert UpTo(h.scalar[k], last);
    }
    forall d | 0 <= d < TRACKED_DEVICES
      ensures MapUpTo(SuffixMap(h.device[d], After(t)), last)
    {
      assert MapUpTo(h.device[d], last);
      forall k | k in SuffixMap(h.device[d], After(t))
        ensures UpTo(Suffix(h.device[d][k], After(t)), last)
      {
        assert UpTo(h.device[d][k], last);
      }
    }
  }

  lemma ServerUpTo(h: History, full: seq<Points>, cap: nat)
    requires ServerOk(h, full, cap) && |full[0]| > 0
    ensures HistoryUpTo(h, full[0][|full[0]| - 1].at)
  {
    FullWindowHolds(h, full, cap);
    HeldUpTo(h, full, Range(First(|full[0]|, cap), |full[0]|), |full[0]|);
  }

  // The first index a delta accepted by a dashboard that has seen the first `seen` points starts from.
  function JoinAt(seen: nat, n: nat, cap: nat): nat {
    if First(n, cap) > seen then First(n, cap) else seen
  }

  // The merge's join test rejects any delta that repeats a point, so an accepted one is exactly what the server retains
  // of the points the dashboard has not seen.
  lemma AcceptedDelta(c: ClientConfig, prev: History, h: History, full: seq<Points>, held: set<nat>, seen: nat,
                      cap: nat, t: int, k: nat)
    requires ServerOk(h, full, cap) && Holds(prev, full, held, seen) && Anchored(t, full, seen) && k < SCALARS
    requires Joins(c, prev, Since(h, Some(t)))
    ensures |full[k]| == |full[0]| && JoinAt(seen, |full[0]|, cap) <= |full[0]|
    ensures Since(h, Some(t)).scalar[k] == full[k][JoinAt(seen, |full[0]|, cap)..]
  {
    hide Tracked, Behind, HistoryUpTo, Since, Suffix;
    HeldNewest(prev, full, held, seen);
    var delta := Since(h, Some(t));
    var j := DeltaScalar(h, full, cap, t, k);
    assert SameTimes(full[k], full[0]);
    if j < |full[0]| {
      assert full[k][j] == full[k][j..][0];
      ScalarTracked(delta, k, full[k][j]);
      MsLater(full[k][j], full[0][seen - 1]);
    }
    var a := JoinAt(seen, |full[0]|, cap);
    assert a < |full[0]| ==> full[0][a].at > full[0][seen - 1].at >= t;
  }
}
