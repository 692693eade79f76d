/** What the dashboard's bounds and trimming say about the points of a history. */
module DashboardFacts {
  import opened Seqs
  import opened HistoryData
  import opened Dashboard

  ghost predicate UpTo(ps: Points, t: int) {
    forall p :: p in ps ==> p.at <= t
  }

  ghost predicate MapUpTo(m: map<Key, Points>, t: int) {
    forall k :: k in m ==> UpTo(m[k], t)
  }

  ghost predicate HistoryUpTo(h: History, t: int)
    requires h.Valid()
  {
    && (forall k :: 0 <= k < SCALARS ==> UpTo(h.scalar[k], t))
    && (forall d :: 0 <= d < TRACKED_DEVICES ==> MapUpTo(h.device[d], t))
  }

  lemma {:induction false} InScalarPoints(scalar: seq<Points>, k: nat, p: HistoryPoint)
    requires k < |scalar| && p in scalar[k]
    ensures p in ScalarPoints(scalar)
  {
    if k == |scalar| - 1 {
    } else {
      InScalarPoints(scalar[..|scalar| - 1], k, p);
    }
  }

  lemma ScalarTracked(h: History, k: nat, p: HistoryPoint)
    requires h.Valid() && k < SCALARS && p in h.scalar[k]
    ensures p in Tracked(h)
  {
    InScalarPoints(h.scalar, k, p);
  }

  lemma {:induction false} InDevicePoints(device: seq<map<Key, Points>>, d: nat, k: Key, p: HistoryPoint)
    requires d < |device| && k in device[d] && p in device[d][k]
    ensures p in DevicePoints(device)
  {
    if d == |device| - 1 {
    } else {
      InDevicePoints(device[..|device| - 1], d, k, p);
    }
  }

  lemma DeviceTracked(h: History, d: nat, k: Key, p: HistoryPoint)
    requires h.Valid() && d < TRACKED_DEVICES && k in h.device[d] && p in h.device[d][k]
    ensures p in Tracked(h)
  {
    InDevicePoints(h.device[..TRACKED_DEVICES], d, k, p);
  }

  lemma {:induction false} ScalarPointsUpTo(scalar: seq<Points>, t: int, p: HistoryPoint)
    requires forall k :: 0 <= k < |scalar| ==> UpTo(scalar[k], t)
    requires p in ScalarPoints(scalar)
    ensures p.at <= t
  {
    if p in ScalarPoints(scalar[..|scalar| - 1]) {
      ScalarPointsUpTo(scalar[..|scalar| - 1], t, p);
    } else {
      assert UpTo(scalar[|scalar| - 1], t);
    }
  }

  lemma {:induction false} DevicePointsUpTo(device: seq<map<Key, Points>>, t: int, p: HistoryPoint)
    requires forall d :: 0 <= d < |device| ==> MapUpTo(device[d], t)
    requires p in DevicePoints(device)
    ensures p.at <= t
  {
    if p in DevicePoints(device[..|device| - 1]) {
      DevicePointsUpTo(device[..|device| - 1], t, p);
    } else {
      var m := device[|device| - 1];
      assert MapUpTo(m, t);
      var k :| k in m && p in m[k];
      assert UpTo(m[k], t);
    }
  }

  lemma TrackedUpTo(h: History, t: int, p: HistoryPoint)
    requires h.Valid() && HistoryUpTo(h, t) && p in Tracked(h)
    ensures p.at <= t
  {
    if p in ScalarPoints(h.scalar) {
      ScalarPointsUpTo(h.scalar, t, p);
    } else {
      DevicePointsUpTo(h.device[..TRACKED_DEVICES], t, p);
    }
  }

  // A tracked point that nothing tracked is later than sets the newest millisecond.
  lemma NewestIs(h: History, k: nat, p: HistoryPoint)
    requires h.Valid() && k < SCALARS && p in h.scalar[k] && HistoryUpTo(h, p.at)
    ensures Tracked(h) != {} && Newest(Tracked(h)) == Ms(p)
  {
    ScalarTracked(h, k, p);
    hide Tracked, HistoryUpTo;
    var q :| q in Tracked(h) && Ms(q) == Newest(Tracked(h));
    TrackedUpTo(h, p.at, q);
    assert Ms(q) <= Ms(p);
  }

  lemma AppendedUpTo(prev: History, delta: History, t: int)
    requires prev.Valid() && delta.Valid() && HistoryUpTo(prev, t) && HistoryUpTo(delta, t)
    ensures HistoryUpTo(Appended(prev, delta), t)
  {
    var h := Appended(prev, delta);
    forall k | 0 <= k < SCALARS
      ensures UpTo(h.scalar[k], t)
    {
      assert UpTo(prev.scalar[k], t) && UpTo(delta.scalar[k], t);
    }
    forall d | 0 <= d < TRACKED_DEVICES
      ensures MapUpTo(h.device[d], t)
    {
      MergedMapUpTo(prev.device[d], delta.device[d], t);
    }
  }

  lemma MergedMapUpTo(prev: map<Key, Points>, delta: map<Key, Points>, t: int)
    requires MapUpTo(prev, t) && MapUpTo(delta, t)
    ensures MapUpTo(MergedMap(prev, delta), t)
  {
    forall k | k in MergedMap(prev, delta)
      ensures UpTo(MergedMap(prev, delta)[k], t)
    {
      assert (k in prev ==> UpTo(prev[k], t)) && (k in delta ==> UpTo(delta[k], t));
    }
  }

  lemma FilterUpTo(ps: Points, keep: HistoryPoint -> bool, t: int)
    requires UpTo(ps, t)
    ensures UpTo(Filter(ps, keep), t)
  {
    forall p | p in Filter(ps, keep)
      ensures p.at <= t
    {
      FilterIn(ps, keep, p);
    }
  }

  lemma TrimmedMapUpTo(m: map<Key, Points>, cutoff: int, t: int)
    requires MapUpTo(m, t)
    ensures MapUpTo(TrimmedMap(m, cutoff), t)
  {
    forall k | k in TrimmedMap(m, cutoff)
      ensures UpTo(TrimmedMap(m, cutoff)[k], t)
    {
      FilterUpTo(m[k], Within(cutoff), t);
    }
  }

  lemma TrimUpTo(h: History, windowMs: nat, t: int)
    requires h.Valid() && HistoryUpTo(h, t)
    ensures HistoryUpTo(TrimWindow(h, windowMs), t)
  {
    hide Tracked, MapUpTo, UpTo, TrimmedMap, Filter;
    if windowMs != 0 && Tracked(h) != {} {
      var keep := Within(Newest(Tracked(h)) - windowMs);
      forall k | 0 <= k < SCALARS
        ensures UpTo(Filter(h.scalar[k], keep), t)
      {
        FilterUpTo(h.scalar[k], keep, t);
      }
      forall d | 0 <= d < TRACKED_DEVICES
        ensures MapUpTo(TrimmedMap(h.device[d], Newest(Tracked(h)) - windowMs), t)
      {
        TrimmedMapUpTo(h.device[d], Newest(Tracked(h)) - windowMs, t);
      }
    }
  }

  // What trimming keeps when the newest tracked point is at newest; a zero window keeps everything.
  function InWindow(windowMs: nat, newest: int): HistoryPoint -> bool {
    (p: HistoryPoint) => windowMs == 0 || Ms(p) >= newest - windowMs
  }

  lemma TrimmedScalar(h: History, windowMs: nat, k: nat)
    requires h.Valid() && Tracked(h) != {} && k < SCALARS
    ensures TrimWindow(h, windowMs).scalar[k] == Filter(h.scalar[k], InWindow(windowMs, Newest(Tracked(h))))
  {
    var newest := Newest(Tracked(h));
    hide Tracked;
    if windowMs == 0 {
      FilterEverything(h.scalar[k], InWindow(windowMs, newest));
    } else {
      FilterSame(h.scalar[k], Within(newest - windowMs), InWindow(windowMs, newest));
    }
  }

  // ------------------------------------------------------------------------------------------
  // What is tracked, and which deltas fit, in terms of the series

  // p is a point of a scalar or of a disk, received or sent series.
  ghost predicate Shown(h: History, p: HistoryPoint)
    requires h.Valid()
  {
    || (exists k :: 0 <= k < 7 && p in h.scalar[k])
    || (exists d, k :: 0 <= d < 3 && k in h.device[d] && p in h.device[d][k])
  }

  lemma {:induction false} OfScalars(scalar: seq<Points>, p: HistoryPoint)
    requires p in ScalarPoints(scalar)
    ensures exists k :: 0 <= k < |scalar| && p in scalar[k]
  {
    var init := scalar[..|scalar| - 1];
    if p in ScalarPoints(init) {
      OfScalars(init, p);
      var k :| 0 <= k < |init| && p in init[k];
      assert p in scalar[k];
    }
  }

  lemma {:induction false} OfDevices(device: seq<map<Key, Points>>, p: HistoryPoint)
    requires p in DevicePoints(device)
    ensures exists d, k :: 0 <= d < |device| && k in device[d] && p in device[d][k]
  {
    var init := device[..|device| - 1];
    if p in DevicePoints(init) {
      OfDevices(init, p);
      var d, k :| 0 <= d < |init| && k in init[d] && p in init[d][k];
      assert p in device[d][k];
    } else {
      var m := device[|device| - 1];
      var k :| k in m && p in m[k];
    }
  }

  lemma TrackedIsShown(h: History, p: HistoryPoint)
    requires h.Valid()
    ensures p in Tracked(h) <==> Shown(h, p)
  {
    if p in Tracked(h) {
      if p in ScalarPoints(h.scalar) {
        OfScalars(h.scalar, p);
      } else {
        OfDevices(h.device[..TRACKED_DEVICES], p);
        var d, k :| 0 <= d < TRACKED_DEVICES && k in h.device[..TRACKED_DEVICES][d]
                    && p in h.device[..TRACKED_DEVICES][d][k];
        assert p in h.device[d][k];
      }
    } else if Shown(h, p) {
      if k :| 0 <= k < 7 && p in h.scalar[k] {
        ScalarTracked(h, k, p);
      } else {
        var d, k :| 0 <= d < 3 && k in h.device[d] && p in h.device[d][k];
        DeviceTracked(h, d, k, p);
      }
      assert false;
    }
  }

  ghost predicate IsNewest(h: History, q: HistoryPoint)
    requires h.Valid()
  {
    Shown(h, q) && forall q' :: Shown(h, q') ==> Ms(q') <= Ms(q)
  }

  ghost predicate IsOldest(h: History, p: HistoryPoint)
    requires h.Valid()
  {
    Shown(h, p) && forall p' :: Shown(h, p') ==> Ms(p) <= Ms(p')
  }

  lemma NewestIsNewest(h: History) returns (q: HistoryPoint)
    requires h.Valid() && Tracked(h) != {}
    ensures IsNewest(h, q) && Ms(q) == Newest(Tracked(h))
  {
    q :| q in Tracked(h) && Ms(q) == Newest(Tracked(h));
    hide Tracked, Shown;
    TrackedIsShown(h, q);
    forall q' | Shown(h, q')
      ensures Ms(q') <= Ms(q)
    {
      TrackedIsShown(h, q');
      assert q' in Tracked(h) && Ms(q') <= Newest(Tracked(h));
    }
  }

  lemma OldestIsOldest(h: History) returns (p: HistoryPoint)
    requires h.Valid() && Tracked(h) != {}
    ensures IsOldest(h, p) && Ms(p) == Oldest(Tracked(h))
  {
    p :| p in Tracked(h) && Ms(p) == Oldest(Tracked(h));
    hide Tracked, Shown;
    TrackedIsShown(h, p);
    forall p' | Shown(h, p')
      ensures Ms(p) <= Ms(p')
    {
      TrackedIsShown(h, p');
      assert p' in Tracked(h) && Oldest(Tracked(h)) <= Ms(p');
    }
  }

  // The delta fits: it has nothing, or its oldest point comes after the newest held, by no more than fifteen seconds or
  // three poll intervals.
  ghost predicate Fits(c: ClientConfig, prev: History, delta: History, q: HistoryPoint)
    requires prev.Valid() && delta.Valid()
  {
    || (forall p :: !Shown(delta, p))
    || (exists p :: IsOldest(delta, p) && 0 < Ms(p) - Ms(q)
                    && (Ms(p) - Ms(q) <= 15_000 || Ms(p) - Ms(q) <= 3 * c.pollMs))
  }

  // Which deltas are appended: something is held, and the delta fits to the newest of it.
  lemma JoinsExactly(c: ClientConfig, prev: History, delta: History)
    requires prev.Valid() && delta.Valid()
    ensures Joins(c, prev, delta) <==> exists q :: IsNewest(prev, q) && Fits(c, prev, delta, q)
  {
    hide Tracked, Shown;
    forall h: History, p | h.Valid()
      ensures p in Tracked(h) <==> Shown(h, p)
    {
      TrackedIsShown(h, p);
    }
    if Tracked(prev) != {} {
      var q := NewestIsNewest(prev);
      if Tracked(delta) != {} {
        var p := OldestIsOldest(delta);
        assert Shown(delta, p) && forall p' :: IsOldest(delta, p') ==> Ms(p') == Ms(p);
      }
      assert forall q' :: IsNewest(prev, q') ==> Ms(q') == Ms(q);
      assert Joins(c, prev, delta) <==> Fits(c, prev, delta, q);
    }
  }
}
