/** The server half of the incremental history protocol: what it has recorded, retains, and sends as a delta. */
module SyncServer {
  import opened Seqs
  import opened HistoryData
  import opened Devices
  import opened Trim
  import opened StoreValues
  import opened DashboardFacts

  // The index of the oldest of n recorded points that a buffer of the given capacity retains.
  function First(n: nat, cap: nat): nat {
    if n <= cap then 0 else n - cap
  }

  ghost predicate SameTimes(a: Points, b: Points) {
    |a| == |b| && forall i :: 0 <= i < |a| ==> a[i].at == b[i].at
  }

  ghost predicate Increasing(ps: Points) {
    forall i, j :: 0 <= i < j < |ps| ==> ps[i].at < ps[j].at
  }

  // No device point is newer than the newest of the recorded scalars.
  ghost predicate Behind(m: map<Key, Points>, recorded: Points) {
    if |recorded| == 0 then forall k :: k in m ==> m[k] == [] else MapUpTo(m, recorded[|recorded| - 1].at)
  }

  // Of a time not before the first recorded tick, that it is one of the ticks'.
  ghost predicate OnTick(recorded: Points, t: int) {
    |recorded| > 0 && (t < recorded[0].at || exists i :: 0 <= i < |recorded| && recorded[i].at == t)
  }

  // Every device point was taken by a tick: a recorded one, or one before the first recorded.
  ghost predicate Timely(m: map<Key, Points>, recorded: Points) {
    forall k, p :: k in m && p in m[k] ==> OnTick(recorded, p.at)
  }

  ghost predicate SortedMap(m: map<Key, Points>) {
    forall k :: k in m ==> Sorted(m[k])
  }

  ghost predicate ServerOk(h: History, full: seq<Points>, cap: nat) {
    && h.Valid() && |full| == SCALARS && cap >= 1
    && Increasing(full[0])
    && (forall k :: 0 <= k < SCALARS ==> SameTimes(full[k], full[0]) && h.scalar[k] == LastN(full[k], cap))
    && (forall d :: 0 <= d < DEVICES ==>
          Behind(h.device[d], full[0]) && Timely(h.device[d], full[0]) && SortedMap(h.device[d]))
  }

  ghost function Recorded(full: seq<Points>, m: Measurement): seq<Points>
    requires |full| == SCALARS && m.Valid()
  {
    seq(SCALARS, k requires 0 <= k < SCALARS => full[k] + [HistoryPoint(m.now, m.scalars[k])])
  }

  // The clock did not step back.
  ghost predicate Later(full: seq<Points>, m: Measurement)
    requires |full| == SCALARS
  {
    m.Valid() && forall i :: 0 <= i < |full[0]| ==> full[0][i].at < m.now
  }

  lemma {:induction false} RecordAllUpTo(m: SeriesByKey, rs: seq<Report>, now: int, cap: nat)
    requires MapUpTo(m, now)
    ensures MapUpTo(RecordAll(m, rs, now, cap), now)
  {
    if |rs| == 0 {
    } else {
      RecordAllUpTo(m, rs[..|rs| - 1], now, cap);
    }
  }

  lemma {:induction false} RecordAllSorted(m: SeriesByKey, rs: seq<Report>, now: int, cap: nat)
    requires SortedMap(m) && MapUpTo(m, now)
    ensures SortedMap(RecordAll(m, rs, now, cap))
  {
    if |rs| == 0 {
    } else {
      var init, r := rs[..|rs| - 1], rs[|rs| - 1];
      RecordAllSorted(m, init, now, cap);
      RecordAllUpTo(m, init, now, cap);
      SortedSnoc(Get(RecordAll(m, init, now, cap), r.key), HistoryPoint(now, r.bits), cap);
    }
  }

  lemma SortedSnoc(ps: Points, p: HistoryPoint, cap: nat)
    requires Sorted(ps) && UpTo(ps, p.at)
    ensures Sorted(LastN(ps + [p], cap))
  {
  }

  lemma SortedTick(m: SeriesByKey, recorded: Points, t: Devices.Tick, cap: nat, window: int)
    requires SortedMap(m) && Behind(m, recorded) && forall i :: 0 <= i < |recorded| ==> recorded[i].at < t.now
    ensures SortedMap(AfterTick(m, t, cap, window))
  {
    BehindNow(m, recorded, t.now);
    RecordAllSorted(m, t.reports, t.now, cap);
  }

  lemma BehindNow(m: SeriesByKey, recorded: Points, now: int)
    requires Behind(m, recorded) && forall i :: 0 <= i < |recorded| ==> recorded[i].at < now
    ensures MapUpTo(m, now)
  {
    if |recorded| > 0 {
      assert recorded[|recorded| - 1].at < now;
      forall k | k in m
        ensures UpTo(m[k], now)
      {
        assert UpTo(m[k], recorded[|recorded| - 1].at);
      }
    }
  }

  lemma BehindTick(m: SeriesByKey, recorded: Points, t: Devices.Tick, cap: nat, window: int, p: HistoryPoint)
    requires Behind(m, recorded) && p.at == t.now && forall i :: 0 <= i < |recorded| ==> recorded[i].at < t.now
    ensures Behind(AfterTick(m, t, cap, window), recorded + [p])
  {
    BehindNow(m, recorded, t.now);
    RecordAllUpTo(m, t.reports, t.now, cap);
  }

  lemma {:induction false} RecordedOrNew(m: SeriesByKey, rs: seq<Report>, now: int, cap: nat, k: Key, p: HistoryPoint)
    requires k in RecordAll(m, rs, now, cap) && p in RecordAll(m, rs, now, cap)[k]
    ensures p.at == now || (k in m && p in m[k])
  {
    if |rs| == 0 {
    } else {
      var m' := RecordAll(m, rs[..|rs| - 1], now, cap);
      if k in m' && p in m'[k] {
        RecordedOrNew(m, rs[..|rs| - 1], now, cap, k, p);
      }
    }
  }

  lemma OnTickGrows(recorded: Points, p: HistoryPoint, t: int)
    requires OnTick(recorded, t) || t == p.at
    ensures OnTick(recorded + [p], t)
  {
    var more := recorded + [p];
    assert more[|recorded|] == p;
    if OnTick(recorded, t) && t >= recorded[0].at {
      var i :| 0 <= i < |recorded| && recorded[i].at == t;
      assert more[i].at == t;
    }
  }

  lemma TimelyTick(m: SeriesByKey, recorded: Points, t: Devices.Tick, cap: nat, window: int, p: HistoryPoint)
    requires Timely(m, recorded) && p.at == t.now
    ensures Timely(AfterTick(m, t, cap, window), recorded + [p])
  {
    forall k, q | k in AfterTick(m, t, cap, window) && q in AfterTick(m, t, cap, window)[k]
      ensures OnTick(recorded + [p], q.at)
    {
      RecordedOrNew(m, t.reports, t.now, cap, k, q);
      OnTickGrows(recorded, p, q.at);
    }
  }

  lemma TickServer(h: History, full: seq<Points>, m: Measurement, cap: nat, window: int)
    requires ServerOk(h, full, cap) && Later(full, m)
    ensures ServerOk(Ticked(h, m, cap, window), Recorded(full, m), cap)
  {
    hide AfterTick, Behind, Timely, SortedMap;
    forall k | 0 <= k < SCALARS
      ensures Ticked(h, m, cap, window).scalar[k] == LastN(Recorded(full, m)[k], cap)
      ensures SameTimes(Recorded(full, m)[k], Recorded(full, m)[0])
    {
      assert SameTimes(full[k], full[0]) && h.scalar[k] == LastN(full[k], cap);
      LastNAppend(full[k], [HistoryPoint(m.now, m.scalars[k])], cap);
    }
    forall d | 0 <= d < DEVICES
      ensures Behind(Ticked(h, m, cap, window).device[d], Recorded(full, m)[0])
      ensures Timely(Ticked(h, m, cap, window).device[d], Recorded(full, m)[0])
      ensures SortedMap(Ticked(h, m, cap, window).device[d])
    {
      var t, p := Devices.Tick(m.now, m.Reports(d)), HistoryPoint(m.now, m.scalars[0]);
      BehindTick(h.device[d], full[0], t, cap, window, p);
      TimelyTick(h.device[d], full[0], t, cap, window, p);
      SortedTick(h.device[d], full[0], t, cap, window);
    }
  }

  // Eviction keeps what device times have to do with the ticks.
  lemma RetainedTimely(m: map<Key, Points>, recorded: Points, cap: nat)
    requires Timely(m, recorded) && Increasing(recorded) && cap >= 1
    ensures Timely(m, LastN(recorded, cap))
  {
    var retained := LastN(recorded, cap);
    var r := |recorded| - |retained|;
    assert forall i :: 0 <= i < |retained| ==> retained[i] == recorded[r + i];
    forall k, p | k in m && p in m[k]
      ensures OnTick(retained, p.at)
    {
      assert OnTick(recorded, p.at);
      if p.at >= retained[0].at {
        var i :| 0 <= i < |recorded| && recorded[i].at == p.at;
        assert retained[i - r].at == p.at;
      }
    }
  }

  lemma RetainedBehind(m: map<Key, Points>, recorded: Points, cap: nat)
    requires Behind(m, recorded) && cap >= 1
    ensures Behind(m, LastN(recorded, cap))
  {
  }

  // ------------------------------------------------------------------------------------------
  // Filters by time

  lemma {:induction false} FilterSameTimes(a: Points, b: Points, keep: HistoryPoint -> bool)
    requires SameTimes(a, b) && forall p: HistoryPoint, q: HistoryPoint :: p.at == q.at ==> keep(p) == keep(q)
    ensures SameTimes(Filter(a, keep), Filter(b, keep))
  {
    if |a| == 0 {
    } else {
      FilterSameTimes(a[..|a| - 1], b[..|b| - 1], keep);
    }
  }

  lemma {:induction false} FilterIncreasing(ps: Points, keep: HistoryPoint -> bool)
    requires Increasing(ps)
    ensures Increasing(Filter(ps, keep))
  {
    if |ps| == 0 {
    } else {
      var init := ps[..|ps| - 1];
      FilterIncreasing(init, keep);
      forall p | p in Filter(init, keep)
        ensures p.at < ps[|ps| - 1].at
      {
        FilterIn(init, keep, p);
      }
    }
  }

  lemma {:induction false} FilterSorted(ps: Points, keep: HistoryPoint -> bool)
    requires Sorted(ps)
    ensures Sorted(Filter(ps, keep))
  {
    if |ps| == 0 {
    } else {
      var init := ps[..|ps| - 1];
      FilterSorted(init, keep);
      forall p | p in Filter(init, keep)
        ensures p.at <= ps[|ps| - 1].at
      {
        FilterIn(init, keep, p);
      }
    }
  }

  // ------------------------------------------------------------------------------------------
  // What a delta holds

  lemma SuffixAfter(ps: Points, t: int) returns (b: nat)
    requires Increasing(ps)
    ensures b <= |ps| && Suffix(ps, After(t)) == ps[b..]
    ensures forall i :: 0 <= i < |ps| ==> (i < b <==> ps[i].at <= t)
  {
    b := Search(ps, After(t), 0, |ps|);
    SearchBoundary(ps, After(t), 0, |ps|);
    forall i | 0 <= i < |ps|
      ensures i < b <==> !After(t)(ps[i])
    {
    }
  }

  lemma AllAfter(ps: Points, t: int)
    requires Increasing(ps) && forall i :: 0 <= i < |ps| ==> ps[i].at > t
    ensures Suffix(ps, After(t)) == ps
  {
    var b := SuffixAfter(ps, t);
    assert |ps| > 0 ==> (0 < b <==> ps[0].at <= t);
  }

  // The retained points newer than t are the recorded ones from some index on.
  lemma RetainedAfter(full: Points, cap: nat, t: int) returns (j: nat)
    requires Increasing(full)
    ensures First(|full|, cap) <= j <= |full| && Suffix(LastN(full, cap), After(t)) == full[j..]
    ensures forall i :: First(|full|, cap) <= i < |full| ==> (i < j <==> full[i].at <= t)
  {
    hide Suffix, After;
    var r := First(|full|, cap);
    var ps := full[r..];
    assert ps == LastN(full, cap);
    var b := SuffixAfter(ps, t);
    j := r + b;
    assert ps[b..] == full[j..];
    forall i | r <= i < |full|
      ensures i < j <==> full[i].at <= t
    {
      assert full[i] == ps[i - r];
    }
  }

  lemma DeltaScalar(h: History, full: seq<Points>, cap: nat, t: int, k: nat) returns (j: nat)
    requires ServerOk(h, full, cap) && k < SCALARS
    ensures |full[k]| == |full[0]| && First(|full[0]|, cap) <= j <= |full[0]|
    ensures Since(h, Some(t)).scalar[k] == full[k][j..]
    ensures forall i :: First(|full[0]|, cap) <= i < |full[0]| ==> (i < j <==> full[0][i].at <= t)
  {
    hide Behind, Timely, Suffix, LastN, After;
    assert SameTimes(full[k], full[0]) && h.scalar[k] == LastN(full[k], cap);
    j := RetainedAfter(full[k], cap, t);
  }
}
