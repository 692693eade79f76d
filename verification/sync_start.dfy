/** What a run of the incremental protocol can start from: an empty collector, or one that restored its history. */
module SyncStart {
  import opened Seqs
  import opened HistoryData
  import opened PimhHistory
  import opened Trim
  import opened StoreValues
  import opened Restart
  import opened DashboardFacts
  import opened SyncServer

  lemma EmptyServerOk(cap: nat)
    requires cap >= 1
    ensures ServerOk(EmptyHistory(), EmptyHistory().scalar, cap)
  {
  }

  lemma SurvivingScalar(a: Points, b: Points, cutoff: int)
    requires SameTimes(a, b)
    ensures SameTimes(Surviving(a, cutoff), Surviving(b, cutoff))
  {
    FilterSameTimes(FloorPoints(a), FloorPoints(b), NotBefore(cutoff));
  }

  // A surviving device point is not before the cutoff, hence neither is the newest scalar point, which is no older.
  lemma SurvivingDevice(ps: Points, newest: Points, cutoff: int, q: HistoryPoint)
    requires q in Surviving(ps, cutoff)
    requires |newest| > 0 && forall p :: p in ps ==> p.at <= newest[|newest| - 1].at
    ensures var s := Surviving(newest, cutoff);
            |s| > 0 && s[|s| - 1] == FloorPoint(newest[|newest| - 1]) && q.at <= s[|s| - 1].at
  {
    FilterIn(FloorPoints(ps), NotBefore(cutoff), q);
    var i :| 0 <= i < |ps| && FloorPoints(ps)[i] == q;
    assert ps[i] in ps;
    assert FloorPoint(ps[i]).at <= FloorPoint(newest[|newest| - 1]).at;
  }

  lemma SurvivingSeriesBehind(ps: Points, newest: Points, cutoff: int)
    requires if |newest| == 0 then ps == [] else UpTo(ps, newest[|newest| - 1].at)
    ensures var s, r := Surviving(newest, cutoff), Surviving(ps, cutoff);
            if |s| == 0 then r == [] else UpTo(r, s[|s| - 1].at)
  {
    if |newest| > 0 {
      hide Surviving;
      forall q | q in Surviving(ps, cutoff)
        ensures var s := Surviving(newest, cutoff); |s| > 0 && q.at <= s[|s| - 1].at
      {
        SurvivingDevice(ps, newest, cutoff, q);
      }
      assert |Surviving(ps, cutoff)| > 0 ==> Surviving(ps, cutoff)[0] in Surviving(ps, cutoff);
    }
  }

  lemma SurvivingBehind(m: map<Key, Points>, restored: map<Key, Points>, newest: Points, cutoff: int)
    requires Behind(m, newest)
    requires forall k :: k in restored ==> k in m && restored[k] == Surviving(m[k], cutoff)
    ensures Behind(restored, Surviving(newest, cutoff))
  {
    hide Surviving, UpTo;
    var s := Surviving(newest, cutoff);
    forall k | k in restored
      ensures if |s| == 0 then restored[k] == [] else UpTo(restored[k], s[|s| - 1].at)
    {
      assert |newest| > 0 ==> UpTo(m[k], newest[|newest| - 1].at);
      SurvivingSeriesBehind(m[k], newest, cutoff);
    }
  }

  lemma SurvivingHas(ps: Points, cutoff: int, i: nat)
    requires i < |ps| && FloorPoint(ps[i]).at >= cutoff
    ensures FloorPoint(ps[i]) in Surviving(ps, cutoff)
  {
    assert FloorPoints(ps)[i] == FloorPoint(ps[i]);
    FilterHas(FloorPoints(ps), NotBefore(cutoff), FloorPoint(ps[i]));
  }

  lemma SurvivingFrom(ps: Points, cutoff: int, q: HistoryPoint)
    requires Increasing(ps) && q in Surviving(ps, cutoff)
    ensures |ps| > 0 && q.at >= FloorPoint(ps[0]).at
  {
    FilterIn(FloorPoints(ps), NotBefore(cutoff), q);
    var i :| 0 <= i < |ps| && FloorPoints(ps)[i] == q;
  }

  // A floored device time is that of a floored tick that survives, or before all of them.
  lemma SurvivingOnTick(retained: Points, cutoff: int, t: int, q: HistoryPoint)
    requires Increasing(retained) && OnTick(retained, t) && q.at == UnixMilli(t) * NANOS_PER_MILLI >= cutoff
    requires Surviving(retained, cutoff) != []
    ensures OnTick(Surviving(retained, cutoff), q.at)
  {
    var s := Surviving(retained, cutoff);
    if t >= retained[0].at {
      var i :| 0 <= i < |retained| && retained[i].at == t;
      SurvivingHas(retained, cutoff, i);
    } else {
      assert q.at <= FloorPoint(retained[0]).at;
      SurvivingHas(retained, cutoff, 0);
      SurvivingFrom(retained, cutoff, s[0]);
    }
  }

  lemma SurvivingTimely(m: map<Key, Points>, restored: map<Key, Points>, retained: Points, cutoff: int)
    requires Timely(m, retained) && Behind(m, retained) && Increasing(retained)
    requires forall k :: k in restored ==> k in m && restored[k] == Surviving(m[k], cutoff)
    ensures Timely(restored, Surviving(retained, cutoff))
  {
    forall k, q | k in restored && q in restored[k]
      ensures OnTick(Surviving(retained, cutoff), q.at)
    {
        FilterIn(FloorPoints(m[k]), NotBefore(cutoff), q);
      var i :| 0 <= i < |m[k]| && FloorPoints(m[k])[i] == q;
      var p := m[k][i];
      assert p in m[k] && OnTick(retained, p.at) && UpTo(m[k], retained[|retained| - 1].at);
      SurvivingDevice(m[k], retained, cutoff, q);
      SurvivingOnTick(retained, cutoff, p.at, q);
    }
  }

  lemma SurvivingSorted(m: map<Key, Points>, restored: map<Key, Points>, cutoff: int)
    requires SortedMap(m) && forall k :: k in restored ==> k in m && restored[k] == Surviving(m[k], cutoff)
    ensures SortedMap(restored)
  {
    forall k | k in restored
      ensures Sorted(restored[k])
    {
      FloorSorted(m[k]);
      FilterSorted(FloorPoints(m[k]), NotBefore(cutoff));
    }
  }

  // What a restart restores of a collector's history is again such a history, provided no two ticks shared a
  // millisecond.
  lemma RestoredServerOk(h: History, full: seq<Points>, last: int, cutoff: int, cap: nat)
    requires ServerOk(h, full, cap) && TidyHistory(h, last, cap) && Increasing(FloorPoints(h.scalar[0]))
    ensures var r := Imported(EmptyHistory(), Stored(h), cutoff, cap); ServerOk(r, r.scalar, cap)
  {
    var r := Imported(EmptyHistory(), Stored(h), cutoff, cap);
    ImportRestores(h, last, cutoff, cap);
    hide Imported, Stored, Behind, Timely, SortedMap;
    FilterIncreasing(FloorPoints(h.scalar[0]), NotBefore(cutoff));
    forall k | 0 <= k < SCALARS
      ensures SameTimes(r.scalar[k], r.scalar[0]) && r.scalar[k] == LastN(r.scalar[k], cap)
    {
      RetainedSameTimes(full[k], full[0], cap);
      SurvivingScalar(h.scalar[k], h.scalar[0], cutoff);
      SuffixSurvives(h.scalar[k], cutoff, cap);
    }
    forall d | 0 <= d < DEVICES
      ensures Behind(r.device[d], r.scalar[0]) && Timely(r.device[d], r.scalar[0]) && SortedMap(r.device[d])
    {
      SurvivingSorted(h.device[d], r.device[d], cutoff);
      RetainedBehind(h.device[d], full[0], cap);
      RetainedTimely(h.device[d], full[0], cap);
      SurvivingBehind(h.device[d], r.device[d], h.scalar[0], cutoff);
      SurvivingTimely(h.device[d], r.device[d], h.scalar[0], cutoff);
    }
  }

  lemma RetainedSameTimes(a: Points, b: Points, cap: nat)
    requires SameTimes(a, b)
    ensures SameTimes(LastN(a, cap), LastN(b, cap))
  {
  }
}
