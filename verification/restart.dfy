/** A restart preserves the history: encode, decode, import, and carry on collecting. */
module Restart {
  import opened Seqs
  import opened HistoryData
  import opened Pimh
  import opened PimhHistory
  import opened Devices
  import opened Trim
  import opened StoreValues

  // ------------------------------------------------------------------------------------------
  // What a run of the collector leaves behind

  ghost function TickRun(h: History, ms: seq<Measurement>, cap: nat, window: int): (h': History)
    requires h.Valid() && forall i :: 0 <= i < |ms| ==> ms[i].Valid()
    ensures h'.Valid()
  {
    if |ms| == 0 then h else Ticked(TickRun(h, ms[..|ms| - 1], cap, window), ms[|ms| - 1], cap, window)
  }

  // Oldest first, nothing later than now, and at most cap points.
  ghost predicate Tidy(ps: Points, now: int, cap: nat) {
    Sorted(ps) && |ps| <= cap && forall i :: 0 <= i < |ps| ==> ps[i].at <= now
  }

  ghost predicate TidyMap(m: map<Key, Points>, now: int, cap: nat) {
    forall k :: k in m ==> Tidy(m[k], now, cap)
  }

  ghost predicate TidyHistory(h: History, now: int, cap: nat)
    requires h.Valid()
  {
    && (forall k :: 0 <= k < SCALARS ==> Tidy(h.scalar[k], now, cap))
    && (forall d :: 0 <= d < DEVICES ==> TidyMap(h.device[d], now, cap))
  }

  lemma AddTidy(ps: Points, last: int, p: HistoryPoint, cap: nat)
    requires Tidy(ps, last, cap) && last <= p.at
    ensures Tidy(LastN(ps + [p], cap), p.at, cap)
  {
  }

  lemma {:induction false} RecordAllTidy(m: map<Key, Points>, last: int, rs: seq<Report>, now: int, cap: nat)
    requires TidyMap(m, last, cap) && last <= now
    ensures TidyMap(RecordAll(m, rs, now, cap), now, cap)
  {
    if |rs| == 0 {
    } else {
      var init, r := rs[..|rs| - 1], rs[|rs| - 1];
      RecordAllTidy(m, last, init, now, cap);
      AddTidy(Get(RecordAll(m, init, now, cap), r.key), now, HistoryPoint(now, r.bits), cap);
    }
  }

  lemma TickTidy(h: History, last: int, m: Measurement, cap: nat, window: int)
    requires h.Valid() && m.Valid() && TidyHistory(h, last, cap) && last <= m.now
    ensures TidyHistory(Ticked(h, m, cap, window), m.now, cap)
  {
    forall k | 0 <= k < SCALARS
      ensures Tidy(Ticked(h, m, cap, window).scalar[k], m.now, cap)
    {
      AddTidy(h.scalar[k], last, HistoryPoint(m.now, m.scalars[k]), cap);
    }
    forall d | 0 <= d < DEVICES
      ensures TidyMap(Ticked(h, m, cap, window).device[d], m.now, cap)
    {
      RecordAllTidy(h.device[d], last, m.Reports(d), m.now, cap);
    }
  }

  ghost function LastTime(ms: seq<Measurement>, start: int): int {
    if |ms| == 0 then start else ms[|ms| - 1].now
  }

  ghost predicate TicksFrom(ms: seq<Measurement>, start: int) {
    forall i :: 0 <= i < |ms| ==> ms[i].Valid() && LastTime(ms[..i], start) <= ms[i].now
  }

  // What the collector retains is always sorted and within capacity.
  lemma {:induction false} RunTidy(h: History, start: int, ms: seq<Measurement>, cap: nat, window: int)
    requires h.Valid() && TidyHistory(h, start, cap) && TicksFrom(ms, start)
    ensures TidyHistory(TickRun(h, ms, cap, window), LastTime(ms, start), cap)
  {
    if |ms| == 0 {
    } else {
      var init := ms[..|ms| - 1];
      assert forall i :: 0 <= i < |init| ==> init[..i] == ms[..i];
      RunTidy(h, start, init, cap, window);
      TickTidy(TickRun(h, init, cap, window), LastTime(init, start), ms[|ms| - 1], cap, window);
    }
  }

  // The points of scalar k that the ticks ms add.
  ghost function Added(ms: seq<Measurement>, k: nat): Points
    requires k < SCALARS && forall i :: 0 <= i < |ms| ==> ms[i].Valid()
  {
    seq(|ms|, i requires 0 <= i < |ms| && ms[i].Valid() => HistoryPoint(ms[i].now, ms[i].scalars[k]))
  }

  lemma AddedSnoc(ps: Points, ms: seq<Measurement>, k: nat)
    requires k < SCALARS && |ms| > 0 && forall i :: 0 <= i < |ms| ==> ms[i].Valid()
    ensures var init, m := ms[..|ms| - 1], ms[|ms| - 1];
            ps + Added(ms, k) == ps + Added(init, k) + [HistoryPoint(m.now, m.scalars[k])]
  {
  }

  lemma {:induction false} ScalarsAfterRun(h: History, ms: seq<Measurement>, cap: nat, window: int, k: nat)
    requires h.Valid() && k < SCALARS && |h.scalar[k]| <= cap
    requires forall i :: 0 <= i < |ms| ==> ms[i].Valid()
    ensures TickRun(h, ms, cap, window).scalar[k] == LastN(h.scalar[k] + Added(ms, k), cap)
  {
    if |ms| == 0 {
      assert h.scalar[k] + Added(ms, k) == h.scalar[k];
    } else {
      var init, m := ms[..|ms| - 1], ms[|ms| - 1];
      ScalarsAfterRun(h, init, cap, window, k);
      var p := HistoryPoint(m.now, m.scalars[k]);
      LastNAppend(h.scalar[k] + Added(init, k), [p], cap);
      AddedSnoc(h.scalar[k], ms, k);
    }
  }

  // The points of device k of kind d that the ticks ms add.
  ghost function AddedTo(ms: seq<Measurement>, d: nat, k: Key): Points
    requires d < DEVICES
  {
    if |ms| == 0 then []
    else AddedTo(ms[..|ms| - 1], d, k) + Reported(ms[|ms| - 1].Reports(d), k, ms[|ms| - 1].now)
  }

  // The device is there at the start and after every tick: it is never evicted.
  ghost predicate Stays(h: History, ms: seq<Measurement>, cap: nat, window: int, d: nat, k: Key)
    requires h.Valid() && d < DEVICES && forall i :: 0 <= i < |ms| ==> ms[i].Valid()
  {
    forall n :: 0 <= n <= |ms| ==> k in TickRun(h, ms[..n], cap, window).device[d]
  }

  lemma StaysBefore(h: History, ms: seq<Measurement>, cap: nat, window: int, d: nat, k: Key)
    requires h.Valid() && d < DEVICES && |ms| > 0 && (forall i :: 0 <= i < |ms| ==> ms[i].Valid())
    requires Stays(h, ms, cap, window, d, k)
    ensures Stays(h, ms[..|ms| - 1], cap, window, d, k)
    ensures k in Ticked(TickRun(h, ms[..|ms| - 1], cap, window), ms[|ms| - 1], cap, window).device[d]
  {
    var init := ms[..|ms| - 1];
    assert ms[..|ms|] == ms && forall n :: 0 <= n <= |init| ==> init[..n] == ms[..n];
    assert k in TickRun(h, ms[..|ms|], cap, window).device[d];
    hide Ticked;
  }

  lemma {:induction false} DeviceAfterRun(h: History, ms: seq<Measurement>, cap: nat, window: int, d: nat, k: Key)
    requires h.Valid() && d < DEVICES && (forall i :: 0 <= i < |ms| ==> ms[i].Valid())
    requires Stays(h, ms, cap, window, d, k) && |Get(h.device[d], k)| <= cap
    ensures Get(TickRun(h, ms, cap, window).device[d], k) == LastN(Get(h.device[d], k) + AddedTo(ms, d, k), cap)
  {
    hide Stays, Ticked, LastN, Get, Reported, Measurement.Reports;
    if |ms| == 0 {
      LastNBounded(Get(h.device[d], k), cap);
      assert Get(h.device[d], k) + [] == Get(h.device[d], k);
    } else {
      var init, m := ms[..|ms| - 1], ms[|ms| - 1];
      StaysBefore(h, ms, cap, window, d, k);
      DeviceAfterRun(h, init, cap, window, d, k);
      LastNBounded(Get(h.device[d], k) + AddedTo(init, d, k), cap);
      DeviceTick(TickRun(h, init, cap, window), m, cap, window, d, k);
      LastNAppend(Get(h.device[d], k) + AddedTo(init, d, k), Reported(m.Reports(d), k, m.now), cap);
      assert Get(h.device[d], k) + AddedTo(ms, d, k)
          == Get(h.device[d], k) + AddedTo(init, d, k) + Reported(m.Reports(d), k, m.now);
    }
  }

  lemma DeviceTick(h: History, m: Measurement, cap: nat, window: int, d: nat, k: Key)
    requires h.Valid() && m.Valid() && d < DEVICES && |Get(h.device[d], k)| <= cap
    requires k in Ticked(h, m, cap, window).device[d]
    ensures Get(Ticked(h, m, cap, window).device[d], k)
            == LastN(Get(h.device[d], k) + Reported(m.Reports(d), k, m.now), cap)
  {
    RecordAllAdds(h.device[d], m.Reports(d), m.now, cap, k);
  }

  // When device k of kind d was last reported, start if not since.
  ghost function LastSeen(start: int, ms: seq<Measurement>, d: nat, k: Key): int
    requires d < DEVICES
  {
    if |ms| == 0 then start
    else if k in KeysOf(ms[|ms| - 1].Reports(d)) then ms[|ms| - 1].now
    else LastSeen(start, ms[..|ms| - 1], d, k)
  }

  // At no tick has the last report been longer ago than the eviction window.
  ghost predicate Attended(start: int, ms: seq<Measurement>, window: int, d: nat, k: Key)
    requires d < DEVICES
  {
    forall n :: 0 < n <= |ms| ==> RecentlySeen(start, ms, n, window, d, k)
  }

  ghost predicate RecentlySeen(start: int, ms: seq<Measurement>, n: nat, window: int, d: nat, k: Key)
    requires d < DEVICES && 0 < n <= |ms|
  {
    window <= 0 || ms[n - 1].now - LastSeen(start, ms[..n], d, k) <= window
  }

  // The newest point of the device's series was taken at t.
  ghost predicate LastAt(m: SeriesByKey, k: Key, t: int) {
    k in m && |m[k]| > 0 && m[k][|m[k]| - 1].at == t
  }

  lemma TickLastAt(h: History, m: Measurement, cap: nat, window: int, d: nat, k: Key, t: int)
    requires h.Valid() && m.Valid() && d < DEVICES && cap >= 1 && LastAt(h.device[d], k, t)
    ensures var reported := k in KeysOf(m.Reports(d));
            var after := Ticked(h, m, cap, window).device[d];
            && (k in after <==> window <= 0 || reported || m.now - t <= window)
            && (k in after ==> LastAt(after, k, if reported then m.now else t))
  {
    RecordAllAt(h.device[d], m.Reports(d), m.now, cap, k);
  }

  // Its reports decide whether a device stays: it does if and only if it is never away for longer than the eviction
  // window, and then its newest point is that of its last report.
  lemma {:induction false} StaysExactly(h: History, ms: seq<Measurement>, cap: nat, window: int, d: nat, k: Key,
                                        start: int)
    requires h.Valid() && d < DEVICES && cap >= 1 && (forall i :: 0 <= i < |ms| ==> ms[i].Valid())
    requires LastAt(h.device[d], k, start)
    ensures Stays(h, ms, cap, window, d, k) <==> Attended(start, ms, window, d, k)
    ensures Stays(h, ms, cap, window, d, k) ==>
              LastAt(TickRun(h, ms, cap, window).device[d], k, LastSeen(start, ms, d, k))
  {
    hide Ticked, LastAt, KeysOf, Stays, Attended;
    if |ms| == 0 {
      StaysAtFirst(h, ms, cap, window, d, k, start);
    } else {
      var init, m := ms[..|ms| - 1], ms[|ms| - 1];
      StaysExactly(h, init, cap, window, d, k, start);
      AttendedSnoc(start, ms, window, d, k);
      assert ms[..|ms|] == ms;
      if Stays(h, ms, cap, window, d, k) {
        StaysBefore(h, ms, cap, window, d, k);
      }
      if Stays(h, init, cap, window, d, k) {
        TickLastAt(TickRun(h, init, cap, window), m, cap, window, d, k, LastSeen(start, init, d, k));
        if k in TickRun(h, ms, cap, window).device[d] {
          StaysSnoc(h, ms, cap, window, d, k);
        }
      }
    }
  }

  lemma StaysAtFirst(h: History, ms: seq<Measurement>, cap: nat, window: int, d: nat, k: Key, start: int)
    requires h.Valid() && d < DEVICES && |ms| == 0 && LastAt(h.device[d], k, start)
    ensures Stays(h, ms, cap, window, d, k) && Attended(start, ms, window, d, k)
  {
  }

  lemma StaysSnoc(h: History, ms: seq<Measurement>, cap: nat, window: int, d: nat, k: Key)
    requires h.Valid() && d < DEVICES && |ms| > 0 && (forall i :: 0 <= i < |ms| ==> ms[i].Valid())
    requires Stays(h, ms[..|ms| - 1], cap, window, d, k) && k in TickRun(h, ms, cap, window).device[d]
    ensures Stays(h, ms, cap, window, d, k)
  {
    hide TickRun;
    var init := ms[..|ms| - 1];
    forall n | 0 <= n <= |ms|
      ensures k in TickRun(h, ms[..n], cap, window).device[d]
    {
      if n < |ms| {
        assert ms[..n] == init[..n];
        assert k in TickRun(h, init[..n], cap, window).device[d];
      } else {
        assert ms[..n] == ms;
      }
    }
  }

  lemma AttendedSnoc(start: int, ms: seq<Measurement>, window: int, d: nat, k: Key)
    requires d < DEVICES && |ms| > 0
    ensures Attended(start, ms, window, d, k)
       <==> Attended(start, ms[..|ms| - 1], window, d, k) && RecentlySeen(start, ms, |ms|, window, d, k)
  {
    var init := ms[..|ms| - 1];
    assert ms[..|ms|] == ms && forall n :: 0 <= n <= |init| ==> init[..n] == ms[..n];
    forall n | 0 < n <= |init|
      ensures RecentlySeen(start, ms, n, window, d, k) <==> RecentlySeen(start, init, n, window, d, k)
    {
      assert init[n - 1] == ms[n - 1];
    }
  }

  lemma {:induction false} SeenLater(start: int, start': int, ms: seq<Measurement>, d: nat, k: Key)
    requires start <= start' && d < DEVICES
    ensures LastSeen(start, ms, d, k) <= LastSeen(start', ms, d, k)
  {
    if |ms| == 0 {
    } else {
      SeenLater(start, start', ms[..|ms| - 1], d, k);
    }
  }

  lemma AttendedLater(start: int, start': int, ms: seq<Measurement>, window: int, d: nat, k: Key)
    requires start <= start' && d < DEVICES && Attended(start, ms, window, d, k)
    ensures Attended(start', ms, window, d, k)
  {
    forall n | 0 < n <= |ms|
      ensures RecentlySeen(start', ms, n, window, d, k)
    {
      assert RecentlySeen(start, ms, n, window, d, k);
      SeenLater(start, start', ms[..n], d, k);
    }
  }

  // ------------------------------------------------------------------------------------------
  // The restart itself

  ghost function Surviving(ps: Points, cutoff: int): Points {
    Filter(FloorPoints(ps), NotBefore(cutoff))
  }

  lemma FloorSorted(ps: Points)
    requires Sorted(ps)
    ensures Sorted(FloorPoints(ps))
  {
    forall i, j | 0 <= i <= j < |ps|
      ensures FloorPoint(ps[i]).at <= FloorPoint(ps[j]).at
    {
      assert ps[i].at <= ps[j].at;
      assert UnixMilli(ps[i].at) <= UnixMilli(ps[j].at);
    }
  }

  lemma SuffixSurvives(ps: Points, cutoff: int, cap: nat)
    requires Sorted(ps) && |ps| <= cap
    ensures Suffix(FloorPoints(ps), NotBefore(cutoff)) == Surviving(ps, cutoff)
    ensures LastN(Surviving(ps, cutoff), cap) == Surviving(ps, cutoff)
  {
    FloorSorted(ps);
    SuffixIsFilter(FloorPoints(ps), NotBefore(cutoff));
  }

  ghost predicate RestoredExactly(r: History, h: History, cutoff: int)
    requires r.Valid() && h.Valid()
  {
    && (forall k :: 0 <= k < SCALARS ==> r.scalar[k] == Surviving(h.scalar[k], cutoff))
    && (forall d, k :: 0 <= d < DEVICES ==>
          (k in r.device[d] <==> k in h.device[d] && |k| <= MAX_KEY_LEN && Surviving(h.device[d][k], cutoff) != []))
    && (forall d, k :: 0 <= d < DEVICES && k in r.device[d] ==>
          k in h.device[d] && r.device[d][k] == Surviving(h.device[d][k], cutoff))
  }

  lemma ImportRestores(h: History, last: int, cutoff: int, cap: nat)
    requires h.Valid() && TidyHistory(h, last, cap)
    ensures RestoredExactly(Imported(EmptyHistory(), Stored(h), cutoff, cap), h, cutoff)
  {
    forall k | 0 <= k < SCALARS
      ensures Imported(EmptyHistory(), Stored(h), cutoff, cap).scalar[k] == Surviving(h.scalar[k], cutoff)
    {
      SuffixSurvives(h.scalar[k], cutoff, cap);
    }
    forall d, k | 0 <= d < DEVICES && k in h.device[d]
      ensures Suffix(FloorPoints(h.device[d][k]), NotBefore(cutoff)) == Surviving(h.device[d][k], cutoff)
      ensures LastN(Surviving(h.device[d][k], cutoff), cap) == Surviving(h.device[d][k], cutoff)
    {
      SuffixSurvives(h.device[d][k], cutoff, cap);
    }
  }

  // For any capacity a validated configuration allows: the file written by one process is accepted by the next, which
  // starts from exactly the millisecond-floored points not before the cutoff.
  lemma RestartPreservesHistory(h: History, last: int, cutoff: int, cap: nat)
    requires h.Valid() && 1 <= cap <= 1_000_000 && TidyHistory(h, last, cap)
    requires RepresentableHistory(h) && |SeriesList(h)| <= MAX_SERIES
    ensures DecodedHistory(EncodedHistory(h)) == Ok(Stored(h))
    ensures RestoredExactly(Imported(EmptyHistory(), Stored(h), cutoff, cap), h, cutoff)
  {
    SeriesBelow(h, DEVICES, cap + 1);
    RoundTrip(h);
    ImportRestores(h, last, cutoff, cap);
  }

  // From then on every scalar holds the newest cap of the restored points and the new ones, as it would have without
  // the restart; once cap ticks have passed the restart has left no trace.
  lemma CollectionContinues(h: History, last: int, cutoff: int, ms: seq<Measurement>, cap: nat, window: int, k: nat)
    requires h.Valid() && 1 <= cap && TidyHistory(h, last, cap) && k < SCALARS
    requires forall i :: 0 <= i < |ms| ==> ms[i].Valid()
    ensures var restored := Imported(EmptyHistory(), Stored(h), cutoff, cap);
            && TickRun(restored, ms, cap, window).scalar[k] == LastN(Surviving(h.scalar[k], cutoff) + Added(ms, k), cap)
            && TickRun(h, ms, cap, window).scalar[k] == LastN(h.scalar[k] + Added(ms, k), cap)
            && (|ms| >= cap ==> TickRun(restored, ms, cap, window).scalar[k] == TickRun(h, ms, cap, window).scalar[k])
  {
    var restored := Imported(EmptyHistory(), Stored(h), cutoff, cap);
    ImportRestores(h, last, cutoff, cap);
    ScalarsAfterRun(restored, ms, cap, window, k);
    ScalarsAfterRun(h, ms, cap, window, k);
    if |ms| >= cap {
      TailOnly(restored.scalar[k], Added(ms, k), cap);
      TailOnly(h.scalar[k], Added(ms, k), cap);
    }
  }

  // What survives of a series is its newest part.
  lemma SurvivingLast(ps: Points, cutoff: int)
    requires Sorted(ps) && Surviving(ps, cutoff) != []
    ensures var s := Surviving(ps, cutoff); |ps| > 0 && s[|s| - 1] == FloorPoint(ps[|ps| - 1])
  {
    SuffixSurvives(ps, cutoff, |ps|);
  }

  lemma RestoredLast(h: History, last: int, cutoff: int, cap: nat, d: nat, k: Key)
    requires h.Valid() && TidyHistory(h, last, cap) && d < DEVICES && k in h.device[d]
    requires |k| <= MAX_KEY_LEN && Surviving(h.device[d][k], cutoff) != []
    ensures var ps := h.device[d][k];
            |ps| > 0
            && LastAt(Imported(EmptyHistory(), Stored(h), cutoff, cap).device[d], k, FloorPoint(ps[|ps| - 1]).at)
  {
    ImportRestores(h, last, cutoff, cap);
    assert TidyMap(h.device[d], last, cap) && Tidy(h.device[d][k], last, cap);
    SurvivingLast(h.device[d][k], cutoff);
    hide Imported, Stored, TidyHistory, Surviving;
  }

  // Flooring only makes the last report older, so what stays after the restart would have stayed without it.
  lemma BothStay(h: History, last: int, cutoff: int, ms: seq<Measurement>, cap: nat, window: int, d: nat, k: Key)
    requires h.Valid() && 1 <= cap && TidyHistory(h, last, cap) && d < DEVICES && k in h.device[d]
    requires forall i :: 0 <= i < |ms| ==> ms[i].Valid()
    requires |k| <= MAX_KEY_LEN && Surviving(h.device[d][k], cutoff) != []
    requires var ps := h.device[d][k]; |ps| > 0 && Attended(FloorPoint(ps[|ps| - 1]).at, ms, window, d, k)
    ensures Stays(h, ms, cap, window, d, k)
    ensures Stays(Imported(EmptyHistory(), Stored(h), cutoff, cap), ms, cap, window, d, k)
  {
    hide TickRun, Imported, Stays, TidyHistory, Attended, Surviving;
    RestoredLast(h, last, cutoff, cap, d, k);
    var newest := h.device[d][k][|h.device[d][k]| - 1];
    StaysExactly(Imported(EmptyHistory(), Stored(h), cutoff, cap), ms, cap, window, d, k, FloorPoint(newest).at);
    AttendedLater(FloorPoint(newest).at, newest.at, ms, window, d, k);
    StaysExactly(h, ms, cap, window, d, k, newest.at);
  }

  // The same of the series of a device that kept a point and is never away for longer than the eviction window: it
  // holds the newest cap of its restored points and those reported since, and after cap reports the restart has left
  // no trace.
  lemma DeviceContinues(h: History, last: int, cutoff: int, ms: seq<Measurement>, cap: nat, window: int, d: nat, k: Key)
    requires h.Valid() && 1 <= cap && TidyHistory(h, last, cap) && d < DEVICES && k in h.device[d]
    requires forall i :: 0 <= i < |ms| ==> ms[i].Valid()
    requires |k| <= MAX_KEY_LEN && Surviving(h.device[d][k], cutoff) != []
    requires var ps := h.device[d][k]; |ps| > 0 && Attended(FloorPoint(ps[|ps| - 1]).at, ms, window, d, k)
    ensures var restored := Imported(EmptyHistory(), Stored(h), cutoff, cap);
            var after, uninterrupted := TickRun(restored, ms, cap, window), TickRun(h, ms, cap, window);
            && Get(after.device[d], k) == LastN(Surviving(h.device[d][k], cutoff) + AddedTo(ms, d, k), cap)
            && Get(uninterrupted.device[d], k) == LastN(h.device[d][k] + AddedTo(ms, d, k), cap)
            && (|AddedTo(ms, d, k)| >= cap ==> Get(after.device[d], k) == Get(uninterrupted.device[d], k))
  {
    var restored := Imported(EmptyHistory(), Stored(h), cutoff, cap);
    ImportRestores(h, last, cutoff, cap);
    BothStay(h, last, cutoff, ms, cap, window, d, k);
    SuffixSurvives(h.device[d][k], cutoff, cap);
    assert TidyMap(h.device[d], last, cap) && Tidy(h.device[d][k], last, cap);
    hide TickRun, Imported, Stored, Stays, TidyHistory;
    DeviceAfterRun(restored, ms, cap, window, d, k);
    DeviceAfterRun(h, ms, cap, window, d, k);
    if |AddedTo(ms, d, k)| >= cap {
      TailOnly(Surviving(h.device[d][k], cutoff), AddedTo(ms, d, k), cap);
      TailOnly(h.device[d][k], AddedTo(ms, d, k), cap);
    }
  }

  lemma TailOnly<T>(s: seq<T>, t: seq<T>, n: nat)
    requires |t| >= n
    ensures LastN(s + t, n) == LastN(t, n)
  {
  }
}
