/** Per-device series as values: recording, eviction, and what is retained over whole runs. */
module Devices {
  import opened Seqs
  import opened Bytes
  import opened HistoryData

  type SeriesByKey = map<Key, Points>

  datatype Report = Report(key: Key, bits: u64)

  function Get(m: SeriesByKey, k: Key): Points {
    if k in m then m[k] else []
  }

  function Record(m: SeriesByKey, r: Report, now: int, cap: nat): SeriesByKey {
    m[r.key := LastN(Get(m, r.key) + [HistoryPoint(now, r.bits)], cap)]
  }

  ghost function RecordAll(m: SeriesByKey, rs: seq<Report>, now: int, cap: nat): SeriesByKey {
    if |rs| == 0 then m else Record(RecordAll(m, rs[..|rs| - 1], now, cap), rs[|rs| - 1], now, cap)
  }

  ghost function KeysOf(rs: seq<Report>): set<Key> {
    set i | 0 <= i < |rs| :: rs[i].key
  }

  predicate Recent(ps: Points, now: int, window: int) {
    |ps| > 0 && now - ps[|ps| - 1].at <= window
  }

  // A device missing from this tick is dropped once its newest sample has left the window.
  predicate Kept(k: Key, ps: Points, current: set<Key>, now: int, window: int) {
    k in current || Recent(ps, now, window)
  }

  ghost function Evict(m: SeriesByKey, current: set<Key>, now: int, window: int): SeriesByKey {
    if window <= 0 then m else map k | k in m && Kept(k, m[k], current, now, window) :: m[k]
  }

  datatype Tick = Tick(now: int, reports: seq<Report>)

  ghost function AfterTick(m: SeriesByKey, t: Tick, cap: nat, window: int): SeriesByKey {
    Evict(RecordAll(m, t.reports, t.now, cap), KeysOf(t.reports), t.now, window)
  }

  ghost function Run(ticks: seq<Tick>, cap: nat, window: int): SeriesByKey {
    if |ticks| == 0 then map[] else AfterTick(Run(ticks[..|ticks| - 1], cap, window), ticks[|ticks| - 1], cap, window)
  }

  ghost predicate Chronological(ticks: seq<Tick>) {
    forall i, j :: 0 <= i <= j < |ticks| ==> ticks[i].now <= ticks[j].now
  }

  // ------------------------------------------------------------------------------------------
  // Exact retention

  ghost predicate ReportedAt(ticks: seq<Tick>, i: int, k: Key)
    requires 0 <= i < |ticks|
  {
    k in KeysOf(ticks[i].reports)
  }

  // The last tick that reported k, -1 if none did.
  ghost function LastReport(ticks: seq<Tick>, k: Key): (i: int)
    ensures -1 <= i < |ticks|
  {
    if |ticks| == 0 then -1
    else if ReportedAt(ticks, |ticks| - 1, k) then |ticks| - 1
    else LastReport(ticks[..|ticks| - 1], k)
  }

  lemma {:induction false} LastReportIsLast(ticks: seq<Tick>, k: Key)
    ensures var i := LastReport(ticks, k);
            && (i >= 0 ==> ReportedAt(ticks, i, k))
            && (forall j :: i < j < |ticks| ==> !ReportedAt(ticks, j, k))
  {
    if |ticks| > 0 && !ReportedAt(ticks, |ticks| - 1, k) {
      var init := ticks[..|ticks| - 1];
      LastReportIsLast(init, k);
      assert forall j :: 0 <= j < |init| ==> (ReportedAt(ticks, j, k) <==> ReportedAt(init, j, k));
    }
  }

  lemma {:induction false} RecordAllAt(m: SeriesByKey, rs: seq<Report>, now: int, cap: nat, k: Key)
    requires cap >= 1
    ensures var m' := RecordAll(m, rs, now, cap);
            if k in KeysOf(rs) then k in m' && |m'[k]| > 0 && m'[k][|m'[k]| - 1].at == now
            else (k in m' <==> k in m) && (k in m ==> m'[k] == m[k])
  {
    if |rs| == 0 {
    } else {
      var init := rs[..|rs| - 1];
      RecordAllAt(m, init, now, cap, k);
      if rs[|rs| - 1].key != k {
        KeysOfSnoc(rs, k);
      }
    }
  }

  lemma KeysOfSnoc(rs: seq<Report>, k: Key)
    requires |rs| > 0 && rs[|rs| - 1].key != k
    ensures k in KeysOf(rs) <==> k in KeysOf(rs[..|rs| - 1])
  {
    if k in KeysOf(rs) {
      var i :| 0 <= i < |rs| && rs[i].key == k;
      assert rs[..|rs| - 1][i].key == k;
    }
  }

  // A retained device's newest point is its last report, and it is retained while that report is within the window.
  ghost predicate RetainedExactly(m: SeriesByKey, ticks: seq<Tick>, k: Key, window: int) {
    var i := LastReport(ticks, k);
    && (k in m <==> i >= 0 && ticks[|ticks| - 1].now - ticks[i].now <= window)
    && (k in m ==> |m[k]| > 0 && m[k][|m[k]| - 1].at == ticks[i].now)
  }

  lemma {:induction false} LastReportDecides(ticks: seq<Tick>, cap: nat, window: int, k: Key)
    requires Chronological(ticks) && cap >= 1 && window > 0
    ensures RetainedExactly(Run(ticks, cap, window), ticks, k, window)
  {
    if |ticks| == 0 {
    } else {
      var init, t := ticks[..|ticks| - 1], ticks[|ticks| - 1];
      LastReportDecides(init, cap, window, k);
      RecordAllAt(Run(init, cap, window), t.reports, t.now, cap, k);
    }
  }

  // After every tick the map holds exactly the devices reported within the window.
  lemma RetentionIsExact(ticks: seq<Tick>, cap: nat, window: int, k: Key)
    requires Chronological(ticks) && cap >= 1 && window > 0 && |ticks| > 0
    ensures k in Run(ticks, cap, window)
       <==> exists i :: 0 <= i < |ticks| && ReportedAt(ticks, i, k) && ticks[|ticks| - 1].now - ticks[i].now <= window
  {
    LastReportDecides(ticks, cap, window, k);
    LastReportIsLast(ticks, k);
  }

  // The bounded buffers hold the newest points of what unbounded ones would: capacity never affects eviction.
  ghost predicate Truncates(m: SeriesByKey, full: SeriesByKey, cap: nat) {
    m.Keys == full.Keys && forall k :: k in m ==> m[k] == LastN(full[k], cap) && |full[k]| > 0
  }

  // The same run without a bound on the buffers.
  ghost function FullRun(ticks: seq<Tick>, window: int): SeriesByKey {
    if |ticks| == 0 then map[]
    else
      var m, t := FullRun(ticks[..|ticks| - 1], window), ticks[|ticks| - 1];
      Evict(FullRecordAll(m, t.reports, t.now), KeysOf(t.reports), t.now, window)
  }

  ghost function FullRecordAll(m: SeriesByKey, rs: seq<Report>, now: int): SeriesByKey {
    if |rs| == 0 then m
    else
      var m', r := FullRecordAll(m, rs[..|rs| - 1], now), rs[|rs| - 1];
      m'[r.key := Get(m', r.key) + [HistoryPoint(now, r.bits)]]
  }

  lemma {:induction false} RecordAllTruncates(m: SeriesByKey, full: SeriesByKey, rs: seq<Report>, now: int, cap: nat)
    requires Truncates(m, full, cap) && cap >= 1
    ensures Truncates(RecordAll(m, rs, now, cap), FullRecordAll(full, rs, now), cap)
  {
    if |rs| == 0 {
    } else {
      var init, r := rs[..|rs| - 1], rs[|rs| - 1];
      RecordAllTruncates(m, full, init, now, cap);
      LastNAppend(Get(FullRecordAll(full, init, now), r.key), [HistoryPoint(now, r.bits)], cap);
    }
  }

  lemma EvictTruncates(m: SeriesByKey, full: SeriesByKey, current: set<Key>, now: int, window: int, cap: nat)
    requires Truncates(m, full, cap) && cap >= 1
    ensures Truncates(Evict(m, current, now, window), Evict(full, current, now, window), cap)
  {
    assert forall k :: k in m ==> (Recent(m[k], now, window) <==> Recent(full[k], now, window));
  }

  lemma {:induction false} CapacityOnlyTruncates(ticks: seq<Tick>, cap: nat, window: int)
    requires cap >= 1
    ensures Truncates(Run(ticks, cap, window), FullRun(ticks, window), cap)
  {
    if |ticks| == 0 {
    } else {
      var init, t := ticks[..|ticks| - 1], ticks[|ticks| - 1];
      CapacityOnlyTruncates(init, cap, window);
      var m, full := Run(init, cap, window), FullRun(init, window);
      RecordAllTruncates(m, full, t.reports, t.now, cap);
      EvictTruncates(RecordAll(m, t.reports, t.now, cap), FullRecordAll(full, t.reports, t.now), KeysOf(t.reports),
                     t.now, window, cap);
    }
  }

  // The points that reports of device k at time now add to its series.
  function ReportedOne(r: Report, k: Key, now: int): Points {
    if r.key == k then [HistoryPoint(now, r.bits)] else []
  }

  function Reported(rs: seq<Report>, k: Key, now: int): Points {
    if |rs| == 0 then [] else Reported(rs[..|rs| - 1], k, now) + ReportedOne(rs[|rs| - 1], k, now)
  }

  lemma RecordAdds(m: SeriesByKey, r: Report, now: int, cap: nat, k: Key)
    requires |Get(m, k)| <= cap
    ensures Get(Record(m, r, now, cap), k) == LastN(Get(m, k) + ReportedOne(r, k, now), cap)
  {
    assert Get(m, k) + [] == Get(m, k);
  }

  lemma LastNBounded<T>(s: seq<T>, n: nat)
    ensures |LastN(s, n)| <= n && (|s| <= n ==> LastN(s, n) == s)
  {
  }

  lemma {:induction false} RecordAllAdds(m: SeriesByKey, rs: seq<Report>, now: int, cap: nat, k: Key)
    requires |Get(m, k)| <= cap
    ensures Get(RecordAll(m, rs, now, cap), k) == LastN(Get(m, k) + Reported(rs, k, now), cap)
  {
    hide Record, LastN, Get, ReportedOne;
    if |rs| == 0 {
      LastNBounded(Get(m, k), cap);
      assert Get(m, k) + [] == Get(m, k);
    } else {
      var init, r := rs[..|rs| - 1], rs[|rs| - 1];
      RecordAllAdds(m, init, now, cap, k);
      LastNBounded(Get(m, k) + Reported(init, k, now), cap);
      RecordAdds(RecordAll(m, init, now, cap), r, now, cap, k);
      LastNAppend(Get(m, k) + Reported(init, k, now), ReportedOne(r, k, now), cap);
      assert Get(m, k) + Reported(rs, k, now) == Get(m, k) + Reported(init, k, now) + ReportedOne(r, k, now);
    }
  }

  // ------------------------------------------------------------------------------------------
  // Paired series (disk read and write, network receive and transmit)

  function Times(ps: Points): seq<int> {
    seq(|ps|, i requires 0 <= i < |ps| => ps[i].at)
  }

  ghost predicate Paired(a: SeriesByKey, b: SeriesByKey) {
    a.Keys == b.Keys && forall k :: k in a ==> Times(a[k]) == Times(b[k])
  }

  ghost predicate SameKeys(rs: seq<Report>, rs': seq<Report>) {
    |rs| == |rs'| && forall i :: 0 <= i < |rs| ==> rs[i].key == rs'[i].key
  }

  lemma TimesLastN(ps: Points, qs: Points, now: int, x: u64, y: u64, cap: nat)
    requires Times(ps) == Times(qs)
    ensures Times(LastN(ps + [HistoryPoint(now, x)], cap)) == Times(LastN(qs + [HistoryPoint(now, y)], cap))
  {
    assert |ps| == |Times(ps)| == |qs|;
    forall i | 0 <= i < |ps|
      ensures ps[i].at == qs[i].at
    {
      assert Times(ps)[i] == Times(qs)[i];
    }
  }

  lemma RecordPaired(a: SeriesByKey, b: SeriesByKey, r: Report, r': Report, now: int, cap: nat)
    requires Paired(a, b) && r.key == r'.key
    ensures Paired(Record(a, r, now, cap), Record(b, r', now, cap))
  {
    TimesLastN(Get(a, r.key), Get(b, r.key), now, r.bits, r'.bits, cap);
    hide LastN, Times;
  }

  lemma {:induction false} RecordAllPaired(a: SeriesByKey, b: SeriesByKey, rs: seq<Report>, rs': seq<Report>, now: int,
                                           cap: nat)
    requires Paired(a, b) && SameKeys(rs, rs')
    ensures Paired(RecordAll(a, rs, now, cap), RecordAll(b, rs', now, cap))
  {
    hide Paired, Record;
    if |rs| == 0 {
    } else {
      var n := |rs| - 1;
      RecordAllPaired(a, b, rs[..n], rs'[..n], now, cap);
      RecordPaired(RecordAll(a, rs[..n], now, cap), RecordAll(b, rs'[..n], now, cap), rs[n], rs'[n], now, cap);
    }
  }

  lemma EvictPaired(a: SeriesByKey, b: SeriesByKey, current: set<Key>, now: int, window: int)
    requires Paired(a, b)
    ensures Paired(Evict(a, current, now, window), Evict(b, current, now, window))
  {
    forall k | k in a
      ensures Recent(a[k], now, window) <==> Recent(b[k], now, window)
    {
      assert |a[k]| == |Times(a[k])| == |b[k]|;
      if |a[k]| > 0 {
        assert Times(a[k])[|a[k]| - 1] == Times(b[k])[|a[k]| - 1];
      }
    }
  }

  // The two series of a device come, grow and go together.
  lemma TickKeepsPairs(a: SeriesByKey, b: SeriesByKey, now: int, rs: seq<Report>, rs': seq<Report>, cap: nat,
                       window: int)
    requires Paired(a, b) && SameKeys(rs, rs')
    ensures Paired(AfterTick(a, Tick(now, rs), cap, window), AfterTick(b, Tick(now, rs'), cap, window))
  {
    RecordAllPaired(a, b, rs, rs', now, cap);
    assert KeysOf(rs) == KeysOf(rs');
    EvictPaired(RecordAll(a, rs, now, cap), RecordAll(b, rs', now, cap), KeysOf(rs), now, window);
  }

  lemma {:induction false} PairsStayEqual(ticks: seq<Tick>, ticks': seq<Tick>, cap: nat, window: int)
    requires |ticks| == |ticks'|
    requires forall i :: 0 <= i < |ticks| ==>
               ticks[i].now == ticks'[i].now && SameKeys(ticks[i].reports, ticks'[i].reports)
    ensures Paired(Run(ticks, cap, window), Run(ticks', cap, window))
  {
    if |ticks| == 0 {
    } else {
      var n := |ticks| - 1;
      PairsStayEqual(ticks[..n], ticks'[..n], cap, window);
      TickKeepsPairs(Run(ticks[..n], cap, window), Run(ticks'[..n], cap, window), ticks[n].now, ticks[n].reports,
                     ticks'[n].reports, cap, window);
    }
  }
}
