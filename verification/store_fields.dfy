/** Which value lands in which series: a tick and an import, said of the fields of what is measured and restored. */
module StoreFields {
  import opened Seqs
  import opened Bytes
  import opened HistoryData
  import opened Devices
  import opened Trim
  import opened StoreValues

  // No other report of the tick names the same device.
  ghost predicate OnlyReport(rs: seq<Report>, i: nat) {
    i < |rs| && forall j :: 0 <= j < |rs| && j != i ==> rs[j].key != rs[i].key
  }

  lemma {:induction false} RecordedOnce(m: SeriesByKey, rs: seq<Report>, now: int, cap: nat, i: nat)
    requires OnlyReport(rs, i) && cap >= 1
    ensures var m', k := RecordAll(m, rs, now, cap), rs[i].key;
            k in m' && m'[k] == LastN(Get(m, k) + [HistoryPoint(now, rs[i].bits)], cap)
  {
    var init, last := rs[..|rs| - 1], rs[|rs| - 1];
    if i == |rs| - 1 {
      RecordAllAt(m, init, now, cap, last.key);
    } else {
      RecordedOnce(m, init, now, cap, i);
    }
  }

  lemma TickedOnce(m: SeriesByKey, t: Devices.Tick, cap: nat, window: int, i: nat)
    requires OnlyReport(t.reports, i) && cap >= 1
    ensures var m', k := AfterTick(m, t, cap, window), t.reports[i].key;
            k in m' && m'[k] == LastN(Get(m, k) + [HistoryPoint(t.now, t.reports[i].bits)], cap)
  {
    RecordedOnce(m, t.reports, t.now, cap, i);
    assert t.reports[i].key in KeysOf(t.reports);
  }

  // The series of device k ends with value, taken at now, after what it had.
  ghost predicate Appends(before: SeriesByKey, after: SeriesByKey, k: Key, now: int, value: u64, cap: nat) {
    k in after && after[k] == LastN(Get(before, k) + [HistoryPoint(now, value)], cap)
  }

  // A mount reported by a tick: its usage goes to the disk series.
  lemma DiskRecorded(h: History, m: Measurement, cap: nat, window: int, i: nat)
    requires h.Valid() && m.Valid() && cap >= 1 && i < |m.disks|
    requires forall j :: 0 <= j < |m.disks| && j != i ==> m.disks[j].key != m.disks[i].key
    ensures Appends(h.device[0], Ticked(h, m, cap, window).device[0], m.disks[i].key, m.now, m.disks[i].bits, cap)
  {
    TickedOnce(h.device[0], Devices.Tick(m.now, m.disks), cap, window, i);
  }

  // An interface: what it received goes to the rx series, what it sent to the tx series.
  lemma InterfaceRecorded(h: History, m: Measurement, cap: nat, window: int, i: nat)
    requires h.Valid() && m.Valid() && cap >= 1 && i < |m.nets|
    requires forall j :: 0 <= j < |m.nets| && j != i ==> m.nets[j].key != m.nets[i].key
    ensures var h', r := Ticked(h, m, cap, window), m.nets[i];
            && Appends(h.device[1], h'.device[1], r.key, m.now, r.first, cap)
            && Appends(h.device[2], h'.device[2], r.key, m.now, r.second, cap)
  {
    var rs, rs' := Firsts(m.nets), Seconds(m.nets);
    assert forall j :: 0 <= j < |m.nets| ==> rs[j].key == m.nets[j].key && rs'[j].key == m.nets[j].key;
    TickedOnce(h.device[1], Devices.Tick(m.now, rs), cap, window, i);
    TickedOnce(h.device[2], Devices.Tick(m.now, rs'), cap, window, i);
    hide AfterTick, LastN;
  }

  // A block device: what was read goes to the read series, what was written to the write series.
  lemma BlockDeviceRecorded(h: History, m: Measurement, cap: nat, window: int, i: nat)
    requires h.Valid() && m.Valid() && cap >= 1 && i < |m.diskIO|
    requires forall j :: 0 <= j < |m.diskIO| && j != i ==> m.diskIO[j].key != m.diskIO[i].key
    ensures var h', r := Ticked(h, m, cap, window), m.diskIO[i];
            && Appends(h.device[3], h'.device[3], r.key, m.now, r.first, cap)
            && Appends(h.device[4], h'.device[4], r.key, m.now, r.second, cap)
  {
    var rs, rs' := Firsts(m.diskIO), Seconds(m.diskIO);
    assert forall j :: 0 <= j < |m.diskIO| ==> rs[j].key == m.diskIO[j].key && rs'[j].key == m.diskIO[j].key;
    TickedOnce(h.device[3], Devices.Tick(m.now, rs), cap, window, i);
    TickedOnce(h.device[4], Devices.Tick(m.now, rs'), cap, window, i);
    hide AfterTick, LastN;
  }

  // A device not reported keeps its series unless its newest point is older than the window, which evicts it.
  lemma UnreportedDevice(h: History, m: Measurement, cap: nat, window: int, d: nat, k: Key)
    requires h.Valid() && m.Valid() && cap >= 1 && d < DEVICES && k in h.device[d] && |h.device[d][k]| > 0
    requires d == 0 ==> forall j :: 0 <= j < |m.disks| ==> m.disks[j].key != k
    requires d == 1 || d == 2 ==> forall j :: 0 <= j < |m.nets| ==> m.nets[j].key != k
    requires d == 3 || d == 4 ==> forall j :: 0 <= j < |m.diskIO| ==> m.diskIO[j].key != k
    ensures var after, ps := Ticked(h, m, cap, window).device[d], h.device[d][k];
            && (k in after <==> window <= 0 || m.now - ps[|ps| - 1].at <= window)
            && (k in after ==> after[k] == ps)
  {
    RecordAllAt(h.device[d], m.Reports(d), m.now, cap, k);
    assert k !in KeysOf(m.Reports(d));
  }

  // ------------------------------------------------------------------------------------------
  // Import

  // What the cutoff lets through: with a history window what is not older than it, else anything since year 1.
  ghost predicate Restorable(p: HistoryPoint, now: int, historyWindow: int) {
    if historyWindow > 0 then now - p.at <= historyWindow else p.at >= -62_135_596_800_000_000_000
  }

  lemma SuffixKeeps(ps: Points, now: int, historyWindow: int, p: HistoryPoint)
    requires Sorted(ps)
    ensures p in Suffix(ps, NotBefore(Cutoff(now, historyWindow))) <==> p in ps && Restorable(p, now, historyWindow)
  {
    var keep := NotBefore(Cutoff(now, historyWindow));
    assert keep(p) <==> Restorable(p, now, historyWindow);
    SuffixIsFilter(ps, keep);
    hide Suffix, Restorable, Cutoff;
    if p in Filter(ps, keep) {
      FilterIn(ps, keep, p);
    } else if p in ps && keep(p) {
      FilterHas(ps, keep, p);
      assert false;
    }
  }

  // Importing a history that fits: exactly the points recent enough are there afterwards.
  lemma ImportedScalar(h: History, src: History, now: int, historyWindow: int, cap: nat, k: nat, p: HistoryPoint)
    requires h.Valid() && src.Valid() && k < SCALARS && Sorted(src.scalar[k]) && |src.scalar[k]| <= cap
    ensures p in Imported(h, src, Cutoff(now, historyWindow), cap).scalar[k]
       <==> p in src.scalar[k] && Restorable(p, now, historyWindow)
  {
    SuffixKeeps(src.scalar[k], now, historyWindow, p);
  }

  // Likewise of every device that keeps a point; one that keeps none is left as it was.
  lemma ImportedDevice(h: History, src: History, now: int, historyWindow: int, cap: nat, d: nat, k: Key)
    requires h.Valid() && src.Valid() && d < DEVICES && k in src.device[d]
    requires Sorted(src.device[d][k]) && |src.device[d][k]| <= cap
    ensures var after, ps := Imported(h, src, Cutoff(now, historyWindow), cap).device[d], src.device[d][k];
            if exists p :: p in ps && Restorable(p, now, historyWindow) then
              k in after && forall p :: p in after[k] <==> p in ps && Restorable(p, now, historyWindow)
            else
              (k in after <==> k in h.device[d]) && (k in after ==> after[k] == h.device[d][k])
  {
    var ps, cutoff := src.device[d][k], Cutoff(now, historyWindow);
    var kept := Suffix(ps, NotBefore(cutoff));
    forall p
      ensures p in kept <==> p in ps && Restorable(p, now, historyWindow)
    {
      SuffixKeeps(ps, now, historyWindow, p);
    }
    assert |kept| <= cap && LastN(kept, cap) == kept;
    assert kept != [] ==> kept[0] in kept;
    hide Restorable, Suffix, LastN;
  }
}
