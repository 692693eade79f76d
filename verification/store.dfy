/** The collector's history buffers: the seven scalar ring buffers and the five device maps. */
module Store {
  import opened Seqs
  import opened Bytes
  import opened HistoryData
  import opened Ring
  import opened Devices
  import opened SeriesMaps
  import opened Trim
  import opened StoreValues

  class ScalarBuffers {
    const capacity: nat
    const bufs: seq<Buffer>
    ghost var Repr: set<object>
    ghost var slotOf: map<object, nat>  // which scalar each buffer and its array belong to

    ghost predicate Owns(i: nat, b: Buffer)
      reads this, b
    {
      && b.data in Repr && b.Valid() && b.capacity == capacity
      && b in slotOf && slotOf[b] == i && b.data in slotOf && slotOf[b.data] == i
    }

    ghost predicate Valid()
      reads this, Repr
      ensures Valid() ==> this in Repr
    {
      && this in Repr && |bufs| == SCALARS
      && slotOf.Keys <= Repr
      && (forall i :: 0 <= i < SCALARS ==> bufs[i] in Repr && Owns(i, bufs[i]))
    }

    ghost function Contents(): (s: seq<Points>)
      requires Valid()
      reads this, Repr
      ensures |s| == SCALARS
    {
      seq(SCALARS, i requires 0 <= i < SCALARS && Valid() reads this, Repr => bufs[i].Contents())
    }

    constructor (capacity: nat)
      requires capacity >= 1
      ensures Valid() && fresh(Repr) && this.capacity == capacity
      ensures forall i :: 0 <= i < SCALARS ==> Contents()[i] == []
    {
      var bs: seq<Buffer> := [];
      ghost var repr: set<object>, slots: map<object, nat> := {}, map[];
      for i := 0 to SCALARS
        invariant |bs| == i && slots.Keys <= repr && fresh(repr)
        invariant forall j :: 0 <= j < i ==>
                    && bs[j] in slots && slots[bs[j]] == j && bs[j].data in slots && slots[bs[j].data] == j
                    && bs[j].Valid() && bs[j].capacity == capacity && bs[j].Contents() == []
      {
        var b := new RingBuffer(capacity);
        bs := bs + [b];
        repr := repr + {b, b.data};
        slots := slots[b := i][b.data := i];
      }
      this.capacity := capacity;
      bufs := bs;
      Repr := repr + {this};
      slotOf := slots;
    }

    method AddAt(i: nat, p: HistoryPoint)
      requires Valid() && i < SCALARS
      modifies bufs[i], bufs[i].data
      ensures Valid() && Repr == old(Repr)
      ensures Contents() == old(Contents())[i := LastN(old(Contents())[i] + [p], capacity)]
    {
      assert forall j :: 0 <= j < SCALARS && j != i ==>
               slotOf[bufs[j]] != slotOf[bufs[i]] && slotOf[bufs[j].data] != slotOf[bufs[i].data];
      hide RingBuffer.Valid, RingBuffer.Contents, LastN;
      bufs[i].Add(p);
    }

    method FillAt(i: nat, points: Points)
      requires Valid() && i < SCALARS
      modifies this, bufs[i]
      ensures Valid() && fresh(Repr - old(Repr))
      ensures Contents() == old(Contents())[i := LastN(points, capacity)]
    {
      bufs[i].Fill(points);
      Repr := Repr + {bufs[i].data};
      slotOf := slotOf[bufs[i].data := i];
    }

    method AddAll(now: int, values: seq<u64>)
      requires Valid() && |values| == SCALARS
      modifies Repr
      ensures Valid() && Repr == old(Repr)
      ensures forall i :: 0 <= i < SCALARS ==>
                Contents()[i] == LastN(old(Contents())[i] + [HistoryPoint(now, values[i])], capacity)
    {
      hide RingBuffer.Valid, RingBuffer.Contents, LastN, Contents;
      ghost var before := Contents();
      for k := 0 to SCALARS
        invariant Valid() && Repr == old(Repr)
        invariant forall i :: 0 <= i < k ==>
                    Contents()[i] == LastN(before[i] + [HistoryPoint(now, values[i])], capacity)
        invariant forall i :: k <= i < SCALARS ==> Contents()[i] == before[i]
      {
        AddAt(k, HistoryPoint(now, values[k]));
      }
    }

    method FillAll(src: seq<Points>, keep: Keep)
      requires Valid() && |src| == SCALARS
      modifies Repr
      ensures Valid() && fresh(Repr - old(Repr))
      ensures forall i :: 0 <= i < SCALARS ==> Contents()[i] == LastN(Suffix(src[i], keep), capacity)
    {
      for k := 0 to SCALARS
        invariant Valid() && fresh(Repr - old(Repr))
        invariant forall i :: 0 <= i < k ==> Contents()[i] == LastN(Suffix(src[i], keep), capacity)
      {
        var points := DropPrefix(src[k], keep);
        FillAt(k, points);
      }
    }

    method Snapshot() returns (out: seq<Points>)
      requires Valid()
      ensures out == Contents()
    {
      out := [];
      for k := 0 to SCALARS
        invariant out == Contents()[..k]
      {
        var points := bufs[k].Snapshot();
        out := out + [points];
      }
    }
  }

  // The keys of the devices in a list of reports.
  method Present(rs: seq<Report>) returns (keys: set<Key>)
    ensures keys == KeysOf(rs)
  {
    keys := {};
    for i := 0 to |rs|
      invariant keys == KeysOf(rs[..i])
    {
      assert KeysOf(rs[..i + 1]) == KeysOf(rs[..i]) + {rs[i].key};
      keys := keys + {rs[i].key};
    }
    assert rs[..|rs|] == rs;
  }

  method RecordReports(m: SeriesMap, reports: seq<Report>, now: int)
    requires m.Valid() && m.capacity >= 1
    modifies m.Repr
    ensures m.Valid() && fresh(m.Repr - old(m.Repr))
    ensures m.Contents() == RecordAll(old(m.Contents()), reports, now, m.capacity)
  {
    for i := 0 to |reports|
      invariant m.Valid() && fresh(m.Repr - old(m.Repr))
      invariant m.Contents() == RecordAll(old(m.Contents()), reports[..i], now, m.capacity)
    {
      assert reports[..i + 1][..i] == reports[..i];
      m.AddReport(reports[i], now);
    }
    assert reports[..|reports|] == reports;
  }

  // Records this tick's reports of one device kind, then evicts what has left the window.
  method TickMap(m: SeriesMap, reports: seq<Report>, now: int, window: int)
    requires m.Valid() && m.capacity >= 1
    modifies m.Repr
    ensures m.Valid() && fresh(m.Repr - old(m.Repr))
    ensures m.Contents() == AfterTick(old(m.Contents()), Devices.Tick(now, reports), m.capacity, window)
  {
    hide SeriesMap.Valid, SeriesMap.Contents, RecordAll;
    RecordReports(m, reports, now);
    var current := Present(reports);
    m.EvictStaleSeries(current, now, window);
  }

  ghost function Rest(full: SeriesByKey, todo: set<Key>): SeriesByKey {
    map k | k in full && k !in todo :: full[k]
  }

  lemma RestNext(before: SeriesByKey, full: SeriesByKey, todo: set<Key>, k: Key)
    requires k in todo
    ensures before + Rest(full, todo - {k})
         == if k in full then (before + Rest(full, todo))[k := full[k]] else before + Rest(full, todo)
  {
    assert Rest(full, todo - {k}) == if k in full then Rest(full, todo)[k := full[k]] else Rest(full, todo);
  }

  method ImportOne(dst: SeriesMap, k: Key, points: Points, keep: Keep)
    requires dst.Valid() && dst.capacity >= 1
    modifies dst.Repr
    ensures dst.Valid() && fresh(dst.Repr - old(dst.Repr))
    ensures dst.Contents() == if Suffix(points, keep) == [] then old(dst.Contents())
                              else old(dst.Contents())[k := LastN(Suffix(points, keep), dst.capacity)]
  {
    var kept := DropPrefix(points, keep);
    if |kept| > 0 {
      dst.ImportSeries(k, kept);
    }
  }

  // Drops what lies before the cutoff and replaces the buffers of the devices that keep anything.
  method ImportMap(dst: SeriesMap, src: map<Key, Points>, keep: Keep)
    requires dst.Valid() && dst.capacity >= 1
    modifies dst.Repr
    ensures dst.Valid() && fresh(dst.Repr - old(dst.Repr))
    ensures dst.Contents() == Merged(old(dst.Contents()), src, keep, dst.capacity)
  {
    hide SeriesMap.Valid, SeriesMap.Contents;
    ghost var before, full := dst.Contents(), LastNMap(SuffixMap(src, keep), dst.capacity);
    var todo := src.Keys;
    assert Rest(full, todo) == map[] && before + map[] == before;
    while todo != {}
      invariant todo <= src.Keys
      invariant dst.Valid() && fresh(dst.Repr - old(dst.Repr))
      invariant dst.Contents() == before + Rest(full, todo)
    {
      var k :| k in todo;
      RestNext(before, full, todo, k);
      ImportOne(dst, k, src[k], keep);
      todo := todo - {k};
    }
    assert Rest(full, {}) == full;
  }

  // Two maps a device is recorded in at once: disk read and write, or network receive and transmit.
  class DevicePair {
    const capacity: nat
    const first: SeriesMap
    const second: SeriesMap
    ghost var Repr: set<object>

    ghost predicate Valid()
      reads this, Repr
      ensures Valid() ==> this in Repr
    {
      && this in Repr && first in Repr && second in Repr
      && first.Repr <= Repr && second.Repr <= Repr
      && this !in first.Repr && this !in second.Repr && first.Repr !! second.Repr
      && first.Valid() && second.Valid() && first.capacity == second.capacity == capacity >= 1
    }

    ghost function Contents(): (d: seq<SeriesByKey>)
      requires Valid()
      reads this, Repr
      ensures |d| == 2
    {
      [first.Contents(), second.Contents()]
    }

    constructor (capacity: nat)
      requires capacity >= 1
      ensures Valid() && fresh(Repr) && this.capacity == capacity
      ensures Contents() == [map[], map[]]
    {
      this.capacity := capacity;
      var a := new SeriesMap(capacity);
      var b := new SeriesMap(capacity);
      first, second := a, b;
      Repr := {this} + a.Repr + b.Repr;
    }

    method Tick(reports: seq<PairReport>, now: int, window: int)
      requires Valid()
      modifies Repr
      ensures Valid() && fresh(Repr - old(Repr))
      ensures Contents()[0] == AfterTick(old(Contents())[0], Devices.Tick(now, Firsts(reports)), capacity, window)
      ensures Contents()[1] == AfterTick(old(Contents())[1], Devices.Tick(now, Seconds(reports)), capacity, window)
    {
      hide SeriesMap.Valid, SeriesMap.Contents, AfterTick;
      TickMap(first, Firsts(reports), now, window);
      TickMap(second, Seconds(reports), now, window);
      Repr := Repr + first.Repr + second.Repr;
    }

    method Import(src1: map<Key, Points>, src2: map<Key, Points>, keep: Keep)
      requires Valid()
      modifies Repr
      ensures Valid() && fresh(Repr - old(Repr))
      ensures Contents()[0] == Merged(old(Contents())[0], src1, keep, capacity)
      ensures Contents()[1] == Merged(old(Contents())[1], src2, keep, capacity)
    {
      hide SeriesMap.Valid, SeriesMap.Contents, Merged;
      ImportMap(first, src1, keep);
      ImportMap(second, src2, keep);
      Repr := Repr + first.Repr + second.Repr;
    }

    method Snapshot() returns (d: seq<SeriesByKey>)
      requires Valid()
      ensures d == Contents()
    {
      hide SeriesMap.Valid, SeriesMap.Contents;
      var d0 := first.Snapshot();
      var d1 := second.Snapshot();
      d := [d0, d1];
    }
  }

  // The five device maps, as two pairs and the disk usage map.
  class DeviceBuffers {
    const disk: SeriesMap
    const net: DevicePair
    const io: DevicePair
    ghost var Repr: set<object>

    ghost predicate Valid()
      reads this, Repr
      ensures Valid() ==> this in Repr
    {
      && this in Repr && disk in Repr && net in Repr && io in Repr
      && disk.Repr <= Repr && net.Repr <= Repr && io.Repr <= Repr
      && this !in disk.Repr && this !in net.Repr && this !in io.Repr
      && disk.Repr !! net.Repr !! io.Repr
      && disk.Valid() && net.Valid() && io.Valid()
      && disk.capacity == net.capacity == io.capacity >= 1
    }

    ghost function Contents(): (d: seq<SeriesByKey>)
      requires Valid()
      reads this, Repr
      ensures |d| == DEVICES
    {
      [disk.Contents()] + net.Contents() + io.Contents()
    }

    constructor (capacity: nat)
      requires capacity >= 1
      ensures Valid() && fresh(Repr) && disk.capacity == capacity
      ensures Contents() == [map[], map[], map[], map[], map[]]
    {
      hide SeriesMap.Valid, SeriesMap.Contents, DevicePair.Valid, DevicePair.Contents;
      var a := new SeriesMap(capacity);
      var b := new DevicePair(capacity);
      var c := new DevicePair(capacity);
      disk, net, io := a, b, c;
      Repr := {this} + a.Repr + b.Repr + c.Repr;
    }

    method Tick(disks: seq<Report>, nets: seq<PairReport>, diskIO: seq<PairReport>, now: int, window: int)
      requires Valid()
      modifies Repr
      ensures Valid() && fresh(Repr - old(Repr))
      ensures Contents()[0] == AfterTick(old(Contents())[0], Devices.Tick(now, disks), disk.capacity, window)
      ensures Contents()[1] == AfterTick(old(Contents())[1], Devices.Tick(now, Firsts(nets)), disk.capacity, window)
      ensures Contents()[2] == AfterTick(old(Contents())[2], Devices.Tick(now, Seconds(nets)), disk.capacity, window)
      ensures Contents()[3] == AfterTick(old(Contents())[3], Devices.Tick(now, Firsts(diskIO)), disk.capacity, window)
      ensures Contents()[4] == AfterTick(old(Contents())[4], Devices.Tick(now, Seconds(diskIO)), disk.capacity, window)
    {
      hide SeriesMap.Valid, SeriesMap.Contents, DevicePair.Valid, DevicePair.Contents, AfterTick;
      TickMap(disk, disks, now, window);
      net.Tick(nets, now, window);
      io.Tick(diskIO, now, window);
      Repr := Repr + disk.Repr + net.Repr + io.Repr;
    }

    method Import(src: seq<SeriesByKey>, keep: Keep)
      requires Valid() && |src| == DEVICES
      modifies Repr
      ensures Valid() && fresh(Repr - old(Repr))
      ensures Contents()[0] == Merged(old(Contents())[0], src[0], keep, disk.capacity)
      ensures Contents()[1] == Merged(old(Contents())[1], src[1], keep, disk.capacity)
      ensures Contents()[2] == Merged(old(Contents())[2], src[2], keep, disk.capacity)
      ensures Contents()[3] == Merged(old(Contents())[3], src[3], keep, disk.capacity)
      ensures Contents()[4] == Merged(old(Contents())[4], src[4], keep, disk.capacity)
    {
      hide SeriesMap.Valid, SeriesMap.Contents, DevicePair.Valid, DevicePair.Contents, Merged;
      ImportMap(disk, src[0], keep);
      net.Import(src[1], src[2], keep);
      io.Import(src[3], src[4], keep);
      Repr := Repr + disk.Repr + net.Repr + io.Repr;
    }

    method Snapshot() returns (d: seq<SeriesByKey>)
      requires Valid()
      ensures d == Contents()
    {
      hide SeriesMap.Valid, SeriesMap.Contents, DevicePair.Valid, DevicePair.Contents;
      var d0 := disk.Snapshot();
      var d1 := net.Snapshot();
      var d2 := io.Snapshot();
      d := [d0] + d1 + d2;
    }
  }

  // Everything the collector retains, and the number of fast ticks that have recorded into it.
  class HistoryStore {
    const capacity: nat
    const evictWindow: int
    const scalars: ScalarBuffers
    const devices: DeviceBuffers
    var generation: nat
    ghost var Repr: set<object>

    ghost predicate Valid()
      reads this, Repr
      ensures Valid() ==> this in Repr
    {
      && this in Repr && scalars in Repr && devices in Repr
      && scalars.Repr <= Repr && devices.Repr <= Repr
      && this !in scalars.Repr && this !in devices.Repr && scalars.Repr !! devices.Repr
      && scalars.Valid() && devices.Valid()
      && scalars.capacity == devices.disk.capacity == capacity >= 1
    }

    ghost function Contents(): (h: History)
      requires Valid()
      reads this, Repr
      ensures h.Valid()
    {
      History(scalars.Contents(), devices.Contents())
    }

    constructor (historyCapacity: int, fastInterval: int)
      ensures Valid() && fresh(Repr)
      ensures capacity == (if historyCapacity < 1 then 1 else historyCapacity)
              && evictWindow == fastInterval * historyCapacity
      ensures Contents() == EmptyHistory() && generation == 0
    {
      hide ScalarBuffers.Valid, ScalarBuffers.Contents, DeviceBuffers.Valid, DeviceBuffers.Contents;
      var cap: nat := if historyCapacity < 1 then 1 else historyCapacity;
      var a := new ScalarBuffers(cap);
      var b := new DeviceBuffers(cap);
      capacity := cap;
      evictWindow := fastInterval * historyCapacity;
      scalars, devices := a, b;
      generation := 0;
      Repr := {this} + a.Repr + b.Repr;
    }

    // The history part of a fast tick.
    method FastTick(m: Measurement)
      requires Valid() && m.Valid()
      modifies Repr
      ensures Valid() && fresh(Repr - old(Repr))
      ensures Contents() == Ticked(old(Contents()), m, capacity, evictWindow)
      ensures generation == old(generation) + 1
    {
      hide ScalarBuffers.Valid, ScalarBuffers.Contents, DeviceBuffers.Valid, DeviceBuffers.Contents, AfterTick;
      scalars.AddAll(m.now, m.scalars);
      devices.Tick(m.disks, m.nets, m.diskIO, m.now, evictWindow);
      generation := generation + 1;
      Repr := Repr + scalars.Repr + devices.Repr;
      assert Contents().scalar == Ticked(old(Contents()), m, capacity, evictWindow).scalar;
      assert Contents().device == Ticked(old(Contents()), m, capacity, evictWindow).device;
    }

    // Restores a decoded history, dropping points from before the history window. No tick is counted.
    method ImportHistory(h: History, now: int, historyWindow: int)
      requires Valid() && h.Valid()
      modifies Repr
      ensures Valid() && fresh(Repr - old(Repr))
      ensures Contents() == Imported(old(Contents()), h, Cutoff(now, historyWindow), capacity)
      ensures generation == old(generation)
    {
      hide ScalarBuffers.Valid, ScalarBuffers.Contents, DeviceBuffers.Valid, DeviceBuffers.Contents, Merged;
      var cutoff := Cutoff(now, historyWindow);
      scalars.FillAll(h.scalar, NotBefore(cutoff));
      devices.Import(h.device, NotBefore(cutoff));
      Repr := Repr + scalars.Repr + devices.Repr;
      assert Contents().scalar == Imported(old(Contents()), h, cutoff, capacity).scalar;
      assert Contents().device == Imported(old(Contents()), h, cutoff, capacity).device;
    }

    method Snapshot() returns (h: History)
      requires Valid()
      ensures h == Contents()
    {
      var s := scalars.Snapshot();
      var d := devices.Snapshot();
      h := History(s, d);
    }
  }
}
