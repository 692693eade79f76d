/** The collector's retained history as a value: what a fast tick and an import do to it. */
module StoreValues {
  import opened Seqs
  import opened Bytes
  import opened HistoryData
  import opened Devices
  import opened Trim

  // One device reporting two rates at once (read and write, or receive and transmit).
  datatype PairReport = PairReport(key: Key, first: u64, second: u64)

  function Firsts(rs: seq<PairReport>): seq<Report> {
    seq(|rs|, i requires 0 <= i < |rs| => Report(rs[i].key, rs[i].first))
  }

  function Seconds(rs: seq<PairReport>): seq<Report> {
    seq(|rs|, i requires 0 <= i < |rs| => Report(rs[i].key, rs[i].second))
  }

  // What one fast tick measured: the seven scalars and the devices that answered.
  datatype Measurement = Measurement(now: int, scalars: seq<u64>, disks: seq<Report>, nets: seq<PairReport>,
                                     diskIO: seq<PairReport>) {
    ghost predicate Valid() {
      |scalars| == SCALARS
    }

    // The reports going to device kind d, in the order of the History fields.
    function Reports(d: nat): seq<Report>
      requires d < DEVICES
    {
      if d == 0 then disks
      else if d == 1 then Firsts(nets)
      else if d == 2 then Seconds(nets)
      else if d == 3 then Firsts(diskIO)
      else Seconds(diskIO)
    }
  }

  ghost function Ticked(h: History, m: Measurement, cap: nat, window: int): (h': History)
    requires h.Valid() && m.Valid()
    ensures h'.Valid()
  {
    History(seq(SCALARS, k requires 0 <= k < SCALARS => LastN(h.scalar[k] + [HistoryPoint(m.now, m.scalars[k])], cap)),
            seq(DEVICES, d requires 0 <= d < DEVICES =>
              AfterTick(h.device[d], Devices.Tick(m.now, m.Reports(d)), cap, window)))
  }

  // The zero value of a Go time, the first instant of year 1.
  const ZERO_TIME := -62_135_596_800 * 1_000_000_000

  function Cutoff(now: int, historyWindow: int): int {
    if historyWindow > 0 then now - historyWindow else ZERO_TIME
  }

  ghost function LastNMap(m: map<Key, Points>, cap: nat): map<Key, Points> {
    map k | k in m :: LastN(m[k], cap)
  }

  // The buffers of a device map after importing src: a device with nothing left after the cutoff is left alone.
  ghost function Merged(m: map<Key, Points>, src: map<Key, Points>, keep: Keep, cap: nat): map<Key, Points> {
    m + LastNMap(SuffixMap(src, keep), cap)
  }

  ghost function Imported(h: History, src: History, cutoff: int, cap: nat): (h': History)
    requires h.Valid() && src.Valid()
    ensures h'.Valid()
  {
    History(seq(SCALARS, k requires 0 <= k < SCALARS => LastN(Suffix(src.scalar[k], NotBefore(cutoff)), cap)),
            seq(DEVICES, d requires 0 <= d < DEVICES => Merged(h.device[d], src.device[d], NotBefore(cutoff), cap)))
  }
}
