/** The retained metric history: timestamped points, grouped into scalar and per-device series. */
module HistoryData {
  import opened Bytes

  // A timestamp in nanoseconds since the Unix epoch and the bit pattern of a float64.
  datatype HistoryPoint = HistoryPoint(at: int, bits: u64)

  // Go strings are byte sequences.
  type Key = seq<byte>

  type Points = seq<HistoryPoint>

  const SCALARS := 7
  const DEVICES := 5

  /**
   * The twelve fields of the source's History struct, indexed by series kind: scalar[k] for kinds
   * 0..6 (cpu, load1, load5, load15, temperature, memory, swap) and device[k - 7] for kinds 7..11
   * (disk, network rx, network tx, disk read, disk write).
   */
  datatype History = History(scalar: seq<Points>, device: seq<map<Key, Points>>) {
    ghost predicate Valid() {
      |scalar| == SCALARS && |device| == DEVICES
    }
  }

  function EmptyHistory(): History {
    History(seq(SCALARS, i => []), seq(DEVICES, i => map[]))
  }

  const NANOS_PER_MILLI := 1_000_000

  // Milliseconds since the epoch, rounded down also before it.
  function UnixMilli(at: int): int {
    at / NANOS_PER_MILLI
  }

  function FloorPoint(p: HistoryPoint): HistoryPoint {
    p.(at := UnixMilli(p.at) * NANOS_PER_MILLI)
  }

  function FloorPoints(ps: Points): Points {
    seq(|ps|, i requires 0 <= i < |ps| => FloorPoint(ps[i]))
  }

  ghost predicate Sorted(ps: Points) {
    forall i, j :: 0 <= i <= j < |ps| ==> ps[i].at <= ps[j].at
  }
}
