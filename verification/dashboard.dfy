/** The dashboard's incremental history: bounds, merging a delta, trimming, and the poll itself. */
module Dashboard {
  import opened Seqs
  import opened HistoryData

  // Poll interval and history window as the server's configuration gives them, in milliseconds.
  datatype ClientConfig = ClientConfig(pollMs: int, windowMs: nat)

  const RESYNC_EVERY_POLLS := 10

  // The dashboard follows the scalars and the disk, rx and tx series; the disk I/O series are not tracked.
  const TRACKED_DEVICES := 3

  // A Date holds whole milliseconds; the server's own timestamps are finer.
  function Ms(p: HistoryPoint): int {
    UnixMilli(p.at)
  }

  ghost function PointSet(ps: Points): set<HistoryPoint> {
    set p | p in ps
  }

  ghost function ScalarPoints(scalar: seq<Points>): set<HistoryPoint> {
    if |scalar| == 0 then {} else ScalarPoints(scalar[..|scalar| - 1]) + PointSet(scalar[|scalar| - 1])
  }

  ghost function KeyPoints(m: map<Key, Points>, keys: set<Key>): set<HistoryPoint> {
    set k, p | k in keys && k in m && p in m[k] :: p
  }

  ghost function DevicePoints(device: seq<map<Key, Points>>): set<HistoryPoint> {
    if |device| == 0 then {}
    else DevicePoints(device[..|device| - 1]) + KeyPoints(device[|device| - 1], device[|device| - 1].Keys)
  }

  ghost function Tracked(h: History): set<HistoryPoint>
    requires h.Valid()
  {
    ScalarPoints(h.scalar) + DevicePoints(h.device[..TRACKED_DEVICES])
  }

  ghost function Newest(pts: set<HistoryPoint>): (ms: int)
    requires pts != {}
    ensures (exists p :: p in pts && Ms(p) == ms) && (forall p :: p in pts ==> Ms(p) <= ms)
  {
    var p :| p in pts;
    if pts == {p} then Ms(p)
    else
      var rest := Newest(pts - {p});
      assert forall q :: q in pts ==> q == p || q in pts - {p};
      if Ms(p) > rest then Ms(p) else rest
  }

  ghost function Oldest(pts: set<HistoryPoint>): (ms: int)
    requires pts != {}
    ensures (exists p :: p in pts && Ms(p) == ms) && (forall p :: p in pts ==> ms <= Ms(p))
  {
    var p :| p in pts;
    if pts == {p} then Ms(p)
    else
      var rest := Oldest(pts - {p});
      assert forall q :: q in pts ==> q == p || q in pts - {p};
      if Ms(p) < rest then Ms(p) else rest
  }

  // None stands for the infinities the loop starts from.
  datatype Bounds = NoPoints | Bounds(oldest: int, newest: int, newestPoint: HistoryPoint)

  ghost predicate AreBounds(pts: set<HistoryPoint>, b: Bounds) {
    match b
    case NoPoints => pts == {}
    case Bounds(oldest, newest, np) =>
      pts != {} && oldest == Oldest(pts) && newest == Newest(pts) && np in pts && Ms(np) == newest
  }

  function Widen(b: Bounds, p: HistoryPoint): Bounds {
    var t := Ms(p);
    match b
    case NoPoints => Bounds(t, t, p)
    case Bounds(oldest, newest, np) =>
      Bounds(if t < oldest then t else oldest, if t > newest then t else newest, if t > newest then p else np)
  }

  lemma WidenCovers(pts: set<HistoryPoint>, b: Bounds, p: HistoryPoint)
    requires AreBounds(pts, b)
    ensures AreBounds(pts + {p}, Widen(b, p))
  {
  }

  lemma SeriesStep(seen: set<HistoryPoint>, series: Points, i: nat, b: Bounds)
    requires i < |series| && AreBounds(seen + PointSet(series[..i]), b)
    ensures AreBounds(seen + PointSet(series[..i + 1]), Widen(b, series[i]))
  {
    hide AreBounds, Widen;
    assert series[..i + 1] == series[..i] + [series[i]];
    assert seen + PointSet(series[..i + 1]) == seen + PointSet(series[..i]) + {series[i]};
    WidenCovers(seen + PointSet(series[..i]), b, series[i]);
  }

  method SeriesBounds(series: Points, b: Bounds, ghost seen: set<HistoryPoint>) returns (b': Bounds)
    requires AreBounds(seen, b)
    ensures AreBounds(seen + PointSet(series), b')
  {
    hide AreBounds;
    b' := b;
    assert seen + PointSet(series[..0]) == seen;
    for i := 0 to |series|
      invariant AreBounds(seen + PointSet(series[..i]), b')
    {
      SeriesStep(seen, series, i, b');
      var t := Ms(series[i]);
      match b' {
        case NoPoints => b' := Bounds(t, t, series[i]);
        case Bounds(oldest, newest, np) =>
          b' := Bounds(if t < oldest then t else oldest, if t > newest then t else newest,
                       if t > newest then series[i] else np);
      }
    }
    assert series[..|series|] == series;
  }

  lemma NoKeys(m: map<Key, Points>)
    ensures KeyPoints(m, {}) == {}
  {
  }

  lemma KeyStep(m: map<Key, Points>, keys: set<Key>, k: Key)
    requires k in m
    ensures KeyPoints(m, keys + {k}) == KeyPoints(m, keys) + PointSet(m[k])
  {
  }

  method DeviceBounds(m: map<Key, Points>, b: Bounds, ghost seen: set<HistoryPoint>) returns (b': Bounds)
    requires AreBounds(seen, b)
    ensures AreBounds(seen + KeyPoints(m, m.Keys), b')
  {
    hide *;
    b' := b;
    var todo := m.Keys;
    NoKeys(m);
    assert seen + {} == seen && m.Keys - todo == {};
    while todo != {}
      invariant todo <= m.Keys
      invariant AreBounds(seen + KeyPoints(m, m.Keys - todo), b')
    {
      var k :| k in todo;
      ghost var done := m.Keys - todo;
      b' := SeriesBounds(m[k], b', seen + KeyPoints(m, done));
      KeyStep(m, done, k);
      todo := todo - {k};
      assert m.Keys - todo == done + {k};
      assert seen + KeyPoints(m, done) + PointSet(m[k]) == seen + (KeyPoints(m, done) + PointSet(m[k]));
    }
    assert m.Keys - todo == m.Keys;
  }

  method HistoryBounds(h: History) returns (b: Bounds)
    requires h.Valid()
    ensures AreBounds(Tracked(h), b)
  {
    assert AreBounds({}, NoPoints);
    hide AreBounds, PointSet, KeyPoints;
    b := NoPoints;
    for k := 0 to SCALARS
      invariant AreBounds(ScalarPoints(h.scalar[..k]), b)
    {
      b := SeriesBounds(h.scalar[k], b, ScalarPoints(h.scalar[..k]));
      assert h.scalar[..k + 1][..k] == h.scalar[..k];
    }
    assert h.scalar[..SCALARS] == h.scalar;
    ghost var scalars := ScalarPoints(h.scalar);
    assert scalars + DevicePoints(h.device[..0]) == scalars;
    for d := 0 to TRACKED_DEVICES
      invariant AreBounds(scalars + DevicePoints(h.device[..d]), b)
    {
      b := DeviceBounds(h.device[d], b, scalars + DevicePoints(h.device[..d]));
      assert h.device[..d + 1][..d] == h.device[..d];
      assert scalars + DevicePoints(h.device[..d + 1])
          == scalars + DevicePoints(h.device[..d]) + KeyPoints(h.device[d], h.device[d].Keys);
    }
  }

  // The largest jump between held and incoming points that a late or skipped tick still explains.
  // The floor of one second under the poll interval never shows.
  function GapToleranceMs(c: ClientConfig): (t: int)
    ensures t >= 15000 && t >= 3 * c.pollMs && (t == 15000 || t == 3 * c.pollMs)
  {
    var t := 3 * (if c.pollMs > 1000 then c.pollMs else 1000);
    if t > 15000 then t else 15000
  }

  ghost function MergedMap(prev: map<Key, Points>, delta: map<Key, Points>): map<Key, Points> {
    map k | k in prev.Keys + delta.Keys :: (if k in prev then prev[k] else []) + (if k in delta then delta[k] else [])
  }

  ghost function Appended(prev: History, delta: History): (h: History)
    requires prev.Valid() && delta.Valid()
    ensures h.Valid()
  {
    History(seq(SCALARS, k requires 0 <= k < SCALARS => prev.scalar[k] + delta.scalar[k]),
            seq(DEVICES, d requires 0 <= d < DEVICES =>
              if d < TRACKED_DEVICES then MergedMap(prev.device[d], delta.device[d]) else map[]))
  }

  function Within(cutoff: int): HistoryPoint -> bool {
    (p: HistoryPoint) => Ms(p) >= cutoff
  }

  ghost function TrimmedMap(m: map<Key, Points>, cutoff: int): map<Key, Points> {
    map k | k in m && Filter(m[k], Within(cutoff)) != [] :: Filter(m[k], Within(cutoff))
  }

  ghost function DropOlder(h: History, cutoff: int): (t: History)
    requires h.Valid()
    ensures t.Valid()
  {
    History(seq(SCALARS, k requires 0 <= k < SCALARS => Filter(h.scalar[k], Within(cutoff))),
            seq(DEVICES, d requires 0 <= d < DEVICES =>
              if d < TRACKED_DEVICES then TrimmedMap(h.device[d], cutoff) else map[]))
  }

  // What lies within the window ending at the newest point held.
  ghost function TrimWindow(h: History, windowMs: nat): (t: History)
    requires h.Valid()
    ensures t.Valid()
  {
    if windowMs == 0 || Tracked(h) == {} then h else DropOlder(h, Newest(Tracked(h)) - windowMs)
  }

  // The gap between the newest point held and the oldest one coming in is positive and explicable.
  ghost predicate Joins(c: ClientConfig, prev: History, delta: History)
    requires prev.Valid() && delta.Valid()
  {
    && Tracked(prev) != {}
    && (Tracked(delta) != {} ==> 0 < Oldest(Tracked(delta)) - Newest(Tracked(prev)) <= GapToleranceMs(c))
  }

  // None when the delta cannot be appended and the full window has to be fetched.
  ghost function Merge(c: ClientConfig, prev: History, delta: History): (m: Option<History>)
    requires prev.Valid() && delta.Valid()
    ensures m.Some? ==> m.value.Valid()
  {
    if Joins(c, prev, delta) then Some(TrimWindow(Appended(prev, delta), c.windowMs)) else None
  }

  method FilterSeries(series: Points, keep: HistoryPoint -> bool) returns (r: Points)
    ensures r == Filter(series, keep)
  {
    r := [];
    for i := 0 to |series|
      invariant r == Filter(series[..i], keep)
    {
      assert series[..i + 1][..i] == series[..i];
      if keep(series[i]) {
        r := r + [series[i]];
      }
    }
    assert series[..|series|] == series;
  }

  method TrimMap(m: map<Key, Points>, cutoff: int) returns (r: map<Key, Points>)
    ensures r == TrimmedMap(m, cutoff)
  {
    r := map[];
    var todo := m.Keys;
    while todo != {}
      invariant todo <= m.Keys
      invariant forall k :: k in r <==> k in m && k !in todo && Filter(m[k], Within(cutoff)) != []
      invariant forall k :: k in r ==> r[k] == Filter(m[k], Within(cutoff))
    {
      var k :| k in todo;
      var kept := FilterSeries(m[k], Within(cutoff));
      if |kept| > 0 {
        r := r[k := kept];
      }
      todo := todo - {k};
    }
  }

  method KeepSince(h: History, cutoff: int) returns (t: History)
    requires h.Valid()
    ensures t == DropOlder(h, cutoff)
  {
    hide Filter, Within, TrimmedMap;
    var scalar: seq<Points> := [];
    for k := 0 to SCALARS
      invariant |scalar| == k && forall i :: 0 <= i < k ==> scalar[i] == Filter(h.scalar[i], Within(cutoff))
    {
      var kept := FilterSeries(h.scalar[k], Within(cutoff));
      scalar := scalar + [kept];
    }
    var device: seq<map<Key, Points>> := [];
    for d := 0 to TRACKED_DEVICES
      invariant |device| == d && forall i :: 0 <= i < d ==> device[i] == TrimmedMap(h.device[i], cutoff)
    {
      var kept := TrimMap(h.device[d], cutoff);
      device := device + [kept];
    }
    t := History(scalar, device + [map[], map[]]);
  }

  method TrimHistoryWindow(h: History, windowMs: nat) returns (t: History)
    requires h.Valid()
    ensures t == TrimWindow(h, windowMs)
  {
    hide Tracked, DropOlder;
    var b := HistoryBounds(h);
    if windowMs == 0 || b.NoPoints? {
      return h;
    }
    t := KeepSince(h, b.newest - windowMs);
  }

  method MergeMap(prev: map<Key, Points>, delta: map<Key, Points>) returns (m: map<Key, Points>)
    ensures m == MergedMap(prev, delta)
  {
    m := prev;
    var todo := delta.Keys;
    while todo != {}
      invariant todo <= delta.Keys
      invariant m.Keys == prev.Keys + (delta.Keys - todo)
      invariant forall k :: k in m ==>
                  m[k] == (if k in prev then prev[k] else []) + (if k in delta && k !in todo then delta[k] else [])
    {
      var k :| k in todo;
      m := m[k := (if k in m then m[k] else []) + delta[k]];
      todo := todo - {k};
    }
  }

  method AppendHistory(prev: History, delta: History) returns (h: History)
    requires prev.Valid() && delta.Valid()
    ensures h == Appended(prev, delta)
  {
    hide MergedMap;
    var scalar: seq<Points> := [];
    for k := 0 to SCALARS
      invariant |scalar| == k && forall i :: 0 <= i < k ==> scalar[i] == prev.scalar[i] + delta.scalar[i]
    {
      scalar := scalar + [prev.scalar[k] + delta.scalar[k]];
    }
    var device: seq<map<Key, Points>> := [];
    for d := 0 to TRACKED_DEVICES
      invariant |device| == d && forall i :: 0 <= i < d ==> device[i] == MergedMap(prev.device[i], delta.device[i])
    {
      var merged := MergeMap(prev.device[d], delta.device[d]);
      device := device + [merged];
    }
    h := History(scalar, device + [map[], map[]]);
  }

  method MergeHistory(c: ClientConfig, prev: History, delta: History) returns (m: Option<History>)
    requires prev.Valid() && delta.Valid()
    ensures m == Merge(c, prev, delta)
  {
    hide Tracked, Appended, TrimWindow;
    var held := HistoryBounds(prev);
    var incoming := HistoryBounds(delta);
    if held.NoPoints? {
      return None;
    }
    if incoming.Bounds? && (incoming.oldest <= held.newest || incoming.oldest - held.newest > GapToleranceMs(c)) {
      return None;
    }
    var appended := AppendHistory(prev, delta);
    var t := TrimHistoryWindow(appended, c.windowMs);
    m := Some(t);
  }
}
