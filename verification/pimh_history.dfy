/** From a History to its list of series records and back, and the round trip through the file. */
module PimhHistory {
  import opened Bytes
  import opened HistoryData
  import opened Pimh
  import opened PimhTheorems
  import SortedKeys

  // Keys too long for the format are not written.
  ghost function StoredKeys(m: map<Key, Points>): set<Key> {
    set k | k in m && |k| <= MAX_KEY_LEN
  }

  ghost function SeriesFor(kind: byte, m: map<Key, Points>, keys: seq<Key>): seq<Series>
    requires forall k :: k in keys ==> k in m
  {
    seq(|keys|, i requires 0 <= i < |keys| => Series(kind, keys[i], m[keys[i]]))
  }

  ghost function DeviceSeries(kind: byte, m: map<Key, Points>): seq<Series> {
    SeriesFor(kind, m, SortedKeys.Sort(StoredKeys(m)))
  }

  ghost function ScalarSeries(h: History, n: nat): seq<Series>
    requires h.Valid() && n <= SCALARS
  {
    seq(n, k requires 0 <= k < n => Series(k, [], h.scalar[k]))
  }

  // The scalar series, then the device series of the first d device kinds, each in key order.
  ghost function SeriesUpTo(h: History, d: nat): seq<Series>
    requires h.Valid() && d <= DEVICES
  {
    if d == 0 then ScalarSeries(h, SCALARS) else SeriesUpTo(h, d - 1) + DeviceSeries(SCALARS + d - 1, h.device[d - 1])
  }

  ghost function SeriesList(h: History): seq<Series>
    requires h.Valid()
  {
    SeriesUpTo(h, DEVICES)
  }

  function AddSeries(h: History, s: Series): (r: History)
    requires h.Valid()
    ensures r.Valid()
  {
    if s.kind < SCALARS then h.(scalar := h.scalar[s.kind := s.points])
    else if s.kind < SCALARS + DEVICES then
      var d := s.kind - SCALARS;
      h.(device := h.device[d := h.device[d][s.key := s.points]])
    else h
  }

  // Later records of the same series win; unknown kinds are skipped.
  ghost function FromList(list: seq<Series>): (h: History)
    ensures h.Valid()
  {
    if |list| == 0 then EmptyHistory() else AddSeries(FromList(list[..|list| - 1]), list[|list| - 1])
  }

  ghost function StoredMap(m: map<Key, Points>): map<Key, Points> {
    map k | k in m && |k| <= MAX_KEY_LEN :: FloorPoints(m[k])
  }

  // What survives a trip through the file: all of h but sub-millisecond time and over-long keys.
  ghost function Stored(h: History): History
    requires h.Valid()
  {
    History(seq(SCALARS, k requires 0 <= k < SCALARS => FloorPoints(h.scalar[k])),
            seq(DEVICES, d requires 0 <= d < DEVICES => StoredMap(h.device[d])))
  }

  ghost predicate RepresentableHistory(h: History)
    requires h.Valid()
  {
    && (forall k :: 0 <= k < SCALARS ==> Representable(h.scalar[k]))
    && (forall d, k :: 0 <= d < DEVICES && k in h.device[d] ==> Representable(h.device[d][k]))
  }

  // Every series is short enough for its 32-bit length field.
  ghost predicate PointsBelow(h: History, n: nat)
    requires h.Valid()
  {
    && (forall k :: 0 <= k < SCALARS ==> |h.scalar[k]| < n)
    && (forall d, k :: 0 <= d < DEVICES && k in h.device[d] ==> |h.device[d][k]| < n)
  }

  // ------------------------------------------------------------------------------------------

  lemma FromListSnoc(list: seq<Series>, s: Series)
    ensures FromList(list + [s]) == AddSeries(FromList(list), s)
  {
    assert (list + [s])[..|list|] == list;
  }

  lemma {:induction false} FromScalars(h: History, n: nat)
    requires h.Valid() && n <= SCALARS
    ensures FromList(FloorList(ScalarSeries(h, n)))
         == EmptyHistory().(
              scalar := seq(SCALARS, k requires 0 <= k < SCALARS => if k < n then FloorPoints(h.scalar[k]) else []))
  {
    if n == 0 {
      assert FloorList(ScalarSeries(h, 0)) == [];
    } else {
      var init, s := FloorList(ScalarSeries(h, n - 1)), FloorSeries(Series(n - 1, [], h.scalar[n - 1]));
      FromScalars(h, n - 1);
      ScalarsSnoc(h, n);
      FromListSnoc(init, s);
      hide FromList, FloorList, ScalarSeries, FloorPoints;
      assert s.kind == n - 1 && s.points == FloorPoints(h.scalar[n - 1]);
    }
  }

  lemma ScalarsSnoc(h: History, n: nat)
    requires h.Valid() && 0 < n <= SCALARS
    ensures FloorList(ScalarSeries(h, n))
         == FloorList(ScalarSeries(h, n - 1)) + [FloorSeries(Series(n - 1, [], h.scalar[n - 1]))]
  {
    hide FloorSeries;
  }

  ghost function Picked(m: map<Key, Points>, keys: seq<Key>): map<Key, Points>
    requires forall k :: k in keys ==> k in m
  {
    map k | k in keys :: FloorPoints(m[k])
  }

  lemma SeriesForSnoc(kind: byte, m: map<Key, Points>, keys: seq<Key>, k: Key)
    requires k in m && forall x :: x in keys ==> x in m
    ensures FloorList(SeriesFor(kind, m, keys + [k]))
            == FloorList(SeriesFor(kind, m, keys)) + [FloorSeries(Series(kind, k, m[k]))]
    ensures Picked(m, keys + [k]) == Picked(m, keys)[k := FloorPoints(m[k])]
  {
  }

  ghost function WithDevice(h: History, d: nat, more: map<Key, Points>): History
    requires h.Valid() && d < DEVICES
  {
    h.(device := h.device[d := h.device[d] + more])
  }

  lemma {:induction false} FromDevices(list: seq<Series>, d: nat, m: map<Key, Points>, keys: seq<Key>)
    requires d < DEVICES && forall k :: k in keys ==> k in m
    ensures FromList(list + FloorList(SeriesFor(SCALARS + d, m, keys)))
            == WithDevice(FromList(list), d, Picked(m, keys))
  {
    var h, block := FromList(list), FloorList(SeriesFor(SCALARS + d, m, keys));
    if |keys| == 0 {
      assert list + block == list;
      assert h.device[d] + Picked(m, keys) == h.device[d];
    } else {
      var init, last := keys[..|keys| - 1], keys[|keys| - 1];
      assert keys == init + [last];
      FromDevices(list, d, m, init);
      SeriesForSnoc(SCALARS + d, m, init, last);
      var before := list + FloorList(SeriesFor(SCALARS + d, m, init));
      var s := FloorSeries(Series(SCALARS + d, last, m[last]));
      assert list + block == before + [s];
      FromListSnoc(before, s);
      AddToDevice(h, d, Picked(m, init), s);
    }
  }

  lemma AddToDevice(h: History, d: nat, more: map<Key, Points>, s: Series)
    requires h.Valid() && d < DEVICES && s.kind == SCALARS + d
    ensures AddSeries(WithDevice(h, d, more), s) == WithDevice(h, d, more[s.key := s.points])
  {
    assert h.device[d] + more[s.key := s.points] == (h.device[d] + more)[s.key := s.points];
  }

  lemma FloorListAppend(a: seq<Series>, b: seq<Series>)
    ensures FloorList(a + b) == FloorList(a) + FloorList(b)
  {
  }

  lemma PickedAll(m: map<Key, Points>)
    ensures Picked(m, SortedKeys.Sort(StoredKeys(m))) == StoredMap(m)
  {
  }

  // The first d device kinds filled in.
  ghost function StoredUpTo(h: History, d: nat): History
    requires h.Valid()
  {
    Stored(h).(device := seq(DEVICES, i requires 0 <= i < DEVICES => if i < d then StoredMap(h.device[i]) else map[]))
  }

  lemma StoredNext(h: History, d: nat)
    requires h.Valid() && d < DEVICES
    ensures WithDevice(StoredUpTo(h, d), d, StoredMap(h.device[d])) == StoredUpTo(h, d + 1)
  {
    assert map[] + StoredMap(h.device[d]) == StoredMap(h.device[d]);
    assert WithDevice(StoredUpTo(h, d), d, StoredMap(h.device[d])).device == StoredUpTo(h, d + 1).device;
  }

  lemma {:induction false} FromSeriesUpTo(h: History, d: nat)
    requires h.Valid() && d <= DEVICES
    ensures FromList(FloorList(SeriesUpTo(h, d))) == StoredUpTo(h, d)
  {
    if d == 0 {
      FromScalars(h, SCALARS);
    } else {
      FromSeriesUpTo(h, d - 1);
      var m := h.device[d - 1];
      var list, block := SeriesUpTo(h, d - 1), DeviceSeries(SCALARS + d - 1, m);
      FromDevices(FloorList(list), d - 1, m, SortedKeys.Sort(StoredKeys(m)));
      FloorListAppend(list, block);
      PickedAll(m);
      StoredNext(h, d - 1);
    }
  }

  // The records of a history, rounded, give back what is stored of it.
  lemma FromSeriesList(h: History)
    requires h.Valid()
    ensures FromList(FloorList(SeriesList(h))) == Stored(h)
  {
    FromSeriesUpTo(h, DEVICES);
    assert Stored(h).device == StoredUpTo(h, DEVICES).device;
  }

  lemma DeviceSeriesElements(kind: byte, m: map<Key, Points>, i: nat)
    requires i < |DeviceSeries(kind, m)|
    ensures var s := DeviceSeries(kind, m)[i];
            s.key in m && |s.key| <= MAX_KEY_LEN && s.points == m[s.key]
  {
    var keys := SortedKeys.Sort(StoredKeys(m));
    assert keys[i] in keys;
  }

  lemma {:induction false} SeriesRepresentable(h: History, d: nat)
    requires h.Valid() && d <= DEVICES && RepresentableHistory(h)
    ensures AllRepresentable(SeriesUpTo(h, d))
  {
    if d == 0 {
    } else {
      SeriesRepresentable(h, d - 1);
      var kind, m := SCALARS + d - 1, h.device[d - 1];
      forall i | 0 <= i < |DeviceSeries(kind, m)|
        ensures Representable(DeviceSeries(kind, m)[i].points)
      {
        DeviceSeriesElements(kind, m, i);
      }
    }
  }

  lemma {:induction false} SeriesBelow(h: History, d: nat, n: nat)
    requires h.Valid() && d <= DEVICES && PointsBelow(h, n)
    ensures forall i :: 0 <= i < |SeriesUpTo(h, d)| ==>
              |SeriesUpTo(h, d)[i].key| <= MAX_KEY_LEN && |SeriesUpTo(h, d)[i].points| < n
  {
    if d == 0 {
    } else {
      SeriesBelow(h, d - 1, n);
      var kind, m := SCALARS + d - 1, h.device[d - 1];
      forall i | 0 <= i < |DeviceSeries(kind, m)|
        ensures |DeviceSeries(kind, m)[i].key| <= MAX_KEY_LEN && |DeviceSeries(kind, m)[i].points| < n
      {
        DeviceSeriesElements(kind, m, i);
      }
    }
  }

  ghost function EncodedHistory(h: History): seq<byte>
    requires h.Valid() && RepresentableHistory(h)
  {
    SeriesRepresentable(h, DEVICES);
    Serialize(SeriesList(h))
  }

  ghost function DecodedHistory(data: seq<byte>): Result<History> {
    match Decode(data)
    case Bad(e) => Bad(e)
    case Ok(list) => Ok(FromList(list))
  }

  // The round trip: a history reads back exactly when it stays within the reader's limits.
  lemma RoundTrip(h: History)
    requires h.Valid() && RepresentableHistory(h) && PointsBelow(h, TWO_32) && |SeriesList(h)| < TWO_32
    ensures |SeriesList(h)| <= 4096
            && (forall i :: 0 <= i < |SeriesList(h)| ==> |SeriesList(h)[i].points| <= 2_097_152)
       <==> DecodedHistory(EncodedHistory(h)).Ok?
    ensures DecodedHistory(EncodedHistory(h)).Ok? ==> DecodedHistory(EncodedHistory(h)) == Ok(Stored(h))
  {
    SeriesRepresentable(h, DEVICES);
    SeriesBelow(h, DEVICES, TWO_32);
    DecodeIsComplete(SeriesList(h));
    NoneOver(SeriesList(h));
    FromSeriesList(h);
    hide SeriesList, Decode, Serialize, FromList, Stored, Representable;
  }
}
