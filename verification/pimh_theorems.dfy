/** The PIMH file can be read in exactly one way: soundness and completeness of the reader, with its exact limits. */
module PimhTheorems {
  import opened Bytes
  import opened HistoryData
  import opened Pimh

  function FloorSeries(s: Series): Series {
    s.(points := FloorPoints(s.points))
  }

  function FloorList(list: seq<Series>): seq<Series> {
    seq(|list|, i requires 0 <= i < |list| => FloorSeries(list[i]))
  }

  // ------------------------------------------------------------------------------------------
  // Points

  lemma PointReads(p: HistoryPoint, raw: seq<byte>, j: nat)
    requires Representable([p]) && POINT_SIZE * (j + 1) <= |raw|
    requires raw[POINT_SIZE * j..POINT_SIZE * (j + 1)] == PointBytes(p)
    ensures PointAt(raw, j) == FloorPoint(p)
  {
    assert p == [p][0];
    Widths();
    var at := POINT_SIZE * j;
    var b := PointBytes(p);
    assert raw[at..at + 8] == b[..8] == ToLE(Unsigned(UnixMilli(p.at)), 8);
    assert raw[at + 8..at + 16] == b[8..] == ToLE(p.bits, 8);
    FromToLE(Unsigned(UnixMilli(p.at)), 8);
    FromToLE(p.bits, 8);
  }

  lemma PointWrites(raw: seq<byte>, j: nat)
    requires POINT_SIZE * (j + 1) <= |raw|
    ensures Representable([PointAt(raw, j)])
    ensures PointBytes(PointAt(raw, j)) == raw[POINT_SIZE * j..POINT_SIZE * (j + 1)]
  {
    Widths();
    var at := POINT_SIZE * j;
    var p := PointAt(raw, j);
    var u := Field(raw, at, 8);
    assert UnixMilli(p.at) == Signed(u) && Unsigned(Signed(u)) == u;
    ToFromLE(raw[at..at + 8]);
    ToFromLE(raw[at + 8..at + 16]);
    assert raw[at..at + 16] == raw[at..at + 8] + raw[at + 8..at + 16];
  }

  lemma {:induction false} PointsBytesAt(ps: Points, j: nat)
    requires Representable(ps) && j < |ps|
    ensures PointsBytes(ps)[POINT_SIZE * j..POINT_SIZE * (j + 1)] == PointBytes(ps[j])
  {
    var init := ps[..|ps| - 1];
    if j < |init| {
      PointsBytesAt(init, j);
    }
  }

  lemma PointsRead(ps: Points)
    requires Representable(ps)
    ensures PointsOf(PointsBytes(ps), |ps|) == FloorPoints(ps)
  {
    forall j | 0 <= j < |ps|
      ensures PointAt(PointsBytes(ps), j) == FloorPoint(ps[j])
    {
      PointsBytesAt(ps, j);
      PointReads(ps[j], PointsBytes(ps), j);
    }
  }

  lemma PointAtPrefix(raw: seq<byte>, n: nat, j: nat)
    requires POINT_SIZE * n <= |raw| && j < n
    ensures PointAt(raw, j) == PointAt(raw[..POINT_SIZE * n], j)
  {
    var init := raw[..POINT_SIZE * n];
    assert raw[POINT_SIZE * j..POINT_SIZE * j + 8] == init[POINT_SIZE * j..POINT_SIZE * j + 8];
    assert raw[POINT_SIZE * j + 8..POINT_SIZE * j + 16] == init[POINT_SIZE * j + 8..POINT_SIZE * j + 16];
  }

  lemma PointsOfPrefix(raw: seq<byte>, n: nat)
    requires n > 0 && |raw| == POINT_SIZE * n
    ensures PointsOf(raw, n) == PointsOf(raw[..POINT_SIZE * (n - 1)], n - 1) + [PointAt(raw, n - 1)]
  {
    forall j | 0 <= j < n - 1
      ensures PointAt(raw, j) == PointAt(raw[..POINT_SIZE * (n - 1)], j)
    {
      PointAtPrefix(raw, n - 1, j);
    }
  }

  lemma RepresentableSnoc(ps: Points, p: HistoryPoint)
    requires Representable(ps) && Representable([p])
    ensures Representable(ps + [p]) && PointsBytes(ps + [p]) == PointsBytes(ps) + PointBytes(p)
  {
    assert p == [p][0];
    assert (ps + [p])[..|ps|] == ps;
  }

  lemma {:induction false} PointsWrite(raw: seq<byte>, n: nat)
    requires |raw| == POINT_SIZE * n
    ensures Representable(PointsOf(raw, n)) && PointsBytes(PointsOf(raw, n)) == raw
  {
    hide PointAt, PointBytes;
    if n == 0 {
    } else {
      var init := raw[..POINT_SIZE * (n - 1)];
      PointsWrite(init, n - 1);
      PointWrites(raw, n - 1);
      PointsOfPrefix(raw, n);
      RepresentableSnoc(PointsOf(init, n - 1), PointAt(raw, n - 1));
      assert raw == init + raw[POINT_SIZE * (n - 1)..POINT_SIZE * n];
    }
  }

  // ------------------------------------------------------------------------------------------
  // Records

  // part is written at offset off of data.
  ghost predicate At<T>(data: seq<T>, off: nat, part: seq<T>) {
    off + |part| <= |data| && data[off..off + |part|] == part
  }

  lemma AtSplit<T>(data: seq<T>, off: nat, a: seq<T>, b: seq<T>)
    ensures At(data, off, a + b) <==> At(data, off, a) && At(data, off + |a|, b)
  {
    if off + |a + b| <= |data| {
      var part := data[off..off + |a + b|];
      assert part[..|a|] == data[off..off + |a|] && part[|a|..] == data[off + |a|..off + |a + b|];
      assert (a + b)[..|a|] == a && (a + b)[|a|..] == b && part == part[..|a|] + part[|a|..];
    }
  }

  const TWO_16 := 0x1_0000

  // How the reader refuses a record over the limits.
  function Refusal(s: Series): Error {
    if |s.key| > MAX_KEY_LEN then KeyTooLong(|s.key|) else TooManyPoints(|s.points|)
  }

  lemma NameReads(data: seq<byte>, off: nat, kind: byte, key: Key)
    requires At(data, off, NameBytes(kind, key)) && |key| < TWO_16
    ensures |key| <= MAX_KEY_LEN ==> ParseName(data, off) == Ok((kind, key, off + 3 + |key|))
    ensures |key| > MAX_KEY_LEN ==> ParseName(data, off) == Bad(KeyTooLong(|key|))
  {
    AtSplit(data, off, [kind] + ToLE(|key|, 2), key);
    AtSplit(data, off, [kind], ToLE(|key|, 2));
    assert data[off] == data[off..off + 1][0];
    Widths();
    FromToLE(|key|, 2);
  }

  lemma NameSound(data: seq<byte>, off: nat)
    requires off <= |data| && ParseName(data, off).Ok?
    ensures var (kind, key, body) := ParseName(data, off).value;
            |key| <= MAX_KEY_LEN && body == off + 3 + |key| && At(data, off, NameBytes(kind, key))
  {
    var (kind, key, body) := ParseName(data, off).value;
    ToFromLE(data[off + 1..off + 3]);
    assert At(data, off, [kind]) && At(data, off + 1, ToLE(|key|, 2)) && At(data, off + 3, key);
    AtSplit(data, off, [kind], ToLE(|key|, 2));
    AtSplit(data, off, [kind] + ToLE(|key|, 2), key);
  }

  lemma BodyReads(data: seq<byte>, off: nat, ps: Points)
    requires Representable(ps) && At(data, off, BodyBytes(ps)) && |ps| < TWO_32
    ensures ParseBody(data, off) == if |ps| <= MAX_POINTS then Ok((FloorPoints(ps), off + 4 + POINT_SIZE * |ps|))
                                    else Bad(TooManyPoints(|ps|))
  {
    AtSplit(data, off, ToLE(|ps|, 4), PointsBytes(ps));
    Widths();
    FromToLE(|ps|, 4);
    PointsRead(ps);
  }

  lemma BodySound(data: seq<byte>, off: nat)
    requires off <= |data| && ParseBody(data, off).Ok?
    ensures var (ps, end) := ParseBody(data, off).value;
            && Representable(ps) && |ps| <= MAX_POINTS
            && end == off + 4 + POINT_SIZE * |ps| && At(data, off, BodyBytes(ps))
  {
    var (ps, end) := ParseBody(data, off).value;
    hide PointsOf, PointsBytes, Representable, FromLE;
    ToFromLE(data[off..off + 4]);
    PointsWrite(data[off + 4..end], |ps|);
    AtSplit(data, off, ToLE(|ps|, 4), PointsBytes(ps));
  }

  // A record within the limits reads back, timestamps rounded down; any other is refused.
  lemma RecordReads(data: seq<byte>, off: nat, s: Series)
    requires Representable(s.points) && At(data, off, SeriesBytes(s))
    requires |s.key| < TWO_16 && |s.points| < TWO_32
    ensures ParseRecord(data, off)
         == if WithinLimits(s) then Ok((FloorSeries(s), off + |SeriesBytes(s)|)) else Bad(Refusal(s))
  {
    AtSplit(data, off, NameBytes(s.kind, s.key), BodyBytes(s.points));
    NameReads(data, off, s.kind, s.key);
    BodyReads(data, off + 3 + |s.key|, s.points);
  }

  // Whatever the reader takes for a record is one.
  lemma RecordSound(data: seq<byte>, off: nat)
    requires off <= |data| && ParseRecord(data, off).Ok?
    ensures var (s, end) := ParseRecord(data, off).value;
            && Representable(s.points) && WithinLimits(s)
            && end == off + |SeriesBytes(s)| && At(data, off, SeriesBytes(s))
  {
    var (s, end) := ParseRecord(data, off).value;
    NameSound(data, off);
    BodySound(data, off + 3 + |s.key|);
    AtSplit(data, off, NameBytes(s.kind, s.key), BodyBytes(s.points));
  }

  // ------------------------------------------------------------------------------------------
  // Record lists

  lemma ListBytesSnoc(list: seq<Series>, s: Series)
    requires AllRepresentable(list) && Representable(s.points)
    ensures AllRepresentable(list + [s]) && ListBytes(list + [s]) == ListBytes(list) + SeriesBytes(s)
  {
    assert (list + [s])[..|list|] == list;
  }

  lemma {:induction false} RecordsSound(data: seq<byte>, count: nat)
    requires HEADER <= |data| && ParseRecords(data, count).Ok?
    ensures var (list, off) := ParseRecords(data, count).value;
            && AllRepresentable(list)
            && (forall i :: 0 <= i < |list| ==> WithinLimits(list[i]))
            && off == HEADER + |ListBytes(list)| && At(data, HEADER, ListBytes(list))
  {
    hide SeriesBytes, ParseRecord, Representable, WithinLimits;
    if count == 0 {
    } else {
      RecordsSound(data, count - 1);
      var (list, off) := ParseRecords(data, count - 1).value;
      RecordSound(data, off);
      var (s, end) := ParseRecord(data, off).value;
      ListBytesSnoc(list, s);
      AtSplit(data, HEADER, ListBytes(list), SeriesBytes(s));
    }
  }

  lemma {:induction false} ListPrefixAt(data: seq<byte>, list: seq<Series>, n: nat)
    requires AllRepresentable(list) && n <= |list| && At(data, HEADER, ListBytes(list))
    ensures At(data, HEADER, ListBytes(list[..n]))
    decreases |list|
  {
    if n < |list| {
      var init := list[..|list| - 1];
      AtSplit(data, HEADER, ListBytes(init), SeriesBytes(list[|list| - 1]));
      ListPrefixAt(data, init, n);
      assert init[..n] == list[..n];
    } else {
      assert list[..n] == list;
    }
  }

  // Reading the first n records of a written list that are within the limits.
  lemma {:induction false} RecordsRead(data: seq<byte>, list: seq<Series>, n: nat)
    requires AllRepresentable(list) && n <= |list|
    requires At(data, HEADER, ListBytes(list))
    requires forall i :: 0 <= i < n ==> WithinLimits(list[i])
    ensures ParseRecords(data, n) == Ok((FloorList(list[..n]), HEADER + |ListBytes(list[..n])|))
  {
    hide *;
    if n == 0 {
      ReadNone(data, list);
    } else {
      RecordsRead(data, list, n - 1);
      ReadOneMore(data, list, n - 1);
    }
  }

  lemma ReadNone(data: seq<byte>, list: seq<Series>)
    requires AllRepresentable(list) && At(data, HEADER, ListBytes(list))
    ensures ParseRecords(data, 0) == Ok((FloorList(list[..0]), HEADER + |ListBytes(list[..0])|))
  {
    assert list[..0] == [] && FloorList([]) == [];
  }

  lemma ReadOneMore(data: seq<byte>, list: seq<Series>, n: nat)
    requires AllRepresentable(list) && n < |list| && WithinLimits(list[n])
    requires At(data, HEADER, ListBytes(list))
    requires ParseRecords(data, n) == Ok((FloorList(list[..n]), HEADER + |ListBytes(list[..n])|))
    ensures ParseRecords(data, n + 1) == Ok((FloorList(list[..n + 1]), HEADER + |ListBytes(list[..n + 1])|))
  {
    NextRecord(data, list, n);
    FloorListSnoc(list, n);
  }

  lemma FloorListSnoc(list: seq<Series>, n: nat)
    requires n < |list|
    ensures FloorList(list[..n + 1]) == FloorList(list[..n]) + [FloorSeries(list[n])]
  {
  }

  // What the reader makes of record n of a written list.
  lemma NextRecord(data: seq<byte>, list: seq<Series>, n: nat)
    requires AllRepresentable(list) && n < |list|
    requires At(data, HEADER, ListBytes(list))
    requires |list[n].key| < TWO_16 && |list[n].points| < TWO_32
    ensures HEADER + |ListBytes(list[..n])| <= |data|
    ensures ParseRecord(data, HEADER + |ListBytes(list[..n])|)
         == if WithinLimits(list[n]) then Ok((FloorSeries(list[n]), HEADER + |ListBytes(list[..n + 1])|))
            else Bad(Refusal(list[n]))
  {
    hide SeriesBytes, ListBytes, ParseRecord, FloorSeries, Representable;
    ListPrefixAt(data, list, n + 1);
    ListBytesSnoc(list[..n], list[n]);
    assert list[..n] + [list[n]] == list[..n + 1];
    AtSplit(data, HEADER, ListBytes(list[..n]), SeriesBytes(list[n]));
    RecordReads(data, HEADER + |ListBytes(list[..n])|, list[n]);
  }

  lemma {:induction false} BadStaysBad(data: seq<byte>, n: nat, count: nat)
    requires HEADER <= |data| && n <= count && ParseRecords(data, n).Bad?
    ensures ParseRecords(data, count) == ParseRecords(data, n)
  {
    if n == count {
    } else {
      BadStaysBad(data, n, count - 1);
    }
  }

  // ------------------------------------------------------------------------------------------
  // Whole files

  lemma HeaderFields(data: seq<byte>, count: nat)
    requires count < TWO_32
    ensures HEADER <= |data| && data[..HEADER] == HeaderBytes(count)
       <==> HEADER <= |data| && data[..4] == MAGIC && Field(data, 4, 2) == VERSION && Field(data, 6, 4) == count
  {
    Widths();
    FromToLE(VERSION, 2);
    FromToLE(count, 4);
    if HEADER <= |data| {
      ToFromLE(data[4..6]);
      ToFromLE(data[6..10]);
      assert data[..HEADER] == data[..4] + data[4..6] + data[6..10];
      assert HeaderBytes(count)[..4] == MAGIC && HeaderBytes(count)[4..6] == ToLE(VERSION, 2)
          && HeaderBytes(count)[6..] == ToLE(count, 4);
      assert data[..HEADER][..4] == data[..4] && data[..HEADER][4..6] == data[4..6]
             && data[..HEADER][6..] == data[6..10];
    }
  }

  lemma SerializeAt(data: seq<byte>, list: seq<Series>)
    requires AllRepresentable(list)
    ensures data == Serialize(list) <==> && HEADER <= |data| == HEADER + |ListBytes(list)|
                                         && data[..HEADER] == HeaderBytes(|list|) && At(data, HEADER, ListBytes(list))
  {
    AtSplit(data, 0, HeaderBytes(|list|), ListBytes(list));
    assert |data| == |Serialize(list)| ==> data[0..|data|] == data;
  }

  // An accepted file is, byte for byte, what writing the decoded records again would give.
  lemma DecodeIsSound(data: seq<byte>)
    requires Decode(data).Ok?
    ensures var list := Decode(data).value;
            AllRepresentable(list) && Readable(list) && Serialize(list) == data
  {
    var count := Field(data, 6, 4);
    RecordsSound(data, count);
    HeaderFields(data, count);
    SerializeAt(data, Decode(data).value);
  }

  // A written list is accepted exactly when it keeps within the reader's limits (4096 series, keys of 4096 bytes, 2^21
  // points to a series), and then reads back with its timestamps rounded down to milliseconds. Otherwise it is refused
  // for the number of its series or for what is wrong with the first record over the limits.
  lemma DecodeIsComplete(list: seq<Series>)
    requires AllRepresentable(list) && |list| < TWO_32
    requires forall i :: 0 <= i < |list| ==> |list[i].key| < TWO_16 && |list[i].points| < TWO_32
    ensures |list| > 4096 ==> Decode(Serialize(list)) == Bad(TooManySeries(|list|))
    ensures |list| <= 4096 && (forall k :: 0 <= k < |list| ==> !FirstOver(list, k)) ==>
              Decode(Serialize(list)) == Ok(FloorList(list))
    ensures forall k :: 0 <= k < |list| <= 4096 && FirstOver(list, k) ==>
              Decode(Serialize(list))
              == Bad(if |list[k].key| > 4096 then KeyTooLong(|list[k].key|) else TooManyPoints(|list[k].points|))
  {
    var data := Serialize(list);
    SerializeAt(data, list);
    HeaderFields(data, |list|);
    if forall k :: 0 <= k < |list| ==> !FirstOver(list, k) {
      NoneOver(list);
      RecordsRead(data, list, |list|);
      assert list[..|list|] == list;
    }
    hide Decode, Serialize, ListBytes, AllRepresentable, ParseRecord, HeaderBytes;
    forall k | 0 <= k < |list| <= 4096 && FirstOver(list, k)
      ensures Decode(data) == Bad(Refusal(list[k]))
    {
      FirstUnreadable(data, list, k);
      RefusedInRecords(data, |list|);
    }
  }

  // Record k is the first over the reader's limits.
  ghost predicate FirstOver(list: seq<Series>, k: nat) {
    && k < |list| && (|list[k].key| > 4096 || |list[k].points| > 2_097_152)
    && forall i :: 0 <= i < k ==> |list[i].key| <= 4096 && |list[i].points| <= 2_097_152
  }

  // If none is the first there is none.
  lemma {:induction false} NoneOver(list: seq<Series>)
    ensures (forall k :: 0 <= k < |list| ==> !FirstOver(list, k))
       <==> (forall i :: 0 <= i < |list| ==> WithinLimits(list[i]))
  {
    if |list| == 0 {
    } else {
      var init, n := list[..|list| - 1], |list| - 1;
      NoneOver(init);
      assert FirstOver(list, n) <==> !WithinLimits(list[n]) && forall i :: 0 <= i < n ==> WithinLimits(init[i]);
      assert forall i :: 0 <= i < n ==> init[i] == list[i] && (FirstOver(init, i) <==> FirstOver(list, i));
    }
  }

  lemma RefusedInRecords(data: seq<byte>, count: nat)
    requires |data| >= HEADER && data[..4] == MAGIC && Field(data, 4, 2) == VERSION && Field(data, 6, 4) == count
    requires count <= MAX_SERIES && ParseRecords(data, count).Bad?
    ensures Decode(data) == Bad(ParseRecords(data, count).error)
  {
    hide ParseRecords;
  }

  lemma FirstUnreadable(data: seq<byte>, list: seq<Series>, k: nat)
    requires AllRepresentable(list) && At(data, HEADER, ListBytes(list)) && FirstOver(list, k)
    requires forall i :: 0 <= i < |list| ==> |list[i].key| < TWO_16 && |list[i].points| < TWO_32
    ensures ParseRecords(data, |list|) == Bad(Refusal(list[k]))
  {
    hide ListBytes, SeriesBytes, ParseRecord, Representable, FloorList, FloorSeries;
    RecordsRead(data, list, k);
    NextRecord(data, list, k);
    BadStaysBad(data, k + 1, |list|);
  }

  // Two readable lists with the same file are the same list, up to rounding.
  lemma SerializeInjective(a: seq<Series>, b: seq<Series>)
    requires AllRepresentable(a) && AllRepresentable(b) && Readable(a) && Readable(b)
    requires Serialize(a) == Serialize(b)
    ensures FloorList(a) == FloorList(b)
  {
    DecodeIsComplete(a);
    DecodeIsComplete(b);
    NoneOver(a);
    NoneOver(b);
  }

  lemma {:induction false} RecordsExtend(data: seq<byte>, more: seq<byte>, count: nat)
    requires HEADER <= |data| && ParseRecords(data, count).Ok?
    ensures ParseRecords(data + more, count) == ParseRecords(data, count)
  {
    if count == 0 {
    } else {
      RecordsExtend(data, more, count - 1);
      var (list, off) := ParseRecords(data, count - 1).value;
      RecordExtends(data, more, off);
    }
  }

  lemma FieldExtends(data: seq<byte>, more: seq<byte>, off: nat, n: nat)
    requires off + n <= |data|
    ensures (data + more)[off..off + n] == data[off..off + n]
  {
  }

  lemma RecordExtends(data: seq<byte>, more: seq<byte>, off: nat)
    requires off <= |data| && ParseRecord(data, off).Ok?
    ensures ParseRecord(data + more, off) == ParseRecord(data, off)
  {
    var (kind, key, body) := ParseName(data, off).value;
    var (points, end) := ParseBody(data, body).value;
    FieldExtends(data, more, off + 1, 2);
    FieldExtends(data, more, off + 3, |key|);
    FieldExtends(data, more, body, 4);
    FieldExtends(data, more, body + 4, end - body - 4);
  }

  // No accepted file is a proper prefix of another: truncating one, or appending to one, makes it unreadable.
  lemma AcceptedFilesArePrefixFree(data: seq<byte>, more: seq<byte>)
    requires Decode(data).Ok? && Decode(data + more).Ok?
    ensures more == []
  {
    FieldExtends(data, more, 6, 4);
    RecordsExtend(data, more, Field(data, 6, 4));
  }

  // What is wrong with a file that goes on after its last record.
  lemma ExtendedIsTrailing(data: seq<byte>, more: seq<byte>)
    requires Decode(data).Ok? && more != []
    ensures Decode(data + more) == Bad(TrailingData)
  {
    assert (data + more)[..4] == data[..4];
    FieldExtends(data, more, 4, 2);
    FieldExtends(data, more, 6, 4);
    RecordsExtend(data, more, Field(data, 6, 4));
  }

  lemma FieldCut(data: seq<byte>, n: nat, off: nat, w: nat)
    requires off + w <= n <= |data|
    ensures data[..n][off..off + w] == data[off..off + w]
  {
  }

  lemma RecordCut(data: seq<byte>, n: nat, off: nat)
    requires off <= n <= |data| && ParseRecord(data, off).Ok?
    ensures ParseRecord(data[..n], off)
         == if ParseRecord(data, off).value.1 <= n then ParseRecord(data, off) else Bad(Truncated)
  {
    hide FromLE, PointsOf;
    var (kind, key, body) := ParseName(data, off).value;
    var (points, end) := ParseBody(data, body).value;
    if n - off >= 3 {
      FieldCut(data, n, off + 1, 2);
      if n >= body {
        FieldCut(data, n, off + 3, |key|);
        if n - body >= 4 {
          FieldCut(data, n, body, 4);
          if end <= n {
            FieldCut(data, n, body + 4, end - body - 4);
          }
        }
      }
    }
  }

  lemma {:induction false} RecordsCut(data: seq<byte>, n: nat, count: nat)
    requires HEADER <= n <= |data| && ParseRecords(data, count).Ok?
    ensures ParseRecords(data[..n], count)
         == if ParseRecords(data, count).value.1 <= n then ParseRecords(data, count) else Bad(Truncated)
  {
    hide ParseRecord;
    if count == 0 {
    } else {
      RecordsCut(data, n, count - 1);
      var (list, off) := ParseRecords(data, count - 1).value;
      if off <= n {
        RecordCut(data, n, off);
      }
    }
  }

  // What is wrong with a file that was cut short.
  lemma CutIsTruncated(data: seq<byte>, n: nat)
    requires Decode(data).Ok? && n < |data|
    ensures Decode(data[..n]) == Bad(if n < 4 then BadMagic else Truncated)
  {
    if n >= 4 {
      assert data[..n][..4] == data[..4];
    }
    if n >= 6 {
      FieldCut(data, n, 4, 2);
    }
    if n >= HEADER {
      FieldCut(data, n, 6, 4);
      RecordsCut(data, n, Field(data, 6, 4));
    }
  }

  ghost function PointCount(list: seq<Series>): nat {
    if |list| == 0 then 0 else PointCount(list[..|list| - 1]) + |list[|list| - 1].points|
  }

  lemma {:induction false} PointsFitInBytes(list: seq<Series>)
    requires AllRepresentable(list)
    ensures POINT_SIZE * PointCount(list) + 7 * |list| <= |ListBytes(list)|
  {
    if |list| == 0 {
    } else {
      PointsFitInBytes(list[..|list| - 1]);
    }
  }

  // Decoding never yields more points than the input pays for, so a small file cannot ask for a large allocation.
  lemma DecodedSizeBounded(data: seq<byte>)
    requires Decode(data).Ok?
    ensures POINT_SIZE * PointCount(Decode(data).value) + HEADER <= |data|
  {
    DecodeIsSound(data);
    PointsFitInBytes(Decode(data).value);
  }
}
