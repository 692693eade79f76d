/** The encoder and the sticky-error decoder, statement by statement, proved against the file format. */
module PimhCodec {
  import opened Seqs
  import opened Bytes
  import opened HistoryData
  import opened Pimh
  import opened PimhTheorems
  import opened PimhHistory
  import SortedKeys

  // ------------------------------------------------------------------------------------------
  // Encoding

  // The storable keys of a map in byte order, whatever order the map yields them in.
  method CollectKeys(m: map<Key, Points>) returns (keys: seq<Key>)
    ensures keys == SortedKeys.Sort(StoredKeys(m))
  {
    keys := [];
    var todo := m.Keys;
    while todo != {}
      invariant todo <= m.Keys
      invariant SortedKeys.StrictlySorted(keys)
      invariant forall k :: k in keys <==> k in StoredKeys(m) && k !in todo
    {
      var k :| k in todo;
      todo := todo - {k};
      if |k| <= MAX_KEY_LEN {
        SortedKeys.InsertSorted(keys, k);
        SortedKeys.InsertContents(keys, k);
        keys := SortedKeys.Insert(keys, k);
      }
    }
    SortedKeys.SortedUnique(keys, SortedKeys.Sort(StoredKeys(m)));
  }

  method AppendMap(list: seq<Series>, kind: byte, m: map<Key, Points>) returns (list': seq<Series>)
    ensures list' == list + DeviceSeries(kind, m)
  {
    var keys := CollectKeys(m);
    list' := list;
    for i := 0 to |keys|
      invariant list' == list + DeviceSeries(kind, m)[..i]
    {
      assert keys[i] in keys;
      list' := list' + [Series(kind, keys[i], m[keys[i]])];
    }
  }

  method HistorySeriesList(h: History) returns (list: seq<Series>)
    requires h.Valid()
    ensures list == SeriesList(h)
  {
    list := [];
    for k := 0 to SCALARS
      invariant list == ScalarSeries(h, k)
    {
      list := list + [Series(k, [], h.scalar[k])];
    }
    for d := 0 to DEVICES
      invariant list == SeriesUpTo(h, d)
    {
      list := AppendMap(list, SCALARS + d, h.device[d]);
    }
  }

  lemma PointsBytesNext(ps: Points, i: nat)
    requires Representable(ps) && i < |ps|
    ensures PointsBytes(ps[..i + 1])
         == PointsBytes(ps[..i]) + ToLE(Unsigned(UnixMilli(ps[i].at)), 8) + ToLE(ps[i].bits, 8)
  {
    assert ps[..i + 1][..i] == ps[..i];
  }

  method AppendSeries(buf: seq<byte>, s: Series) returns (buf': seq<byte>)
    requires Representable(s.points)
    ensures buf' == buf + SeriesBytes(s)
  {
    hide ToLE, Unsigned;
    buf' := buf + [s.kind];
    buf' := buf' + ToLE(|s.key|, 2);
    buf' := buf' + s.key;
    buf' := buf' + ToLE(|s.points|, 4);
    ghost var start := buf';
    assert start == buf + NameBytes(s.kind, s.key) + ToLE(|s.points|, 4);
    assert start + [] == start && PointsBytes([]) == [];
    hide PointsBytes, NameBytes;
    for i := 0 to |s.points|
      invariant buf' == start + PointsBytes(s.points[..i])
    {
      PointsBytesNext(s.points, i);
      buf' := buf' + ToLE(Unsigned(UnixMilli(s.points[i].at)), 8);
      buf' := buf' + ToLE(s.points[i].bits, 8);
    }
    assert s.points[..|s.points|] == s.points;
  }

  lemma ListBytesNext(list: seq<Series>, i: nat)
    requires AllRepresentable(list) && i < |list|
    ensures ListBytes(list[..i + 1]) == ListBytes(list[..i]) + SeriesBytes(list[i])
  {
    ListBytesSnoc(list[..i], list[i]);
    assert list[..i] + [list[i]] == list[..i + 1];
  }

  method EncodedSize(list: seq<Series>) returns (size: nat)
    requires AllRepresentable(list)
    ensures size == |Serialize(list)|
  {
    size := |MAGIC| + 2 + 4;
    for i := 0 to |list|
      invariant size == HEADER + |ListBytes(list[..i])|
    {
      ListBytesNext(list, i);
      size := size + (1 + 2 + |list[i].key| + 4 + |list[i].points| * POINT_SIZE);
    }
    assert list[..|list|] == list;
  }

  method AppendAll(list: seq<Series>) returns (buf: seq<byte>)
    requires AllRepresentable(list)
    ensures buf == Serialize(list)
  {
    assert ListBytes([]) == [];
    assert forall i :: 0 <= i <= |list| ==> AllRepresentable(list[..i]);
    hide ToLE, ListBytes, SeriesBytes, AllRepresentable, Representable;
    buf := MAGIC;
    buf := buf + ToLE(VERSION, 2);
    buf := buf + ToLE(|list|, 4);
    assert buf == HeaderBytes(|list|);
    hide HeaderBytes;
    for i := 0 to |list|
      invariant buf == HeaderBytes(|list|) + ListBytes(list[..i])
    {
      ListBytesNext(list, i);
      buf := AppendSeries(buf, list[i]);
    }
    assert list[..|list|] == list;
  }

  // The file is the serialised series list, and is exactly as long as the buffer that was set aside for it.
  method EncodeHistory(h: History) returns (buf: seq<byte>, size: nat)
    requires h.Valid() && RepresentableHistory(h)
    ensures buf == EncodedHistory(h)
    ensures |buf| == size
  {
    var list := HistorySeriesList(h);
    SeriesRepresentable(h, DEVICES);
    size := EncodedSize(list);
    buf := AppendAll(list);
  }

  // ------------------------------------------------------------------------------------------
  // Decoding

  class HistoryDecoder {
    const data: seq<byte>
    var off: nat
    var err: Option<Error>

    ghost predicate Valid()
      reads this
    {
      off <= |data| && (err.Some? ==> err == Some(Truncated))
    }

    constructor (data: seq<byte>)
      ensures Valid() && this.data == data && off == 0 && err == None
    {
      this.data := data;
      off := 0;
      err := None;
    }

    // The next n bytes. Once an error is set nothing moves any more.
    method Take(n: nat) returns (b: Option<seq<byte>>)
      requires Valid()
      modifies this
      ensures Valid()
      ensures old(err).Some? ==> b == None && off == old(off) && err == old(err)
      ensures old(err).None? && n <= |data| - old(off) ==>
                b == Some(data[old(off)..old(off) + n]) && off == old(off) + n && err == None
      ensures old(err).None? && n > |data| - old(off) ==> b == None && off == old(off) && err == Some(Truncated)
    {
      if err.Some? {
        return None;
      }
      if |data| - off < n {
        err := Some(Truncated);
        return None;
      }
      b := Some(data[off..off + n]);
      off := off + n;
    }

    // An n-byte little-endian integer, 0 after an error.
    method Uint(n: nat) returns (x: nat)
      requires Valid()
      modifies this
      ensures Valid()
      ensures old(err).Some? ==> x == 0 && off == old(off) && err == old(err)
      ensures old(err).None? && n <= |data| - old(off) ==>
                x == Field(data, old(off), n) && off == old(off) + n && err == None
      ensures old(err).None? && n > |data| - old(off) ==> x == 0 && off == old(off) && err == Some(Truncated)
    {
      var b := Take(n);
      x := if b.Some? then FromLE(b.value) else 0;
    }

    method DecodeName() returns (name: Option<(byte, Key)>, fatal: Option<Error>)
      requires Valid() && err == None
      modifies this
      ensures Valid()
      ensures match ParseName(data, old(off))
              case Ok((kind, key, end)) => name == Some((kind, key)) && fatal == None && err == None && off == end
              case Bad(e) =>
                name == None && if e == Truncated then fatal == None && err == Some(Truncated) else fatal == Some(e)
    {
      var start := off;
      var kind := Uint(1);
      var keyLen := Uint(2);
      if err == None && keyLen > MAX_KEY_LEN {
        return None, Some(KeyTooLong(keyLen));
      }
      var key := Take(keyLen);
      if err.Some? {
        return None, None;
      }
      OneByte(data, start);
      return Some((data[start], key.value)), None;
    }

    method DecodeBody() returns (points: Option<Points>, fatal: Option<Error>)
      requires Valid()
      modifies this
      ensures Valid()
      ensures old(err).Some? ==> points == None && fatal == None && err == old(err) && off == old(off)
      ensures old(err).None? ==>
              match ParseBody(data, old(off))
              case Ok((ps, end)) => points == Some(ps) && fatal == None && err == None && off == end
              case Bad(e) =>
                points == None && if e == Truncated then fatal == None && err == Some(Truncated) else fatal == Some(e)
    {
      var n := Uint(4);
      if err == None && n > MAX_POINTS {
        return None, Some(TooManyPoints(n));
      }
      var raw := Take(n * POINT_SIZE);
      if err.Some? {
        return None, None;
      }
      var ps := DecodeHistoryPoints(raw.value, n);
      return Some(ps), None;
    }

    // One series record. A broken limit is reported at once; running out of data only through the sticky error.
    method DecodeSeries() returns (s: Option<Series>, fatal: Option<Error>)
      requires Valid() && err == None
      modifies this
      ensures Valid()
      ensures match ParseRecord(data, old(off))
              case Ok((record, end)) => s == Some(record) && fatal == None && err == None && off == end
              case Bad(e) =>
                s == None && if e == Truncated then fatal == None && err == Some(Truncated) else fatal == Some(e)
    {
      var name, points;
      name, fatal := DecodeName();
      if fatal.Some? {
        return None, fatal;
      }
      points, fatal := DecodeBody();
      if fatal.Some? || err.Some? {
        return None, fatal;
      }
      s := Some(Series(name.value.0, name.value.1, points.value));
    }
  }

  lemma OneByte(data: seq<byte>, off: nat)
    requires off < |data|
    ensures Field(data, off, 1) == data[off]
  {
    assert data[off..off + 1][1..] == [];
  }

  method DecodeHistoryPoints(raw: seq<byte>, n: nat) returns (ps: Points)
    requires |raw| == n * POINT_SIZE
    ensures ps == PointsOf(raw, n)
  {
    ps := [];
    for j := 0 to n
      invariant ps == PointsOf(raw, n)[..j]
    {
      ps := ps + [PointAt(raw, j)];
    }
  }

  // The records declared by the header, one after the other, until the count is reached or the data runs out.
  method DecodeList(d: HistoryDecoder, count: nat) returns (list: seq<Series>, fatal: Option<Error>)
    requires d.Valid() && d.err == None && d.off == HEADER
    modifies d
    ensures d.Valid()
    ensures match ParseRecords(d.data, count)
            case Ok((records, end)) => list == records && fatal == None && d.err == None && d.off == end
            case Bad(e) => if e == Truncated then fatal == None && d.err == Some(Truncated) else fatal == Some(e)
  {
    hide ParseRecord;
    list, fatal := [], None;
    var i := 0;
    while i < count && d.err == None
      invariant d.Valid() && i <= count && fatal == None
      invariant d.err == None ==> ParseRecords(d.data, i) == Ok((list, d.off))
      invariant d.err.Some? ==> ParseRecords(d.data, count) == Bad(Truncated)
      decreases count - i, d.err == None
    {
      var s;
      s, fatal := d.DecodeSeries();
      if fatal.Some? {
        BadPersists(d.data, i + 1, count, fatal.value);
        return;
      }
      if s.None? {
        BadPersists(d.data, i + 1, count, Truncated);
        break;
      }
      list := list + [s.value];
      i := i + 1;
    }
  }

  lemma {:induction false} BadPersists(data: seq<byte>, n: nat, count: nat, e: Error)
    requires HEADER <= |data| && n <= count && ParseRecords(data, n) == Bad(e)
    ensures ParseRecords(data, count) == Bad(e)
  {
    if n < count {
      BadPersists(data, n, count - 1, e);
    }
  }

  // Terminates on every input, with the verdict and the reason the format prescribes.
  method DecodeHistory(data: seq<byte>) returns (r: Result<History>)
    ensures r == DecodedHistory(data)
  {
    var d := new HistoryDecoder(data);
    var magic := d.Take(|MAGIC|);
    if d.err.Some? || magic.value != MAGIC {
      return Bad(BadMagic);
    }
    var version := d.Uint(2);
    if d.err == None && version != VERSION {
      return Bad(UnsupportedVersion(version));
    }
    var count := d.Uint(4);
    if d.err == None && count > MAX_SERIES {
      return Bad(TooManySeries(count));
    }
    var list, fatal := [], None;
    if d.err == None {
      list, fatal := DecodeList(d, count);
      if fatal.Some? {
        return Bad(fatal.value);
      }
    }
    if d.err.Some? {
      return Bad(d.err.value);
    }
    if d.off != |d.data| {
      return Bad(TrailingData);
    }
    var h := SeriesToHistory(list);
    r := Ok(h);
  }

  method SeriesToHistory(list: seq<Series>) returns (h: History)
    ensures h.Valid() && h == FromList(list)
  {
    h := EmptyHistory();
    assert list[..0] == [];
    for i := 0 to |list|
      invariant h.Valid() && h == FromList(list[..i])
    {
      assert list[..i + 1][..i] == list[..i];
      h := AddSeries(h, list[i]);
    }
    assert list[..|list|] == list;
  }
}
