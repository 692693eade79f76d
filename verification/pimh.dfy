/** The PIMH v1 history file: what it contains, and that it can be read in exactly one way. */
module Pimh {
  import opened Bytes
  import opened HistoryData

  const MAGIC: seq<byte> := [0x50, 0x49, 0x4D, 0x48]
  const VERSION := 1
  const MAX_SERIES := 0x1000
  const MAX_KEY_LEN := 0x1000
  const MAX_POINTS := 0x20_0000
  const POINT_SIZE := 16
  const HEADER := 10
  const TWO_32 := 0x1_0000_0000

  datatype Series = Series(kind: byte, key: Key, points: Points)

  datatype Error = BadMagic | UnsupportedVersion(version: nat) | TooManySeries(count: nat)
                 | KeyTooLong(length: nat) | TooManyPoints(count: nat) | Truncated | TrailingData

  datatype Result<T> = Ok(value: T) | Bad(error: Error)

  // The timestamp, in milliseconds, fits the file's signed 64-bit field.
  predicate Representable(ps: Points) {
    forall i :: 0 <= i < |ps| ==> -TWO_63 <= UnixMilli(ps[i].at) < TWO_63
  }

  // ------------------------------------------------------------------------------------------
  // Writing

  function PointBytes(p: HistoryPoint): (b: seq<byte>)
    requires Representable([p])
    ensures |b| == POINT_SIZE
  {
    assert p == [p][0];
    ToLE(Unsigned(UnixMilli(p.at)), 8) + ToLE(p.bits, 8)
  }

  function PointsBytes(ps: Points): (b: seq<byte>)
    requires Representable(ps)
    ensures |b| == POINT_SIZE * |ps|
  {
    if |ps| == 0 then [] else PointsBytes(ps[..|ps| - 1]) + PointBytes(ps[|ps| - 1])
  }

  // A record is its name (kind and length-prefixed key) and its length-prefixed points.
  function NameBytes(kind: byte, key: Key): (b: seq<byte>)
    ensures |b| == 3 + |key|
  {
    [kind] + ToLE(|key|, 2) + key
  }

  function BodyBytes(ps: Points): (b: seq<byte>)
    requires Representable(ps)
    ensures |b| == 4 + POINT_SIZE * |ps|
  {
    ToLE(|ps|, 4) + PointsBytes(ps)
  }

  function SeriesBytes(s: Series): (b: seq<byte>)
    requires Representable(s.points)
    ensures |b| == 7 + |s.key| + POINT_SIZE * |s.points|
  {
    NameBytes(s.kind, s.key) + BodyBytes(s.points)
  }

  ghost predicate AllRepresentable(list: seq<Series>) {
    forall i :: 0 <= i < |list| ==> Representable(list[i].points)
  }

  ghost function ListBytes(list: seq<Series>): seq<byte>
    requires AllRepresentable(list)
  {
    if |list| == 0 then [] else ListBytes(list[..|list| - 1]) + SeriesBytes(list[|list| - 1])
  }

  function HeaderBytes(count: nat): (b: seq<byte>)
    ensures |b| == HEADER
  {
    MAGIC + ToLE(VERSION, 2) + ToLE(count, 4)
  }

  ghost function Serialize(list: seq<Series>): seq<byte>
    requires AllRepresentable(list)
  {
    HeaderBytes(|list|) + ListBytes(list)
  }

  // The limits a reader enforces.
  ghost predicate WithinLimits(s: Series) {
    |s.key| <= MAX_KEY_LEN && |s.points| <= MAX_POINTS
  }

  ghost predicate Readable(list: seq<Series>) {
    |list| <= MAX_SERIES && forall i :: 0 <= i < |list| ==> WithinLimits(list[i])
  }

  // ------------------------------------------------------------------------------------------
  // Reading

  function Field(data: seq<byte>, off: nat, n: nat): nat
    requires off + n <= |data|
  {
    FromLE(data[off..off + n])
  }

  function PointAt(raw: seq<byte>, j: nat): HistoryPoint
    requires POINT_SIZE * (j + 1) <= |raw|
  {
    Widths();
    HistoryPoint(Signed(Field(raw, POINT_SIZE * j, 8)) * NANOS_PER_MILLI, Field(raw, POINT_SIZE * j + 8, 8))
  }

  function PointsOf(raw: seq<byte>, n: nat): (ps: Points)
    requires |raw| == POINT_SIZE * n
    ensures |ps| == n
  {
    seq(n, j requires 0 <= j < n => PointAt(raw, j))
  }

  // Kind and key of the record at off, and the offset of its points.
  function ParseName(data: seq<byte>, off: nat): (r: Result<(byte, Key, nat)>)
    requires off <= |data|
    ensures r.Ok? ==> off < r.value.2 <= |data|
  {
    if |data| - off < 3 then Bad(Truncated)
    else
      var keyLen := Field(data, off + 1, 2);
      if keyLen > MAX_KEY_LEN then Bad(KeyTooLong(keyLen))
      else if |data| - off - 3 < keyLen then Bad(Truncated)
      else Ok((data[off], data[off + 3..off + 3 + keyLen], off + 3 + keyLen))
  }

  function ParseBody(data: seq<byte>, off: nat): (r: Result<(Points, nat)>)
    requires off <= |data|
    ensures r.Ok? ==> off < r.value.1 <= |data|
  {
    if |data| - off < 4 then Bad(Truncated)
    else
      var n := Field(data, off, 4);
      if n > MAX_POINTS then Bad(TooManyPoints(n))
      else if |data| - off - 4 < n * POINT_SIZE then Bad(Truncated)
      else Ok((PointsOf(data[off + 4..off + 4 + n * POINT_SIZE], n), off + 4 + n * POINT_SIZE))
  }

  // One record starting at off, and the offset after it.
  function ParseRecord(data: seq<byte>, off: nat): (r: Result<(Series, nat)>)
    requires off <= |data|
    ensures r.Ok? ==> off < r.value.1 <= |data|
  {
    match ParseName(data, off)
    case Bad(e) => Bad(e)
    case Ok((kind, key, body)) =>
      match ParseBody(data, body)
      case Bad(e) => Bad(e)
      case Ok((points, end)) => Ok((Series(kind, key, points), end))
  }

  // The first `count` records after the header.
  ghost function ParseRecords(data: seq<byte>, count: nat): (r: Result<(seq<Series>, nat)>)
    requires HEADER <= |data|
    ensures r.Ok? ==> HEADER <= r.value.1 <= |data| && |r.value.0| == count
  {
    if count == 0 then Ok(([], HEADER))
    else
      match ParseRecords(data, count - 1)
      case Bad(e) => Bad(e)
      case Ok((list, off)) =>
        match ParseRecord(data, off)
        case Bad(e) => Bad(e)
        case Ok((s, end)) => Ok((list + [s], end))
  }

  ghost function Decode(data: seq<byte>): Result<seq<Series>> {
    if |data| < 4 || data[..4] != MAGIC then Bad(BadMagic)
    else if |data| < 6 then Bad(Truncated)
    else if Field(data, 4, 2) != VERSION then Bad(UnsupportedVersion(Field(data, 4, 2)))
    else if |data| < HEADER then Bad(Truncated)
    else if Field(data, 6, 4) > MAX_SERIES then Bad(TooManySeries(Field(data, 6, 4)))
    else
      match ParseRecords(data, Field(data, 6, 4))
      case Bad(e) => Bad(e)
      case Ok((list, off)) => if off == |data| then Ok(list) else Bad(TrailingData)
  }
}
