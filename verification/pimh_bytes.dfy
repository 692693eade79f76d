/** The history file, byte by byte: what is written for one history, and what is read and refused. */
module PimhBytes {
  import opened Bytes
  import opened HistoryData
  import opened Pimh
  import opened PimhTheorems
  import opened PimhHistory
  import SortedKeys

  // A history with one point in every series, two interfaces among the receive series.
  const ROOT: Key := [0x2F]
  const ETH0: Key := [0x65, 0x74, 0x68, 0x30]
  const LO: Key := [0x6C, 0x6F]
  const SDA: Key := [0x73, 0x64, 0x61]

  function Example(): (h: History)
    ensures h.Valid()
  {
    History([[HistoryPoint(1_700_000_000_000 * 1_000_000, 0x3FF0000000000000)],
             [HistoryPoint(-2_000_000, 0xC000000000000000)],
             [HistoryPoint(3_000_000, 0x23)],
             [HistoryPoint(4_000_000, 0x24)],
             [HistoryPoint(5_000_000, 0x25)],
             [HistoryPoint(6_000_000, 0x26)],
             [HistoryPoint(7_000_000, 0x27)]],
            [map[ROOT := [HistoryPoint(8_000_000, 0x28)]],
             map[LO := [HistoryPoint(10_000_000, 0x2A)], ETH0 := [HistoryPoint(9_000_000, 0x29)]],
             map[ETH0 := [HistoryPoint(11_000_000, 0x2B)]],
             map[SDA := [HistoryPoint(12_000_000, 0x2C)]],
             map[SDA := [HistoryPoint(13_000_000, 0x2D)]]])
  }

  // Its file: the header, the seven scalars, then disk, received, sent, read and written, each by key.
  const HEAD: seq<byte> := [0x50, 0x49, 0x4D, 0x48, 0x01, 0x00, 0x0D, 0x00, 0x00, 0x00]
  const R0: seq<byte> := [0x00, 0x00, 0x00, 0x01, 0x00, 0x00, 0x00]
                         + [0x00, 0x68, 0xE5, 0xCF, 0x8B, 0x01, 0x00, 0x00]
                         + [0x00, 0x00, 0x00, 0x00, 0x00, 0x00, 0xF0, 0x3F]
  const R1: seq<byte> := [0x01, 0x00, 0x00, 0x01, 0x00, 0x00, 0x00]
                         + [0xFE, 0xFF, 0xFF, 0xFF, 0xFF, 0xFF, 0xFF, 0xFF]
                         + [0x00, 0x00, 0x00, 0x00, 0x00, 0x00, 0x00, 0xC0]
  const R2: seq<byte> := [0x02, 0x00, 0x00, 0x01, 0x00, 0x00, 0x00]
                         + [0x03, 0x00, 0x00, 0x00, 0x00, 0x00, 0x00, 0x00]
                         + [0x23, 0x00, 0x00, 0x00, 0x00, 0x00, 0x00, 0x00]
  const R3: seq<byte> := [0x03, 0x00, 0x00, 0x01, 0x00, 0x00, 0x00]
                         + [0x04, 0x00, 0x00, 0x00, 0x00, 0x00, 0x00, 0x00]
                         + [0x24, 0x00, 0x00, 0x00, 0x00, 0x00, 0x00, 0x00]
  const R4: seq<byte> := [0x04, 0x00, 0x00, 0x01, 0x00, 0x00, 0x00]
                         + [0x05, 0x00, 0x00, 0x00, 0x00, 0x00, 0x00, 0x00]
                         + [0x25, 0x00, 0x00, 0x00, 0x00, 0x00, 0x00, 0x00]
  const R5: seq<byte> := [0x05, 0x00, 0x00, 0x01, 0x00, 0x00, 0x00]
                         + [0x06, 0x00, 0x00, 0x00, 0x00, 0x00, 0x00, 0x00]
                         + [0x26, 0x00, 0x00, 0x00, 0x00, 0x00, 0x00, 0x00]
  const R6: seq<byte> := [0x06, 0x00, 0x00, 0x01, 0x00, 0x00, 0x00]
                         + [0x07, 0x00, 0x00, 0x00, 0x00, 0x00, 0x00, 0x00]
                         + [0x27, 0x00, 0x00, 0x00, 0x00, 0x00, 0x00, 0x00]
  const R7: seq<byte> := [0x07, 0x01, 0x00, 0x2F, 0x01, 0x00, 0x00, 0x00]
                         + [0x08, 0x00, 0x00, 0x00, 0x00, 0x00, 0x00, 0x00]
                         + [0x28, 0x00, 0x00, 0x00, 0x00, 0x00, 0x00, 0x00]
  const R8: seq<byte> := [0x08, 0x04, 0x00, 0x65, 0x74, 0x68, 0x30, 0x01, 0x00, 0x00, 0x00]
                         + [0x09, 0x00, 0x00, 0x00, 0x00, 0x00, 0x00, 0x00]
                         + [0x29, 0x00, 0x00, 0x00, 0x00, 0x00, 0x00, 0x00]
  const R9: seq<byte> := [0x08, 0x02, 0x00, 0x6C, 0x6F, 0x01, 0x00, 0x00, 0x00]
                         + [0x0A, 0x00, 0x00, 0x00, 0x00, 0x00, 0x00, 0x00]
                         + [0x2A, 0x00, 0x00, 0x00, 0x00, 0x00, 0x00, 0x00]
  const R10: seq<byte> := [0x09, 0x04, 0x00, 0x65, 0x74, 0x68, 0x30, 0x01, 0x00, 0x00, 0x00]
                          + [0x0B, 0x00, 0x00, 0x00, 0x00, 0x00, 0x00, 0x00]
                          + [0x2B, 0x00, 0x00, 0x00, 0x00, 0x00, 0x00, 0x00]
  const R11: seq<byte> := [0x0A, 0x03, 0x00, 0x73, 0x64, 0x61, 0x01, 0x00, 0x00, 0x00]
                          + [0x0C, 0x00, 0x00, 0x00, 0x00, 0x00, 0x00, 0x00]
                          + [0x2C, 0x00, 0x00, 0x00, 0x00, 0x00, 0x00, 0x00]
  const R12: seq<byte> := [0x0B, 0x03, 0x00, 0x73, 0x64, 0x61, 0x01, 0x00, 0x00, 0x00]
                          + [0x0D, 0x00, 0x00, 0x00, 0x00, 0x00, 0x00, 0x00]
                          + [0x2D, 0x00, 0x00, 0x00, 0x00, 0x00, 0x00, 0x00]

  const FILE := HEAD + R0 + R1 + R2 + R3 + R4 + R5 + R6 + R7 + R8 + R9 + R10 + R11 + R12

  lemma OnePoint(p: HistoryPoint)
    requires Representable([p])
    ensures PointsBytes([p]) == PointBytes(p)
  {
    hide PointBytes;
    assert [p][..0] == [] && PointsBytes([]) == [];
  }

  lemma PointIs(ms: int, bits: u64)
    requires -TWO_63 <= ms < TWO_63
    ensures var p := HistoryPoint(ms * 1_000_000, bits);
            Representable([p]) && PointBytes(p) == ToLE(Unsigned(ms), 8) + ToLE(bits, 8)
  {
    hide ToLE, Unsigned;
    assert UnixMilli(ms * 1_000_000) == ms;
  }

  lemma Reassociate(a: seq<byte>, b: seq<byte>, c: seq<byte>, d: seq<byte>, e: seq<byte>, f: seq<byte>)
    ensures (a + b + c) + (d + (e + f)) == a + b + c + d + e + f
  {
  }

  lemma OneRecord(kind: byte, key: Key, ms: int, bits: u64)
    requires -TWO_63 <= ms < TWO_63
    ensures var s := Series(kind, key, [HistoryPoint(ms * 1_000_000, bits)]);
            && Representable(s.points)
            && SeriesBytes(s) == [kind] + ToLE(|key|, 2) + key + ToLE(1, 4) + ToLE(Unsigned(ms), 8) + ToLE(bits, 8)
  {
    hide ToLE, Unsigned, PointsBytes, PointBytes, Representable;
    PointIs(ms, bits);
    OnePoint(HistoryPoint(ms * 1_000_000, bits));
    Reassociate([kind], ToLE(|key|, 2), key, ToLE(1, 4), ToLE(Unsigned(ms), 8), ToLE(bits, 8));
  }

  // A length or value below 256 in two, four and eight bytes.
  lemma Small(x: nat)
    requires x < 256
    ensures ToLE(x, 2) == [x, 0] && ToLE(x, 4) == [x, 0, 0, 0] && ToLE(x, 8) == [x, 0, 0, 0, 0, 0, 0, 0]
  {
    assert x % 256 == x && x / 256 == 0;
    assert ToLE(0, 1) == [0] && ToLE(0, 2) == [0, 0] && ToLE(0, 3) == [0, 0, 0] && ToLE(0, 4) == [0, 0, 0, 0];
    assert ToLE(0, 5) == [0, 0, 0, 0, 0] && ToLE(0, 6) == [0, 0, 0, 0, 0, 0] && ToLE(0, 7) == [0, 0, 0, 0, 0, 0, 0];
  }

  // A record of one point with a short key, its time and its value given in bytes.
  lemma RecordOf(kind: byte, key: Key, ms: int, bits: u64, t: seq<byte>, v: seq<byte>)
    requires |key| < 256 && -TWO_63 <= ms < TWO_63 && t == ToLE(Unsigned(ms), 8) && v == ToLE(bits, 8)
    ensures var s := Series(kind, key, [HistoryPoint(ms * 1_000_000, bits)]);
            Representable(s.points) && SeriesBytes(s) == [kind, |key|, 0] + key + [1, 0, 0, 0] + t + v
  {
    hide ToLE, Unsigned, SeriesBytes, Representable;
    Small(|key|);
    Small(1);
    OneRecord(kind, key, ms, bits);
    assert [kind] + [|key|, 0] == [kind, |key|, 0];
  }

  // Its time and value fit one byte each.
  lemma SmallRecord(kind: byte, key: Key, ms: nat, bits: nat)
    requires |key| < 256 && ms < 256 && bits < 256
    ensures var s := Series(kind, key, [HistoryPoint(ms * 1_000_000, bits)]);
            && Representable(s.points)
            && SeriesBytes(s) == [kind, |key|, 0] + key + [1, 0, 0, 0]
                                 + [ms, 0, 0, 0, 0, 0, 0, 0] + [bits, 0, 0, 0, 0, 0, 0, 0]
  {
    Small(ms);
    Small(bits);
    assert Unsigned(ms) == ms;
    hide ToLE, Unsigned, SeriesBytes, Representable;
    RecordOf(kind, key, ms, bits, [ms, 0, 0, 0, 0, 0, 0, 0], [bits, 0, 0, 0, 0, 0, 0, 0]);
  }

  lemma ScalarStart(kind: byte)
    ensures [kind, 0, 0] + [] + [1, 0, 0, 0] == [kind, 0, 0, 1, 0, 0, 0]
  {
  }

  lemma UnsignedIs()
    ensures Unsigned(1_700_000_000_000) == 1_700_000_000_000 && Unsigned(-2) == 0xFFFFFFFFFFFFFFFE
  {
  }

  lemma Record0()
    ensures var s := Series(0, [], [HistoryPoint(1_700_000_000_000 * 1_000_000, 0x3FF0000000000000)]);
            Representable(s.points) && SeriesBytes(s) == R0
  {
    hide ToLE, Unsigned, SeriesBytes, Representable;
    ScalarStart(0);
    UnsignedIs();
    EpochBytes();
    OneBytes();
    RecordOf(0, [], 1_700_000_000_000, 0x3FF0000000000000,
             [0x00, 0x68, 0xE5, 0xCF, 0x8B, 0x01, 0x00, 0x00], [0x00, 0x00, 0x00, 0x00, 0x00, 0x00, 0xF0, 0x3F]);
  }

  lemma Record1()
    ensures var s := Series(1, [], [HistoryPoint(-2_000_000, 0xC000000000000000)]);
            Representable(s.points) && SeriesBytes(s) == R1
  {
    hide ToLE, Unsigned, SeriesBytes, Representable;
    ScalarStart(1);
    UnsignedIs();
    MinusTwoBytes();
    MinusTwoPointZeroBytes();
    RecordOf(1, [], -2, 0xC000000000000000,
             [0xFE, 0xFF, 0xFF, 0xFF, 0xFF, 0xFF, 0xFF, 0xFF], [0x00, 0x00, 0x00, 0x00, 0x00, 0x00, 0x00, 0xC0]);
  }

  lemma Record2()
    ensures var s := Series(2, [], [HistoryPoint(3_000_000, 0x23)]); Representable(s.points) && SeriesBytes(s) == R2
  {
    hide SeriesBytes, Representable;
    SmallRecord(2, [], 3, 0x23);
  }

  lemma Record3()
    ensures var s := Series(3, [], [HistoryPoint(4_000_000, 0x24)]); Representable(s.points) && SeriesBytes(s) == R3
  {
    hide SeriesBytes, Representable;
    SmallRecord(3, [], 4, 0x24);
  }

  lemma Record4()
    ensures var s := Series(4, [], [HistoryPoint(5_000_000, 0x25)]); Representable(s.points) && SeriesBytes(s) == R4
  {
    hide SeriesBytes, Representable;
    SmallRecord(4, [], 5, 0x25);
  }

  lemma Record5()
    ensures var s := Series(5, [], [HistoryPoint(6_000_000, 0x26)]); Representable(s.points) && SeriesBytes(s) == R5
  {
    hide SeriesBytes, Representable;
    SmallRecord(5, [], 6, 0x26);
  }

  lemma Record6()
    ensures var s := Series(6, [], [HistoryPoint(7_000_000, 0x27)]); Representable(s.points) && SeriesBytes(s) == R6
  {
    hide SeriesBytes, Representable;
    SmallRecord(6, [], 7, 0x27);
  }

  lemma Record7()
    ensures var s := Series(7, ROOT, [HistoryPoint(8_000_000, 0x28)]); Representable(s.points) && SeriesBytes(s) == R7
  {
    hide SeriesBytes, Representable;
    SmallRecord(7, ROOT, 8, 0x28);
  }

  lemma Record8()
    ensures var s := Series(8, ETH0, [HistoryPoint(9_000_000, 0x29)]); Representable(s.points) && SeriesBytes(s) == R8
  {
    hide SeriesBytes, Representable;
    SmallRecord(8, ETH0, 9, 0x29);
  }

  lemma Record9()
    ensures var s := Series(8, LO, [HistoryPoint(10_000_000, 0x2A)]); Representable(s.points) && SeriesBytes(s) == R9
  {
    hide SeriesBytes, Representable;
    SmallRecord(8, LO, 10, 0x2A);
  }

  lemma Record10()
    ensures var s := Series(9, ETH0, [HistoryPoint(11_000_000, 0x2B)]); Representable(s.points) && SeriesBytes(s) == R10
  {
    hide SeriesBytes, Representable;
    SmallRecord(9, ETH0, 11, 0x2B);
  }

  lemma Record11()
    ensures var s := Series(10, SDA, [HistoryPoint(12_000_000, 0x2C)]); Representable(s.points) && SeriesBytes(s) == R11
  {
    hide SeriesBytes, Representable;
    SmallRecord(10, SDA, 12, 0x2C);
  }

  lemma Record12()
    ensures var s := Series(11, SDA, [HistoryPoint(13_000_000, 0x2D)]); Representable(s.points) && SeriesBytes(s) == R12
  {
    hide SeriesBytes, Representable;
    SmallRecord(11, SDA, 13, 0x2D);
  }

  lemma LEStep(x: nat, b: byte, n: nat)
    ensures ToLE(256 * x + b, n + 1) == [b] + ToLE(x, n)
  {
    assert (256 * x + b) % 256 == b && (256 * x + b) / 256 == x;
  }

  lemma EpochBytes()
    ensures ToLE(1_700_000_000_000, 8) == [0x00, 0x68, 0xE5, 0xCF, 0x8B, 0x01, 0x00, 0x00]
  {
    hide ToLE;
    LEStep(0, 0x00, 0);
    LEStep(0, 0x00, 1);
    LEStep(0, 0x01, 2);
    LEStep(0x1, 0x8B, 3);
    LEStep(0x18B, 0xCF, 4);
    LEStep(0x18BCF, 0xE5, 5);
    LEStep(0x18BCFE5, 0x68, 6);
    LEStep(0x18BCFE568, 0x00, 7);
  }

  lemma OneBytes()
    ensures ToLE(0x3FF0000000000000, 8) == [0x00, 0x00, 0x00, 0x00, 0x00, 0x00, 0xF0, 0x3F]
  {
    hide ToLE;
    LEStep(0, 0x3F, 0);
    LEStep(0x3F, 0xF0, 1);
    LEStep(0x3FF0, 0x00, 2);
    LEStep(0x3FF000, 0x00, 3);
    LEStep(0x3FF00000, 0x00, 4);
    LEStep(0x3FF0000000, 0x00, 5);
    LEStep(0x3FF000000000, 0x00, 6);
    LEStep(0x3FF00000000000, 0x00, 7);
  }

  lemma MinusTwoBytes()
    ensures ToLE(0xFFFFFFFFFFFFFFFE, 8) == [0xFE, 0xFF, 0xFF, 0xFF, 0xFF, 0xFF, 0xFF, 0xFF]
  {
    hide ToLE;
    LEStep(0, 0xFF, 0);
    LEStep(0xFF, 0xFF, 1);
    LEStep(0xFFFF, 0xFF, 2);
    LEStep(0xFFFFFF, 0xFF, 3);
    LEStep(0xFFFFFFFF, 0xFF, 4);
    LEStep(0xFFFFFFFFFF, 0xFF, 5);
    LEStep(0xFFFFFFFFFFFF, 0xFF, 6);
    LEStep(0xFFFFFFFFFFFFFF, 0xFE, 7);
  }

  lemma MinusTwoPointZeroBytes()
    ensures ToLE(0xC000000000000000, 8) == [0x00, 0x00, 0x00, 0x00, 0x00, 0x00, 0x00, 0xC0]
  {
    hide ToLE;
    LEStep(0, 0xC0, 0);
    LEStep(0xC0, 0x00, 1);
    LEStep(0xC000, 0x00, 2);
    LEStep(0xC00000, 0x00, 3);
    LEStep(0xC0000000, 0x00, 4);
    LEStep(0xC000000000, 0x00, 5);
    LEStep(0xC00000000000, 0x00, 6);
    LEStep(0xC0000000000000, 0x00, 7);
  }

  // ------------------------------------------------------------------------------------------
  // The whole file

  function Listed(): (list: seq<Series>)
    ensures |list| == 13
  {
    [Series(0, [], [HistoryPoint(1_700_000_000_000 * 1_000_000, 0x3FF0000000000000)]),
     Series(1, [], [HistoryPoint(-2_000_000, 0xC000000000000000)]),
     Series(2, [], [HistoryPoint(3_000_000, 0x23)]),
     Series(3, [], [HistoryPoint(4_000_000, 0x24)]),
     Series(4, [], [HistoryPoint(5_000_000, 0x25)]),
     Series(5, [], [HistoryPoint(6_000_000, 0x26)]),
     Series(6, [], [HistoryPoint(7_000_000, 0x27)]),
     Series(7, ROOT, [HistoryPoint(8_000_000, 0x28)]),
     Series(8, ETH0, [HistoryPoint(9_000_000, 0x29)]),
     Series(8, LO, [HistoryPoint(10_000_000, 0x2A)]),
     Series(9, ETH0, [HistoryPoint(11_000_000, 0x2B)]),
     Series(10, SDA, [HistoryPoint(12_000_000, 0x2C)]),
     Series(11, SDA, [HistoryPoint(13_000_000, 0x2D)])]
  }

  function Record(i: nat): seq<byte> {
    if i == 0 then R0
    else if i == 1 then R1
    else if i == 2 then R2
    else if i == 3 then R3
    else if i == 4 then R4
    else if i == 5 then R5
    else if i == 6 then R6
    else if i == 7 then R7
    else if i == 8 then R8
    else if i == 9 then R9
    else if i == 10 then R10
    else if i == 11 then R11
    else R12
  }

  lemma RecordsAre(i: nat)
    requires i < 13
    ensures Representable(Listed()[i].points) && SeriesBytes(Listed()[i]) == Record(i)
  {
    hide SeriesBytes, Representable;
    Record0();
    Record1();
    Record2();
    Record3();
    Record4();
    Record5();
    Record6();
    Record7();
    Record8();
    Record9();
    Record10();
    Record11();
    Record12();
  }

  lemma ListedRepresentable()
    ensures AllRepresentable(Listed())
  {
    forall i | 0 <= i < |Listed()|
      ensures Representable(Listed()[i].points)
    {
      RecordsAre(i);
    }
  }

  ghost function Written(i: nat): seq<byte> {
    if i == 0 then HEAD else Written(i - 1) + Record(i - 1)
  }

  lemma Header()
    ensures HeaderBytes(13) == HEAD
  {
    Small(1);
    Small(13);
    hide ToLE;
  }

  lemma WrittenSnoc(count: nat, list: seq<Series>, s: Series, w: seq<byte>)
    requires AllRepresentable(list) && Representable(s.points) && HeaderBytes(count) + ListBytes(list) == w
    ensures AllRepresentable(list + [s]) && HeaderBytes(count) + ListBytes(list + [s]) == w + SeriesBytes(s)
  {
    hide HeaderBytes, ListBytes, SeriesBytes, Representable;
    ListBytesSnoc(list, s);
  }

  lemma {:induction false} WrittenIs(i: nat)
    requires i <= 13
    ensures AllRepresentable(Listed()[..i]) && HeaderBytes(13) + ListBytes(Listed()[..i]) == Written(i)
  {
    hide SeriesBytes, Representable, Listed, Record, HeaderBytes, ListBytes, AllRepresentable;
    if i == 0 {
      Header();
      NothingListed();
    } else {
      WrittenIs(i - 1);
      RecordsAre(i - 1);
      WrittenSnoc(13, Listed()[..i - 1], Listed()[i - 1], Written(i - 1));
      assert Listed()[..i] == Listed()[..i - 1] + [Listed()[i - 1]];
    }
  }

  lemma NothingListed()
    ensures AllRepresentable([]) && ListBytes([]) == []
  {
  }

  lemma FileIsWritten()
    ensures Written(13) == FILE
  {
    hide HEAD, R0, R1, R2, R3, R4, R5, R6, R7, R8, R9, R10, R11, R12;
  }

  lemma SortedOne(k: Key)
    ensures SortedKeys.Sort({k}) == [k]
  {
    SortedKeys.SortedUnique([k], SortedKeys.Sort({k}));
  }

  lemma OneDevice(kind: byte, k: Key, ps: Points)
    requires |k| <= 4096
    ensures DeviceSeries(kind, map[k := ps]) == [Series(kind, k, ps)]
  {
    SortedOne(k);
    assert StoredKeys(map[k := ps]) == {k};
  }

  lemma TwoDevices(kind: byte, j: Key, k: Key, ps: Points, qs: Points)
    requires |j| <= 4096 && |k| <= 4096 && SortedKeys.Less(j, k) && j != k
    ensures DeviceSeries(kind, map[k := qs, j := ps]) == [Series(kind, j, ps), Series(kind, k, qs)]
  {
    SortedKeys.SortedUnique([j, k], SortedKeys.Sort({j, k}));
    assert StoredKeys(map[k := qs, j := ps]) == {j, k};
  }

  lemma ExampleListed()
    ensures SeriesList(Example()) == Listed()
  {
    var h := Example();
    hide DeviceSeries;
    OneDevice(7, ROOT, h.device[0][ROOT]);
    TwoDevices(8, ETH0, LO, h.device[1][ETH0], h.device[1][LO]);
    OneDevice(9, ETH0, h.device[2][ETH0]);
    OneDevice(10, SDA, h.device[3][SDA]);
    OneDevice(11, SDA, h.device[4][SDA]);
    assert ScalarSeries(h, 7) == Listed()[..7];
    assert SeriesUpTo(h, 1) == Listed()[..8];
    assert SeriesUpTo(h, 2) == Listed()[..10];
    assert SeriesUpTo(h, 3) == Listed()[..11];
    assert SeriesUpTo(h, 4) == Listed()[..12];
  }

  // Nothing of a series in whole milliseconds is lost.
  ghost predicate Whole(ps: Points) {
    forall i :: 0 <= i < |ps| ==> ps[i].at % 1_000_000 == 0
  }

  ghost predicate WholeMap(m: map<Key, Points>) {
    forall k :: k in m ==> |k| <= 4096 && Whole(m[k])
  }

  lemma WholeFloor(ps: Points)
    requires Whole(ps)
    ensures FloorPoints(ps) == ps
  {
    forall i | 0 <= i < |ps|
      ensures FloorPoint(ps[i]) == ps[i]
    {
      assert ps[i].at % 1_000_000 == 0;
    }
  }

  lemma WholeStored(h: History)
    requires h.Valid() && (forall k :: 0 <= k < SCALARS ==> Whole(h.scalar[k]))
    requires forall d :: 0 <= d < DEVICES ==> WholeMap(h.device[d])
    ensures Stored(h) == h
  {
    hide Whole;
    forall k | 0 <= k < SCALARS
      ensures Stored(h).scalar[k] == h.scalar[k]
    {
      WholeFloor(h.scalar[k]);
    }
    forall d | 0 <= d < DEVICES
      ensures Stored(h).device[d] == h.device[d]
    {
      assert WholeMap(h.device[d]);
      forall k | k in h.device[d]
        ensures FloorPoints(h.device[d][k]) == h.device[d][k]
      {
        WholeFloor(h.device[d][k]);
      }
    }
  }

  lemma ExampleFits()
    ensures RepresentableHistory(Example()) && PointsBelow(Example(), 2)
  {
  }

  lemma ExampleWhole()
    ensures forall k :: 0 <= k < SCALARS ==> Whole(Example().scalar[k])
    ensures forall d :: 0 <= d < DEVICES ==> WholeMap(Example().device[d])
  {
  }

  lemma ExampleStored()
    ensures Stored(Example()) == Example()
  {
    hide Stored, Example, Whole, WholeMap;
    ExampleWhole();
    WholeStored(Example());
  }

  lemma ExampleWritten()
    requires RepresentableHistory(Example())
    ensures EncodedHistory(Example()) == FILE
  {
    hide Example, Listed, Written, Record, FILE, SeriesList, RepresentableHistory, ListBytes, HeaderBytes;
    ExampleListed();
    WrittenIs(13);
    FileIsWritten();
    assert Listed()[..13] == Listed();
  }

  lemma ListedShort()
    ensures forall i :: 0 <= i < |Listed()| ==> |Listed()[i].points| == 1
  {
  }

  // The file written for the example, and what it reads back as.
  lemma ExampleFile()
    ensures RepresentableHistory(Example()) && EncodedHistory(Example()) == FILE
    ensures DecodedHistory(FILE) == Ok(Example())
  {
    hide Example, Listed, FILE, Stored, EncodedHistory, DecodedHistory, SeriesList, RepresentableHistory;
    ExampleFits();
    ExampleListed();
    ExampleWritten();
    ListedShort();
    RoundTrip(Example());
    ExampleStored();
  }

  // ------------------------------------------------------------------------------------------
  // Small files

  // The header of a file of up to 255 series.
  lemma SmallHeader(count: nat)
    requires count < 256
    ensures HeaderBytes(count) == [0x50, 0x49, 0x4D, 0x48, 0x01, 0x00, count, 0x00, 0x00, 0x00]
  {
    Small(1);
    Small(count);
    hide ToLE;
  }

  // A file without series.
  lemma EmptyFile()
    ensures DecodedHistory([0x50, 0x49, 0x4D, 0x48, 0x01, 0x00, 0x00, 0x00, 0x00, 0x00])
         == Ok(History([[], [], [], [], [], [], []], [map[], map[], map[], map[], map[]]))
  {
    SmallHeader(0);
    NothingListed();
    DecodeIsComplete([]);
    hide Decode, HeaderBytes;
    assert Serialize([]) == [0x50, 0x49, 0x4D, 0x48, 0x01, 0x00, 0x00, 0x00, 0x00, 0x00];
    assert FloorList([]) == [];
    assert EmptyHistory() == History([[], [], [], [], [], [], []], [map[], map[], map[], map[], map[]]);
  }

  const NEWER: seq<byte> := [0x50, 0x49, 0x4D, 0x48, 0x01, 0x00, 0x01, 0x00, 0x00, 0x00,
                             0x0C, 0x00, 0x00, 0x01, 0x00, 0x00, 0x00,
                             0x05, 0x00, 0x00, 0x00, 0x00, 0x00, 0x00, 0x00,
                             0x06, 0x00, 0x00, 0x00, 0x00, 0x00, 0x00, 0x00]

  lemma SerializeOne(s: Series)
    requires Representable(s.points)
    ensures AllRepresentable([s]) && Serialize([s]) == HeaderBytes(1) + SeriesBytes(s)
  {
    hide HeaderBytes, SeriesBytes, ListBytes, Representable;
    NothingListed();
    ListBytesSnoc([], s);
    assert [] + [s] == [s];
  }

  // A series of a kind added later is skipped.
  lemma OneSkipped(s: Series)
    requires Representable(s.points) && s.kind >= 12 && |s.key| <= 4096 && |s.points| <= 2_097_152
    ensures AllRepresentable([s]) && DecodedHistory(Serialize([s])) == Ok(EmptyHistory())
  {
    LaterRecordWins([], FloorSeries(s));
    hide Decode, Serialize, Representable, EmptyHistory, AddSeries;
    DecodeIsComplete([s]);
    NoneOver([s]);
    assert FloorList([s]) == [] + [FloorSeries(s)];
    assert FromList([]) == EmptyHistory();
  }

  lemma UnknownKind()
    ensures DecodedHistory(NEWER) == Ok(EmptyHistory())
  {
    var s := Series(12, [], [HistoryPoint(5 * 1_000_000, 6)]);
    hide *;
    SmallRecord(12, [], 5, 6);
    SmallHeader(1);
    SerializeOne(s);
    OneSkipped(s);
    NewerIs();
  }

  lemma NewerIs()
    ensures NEWER == [0x50, 0x49, 0x4D, 0x48, 0x01, 0x00, 1, 0x00, 0x00, 0x00]
                     + ([12, 0, 0] + [] + [1, 0, 0, 0] + [5, 0, 0, 0, 0, 0, 0, 0] + [6, 0, 0, 0, 0, 0, 0, 0])
  {
  }

  // What one more record does to the history read so far, whichever records came before.
  lemma LaterRecordWins(list: seq<Series>, s: Series)
    ensures var before, after := FromList(list), FromList(list + [s]);
            && (s.kind < 7 ==> after == before.(scalar := before.scalar[s.kind := s.points]))
            && (7 <= s.kind < 12 ==>
                after == before.(device := before.device[s.kind - 7 := before.device[s.kind - 7][s.key := s.points]]))
            && (s.kind >= 12 ==> after == before)
  {
    FromListSnoc(list, s);
    hide FromList;
  }

  // ------------------------------------------------------------------------------------------
  // Refusals

  lemma {:induction false} RecordErrors(data: seq<byte>, count: nat)
    requires HEADER <= |data| && ParseRecords(data, count).Bad?
    ensures var e := ParseRecords(data, count).error;
            || (e.KeyTooLong? && e.length > 4096) || (e.TooManyPoints? && e.count > 2_097_152) || e == Truncated
  {
    hide Field, PointsOf;
    if count == 0 {
    } else if ParseRecords(data, count - 1).Bad? {
      RecordErrors(data, count - 1);
    }
  }

  // Little-endian integers of two and four bytes.
  function Two(b0: nat, b1: nat): nat {
    b0 + 256 * b1
  }

  function Four(b0: nat, b1: nat, b2: nat, b3: nat): nat {
    b0 + 256 * (b1 + 256 * (b2 + 256 * b3))
  }

  lemma Fields(data: seq<byte>)
    ensures |data| >= 6 ==> Field(data, 4, 2) == Two(data[4], data[5])
    ensures |data| >= 10 ==> Field(data, 6, 4) == Four(data[6], data[7], data[8], data[9])
  {
    if |data| >= 6 {
      FromLE2(data[4..6]);
    }
    if |data| >= 10 {
      FromLE4(data[6..10]);
    }
  }

  lemma FromLE2(b: seq<byte>)
    requires |b| == 2
    ensures FromLE(b) == Two(b[0], b[1])
  {
    assert FromLE(b[1..]) == b[1];
  }

  lemma FromLE4(b: seq<byte>)
    requires |b| == 4
    ensures FromLE(b) == Four(b[0], b[1], b[2], b[3])
  {
    FromLE2(b[2..]);
    assert b[1..][1..] == b[2..];
    assert FromLE(b) == b[0] + 256 * FromLE(b[1..]);
  }

  // Which files are refused at the header and with which error; whatever comes after it can only be a record over the
  // limits, the end of the data or data too many.
  lemma RefusedAtHeader(data: seq<byte>)
    ensures DecodedHistory(data) == Bad(BadMagic) <==> |data| < 4 || data[..4] != [0x50, 0x49, 0x4D, 0x48]
    ensures |data| >= 4 && data[..4] == [0x50, 0x49, 0x4D, 0x48] ==>
              && (|data| < 6 ==> DecodedHistory(data) == Bad(Truncated))
              && (|data| >= 6 && (data[4] != 1 || data[5] != 0) ==>
                  DecodedHistory(data) == Bad(UnsupportedVersion(Two(data[4], data[5]))))
              && (|data| >= 6 && data[4] == 1 && data[5] == 0 ==>
                  && (|data| < 10 ==> DecodedHistory(data) == Bad(Truncated))
                  && (|data| >= 10 ==>
                      var count := Four(data[6], data[7], data[8], data[9]);
                      if count > 4096 then DecodedHistory(data) == Bad(TooManySeries(count))
                      else DecodedHistory(data).Ok? || InRecords(DecodedHistory(data).error)))
  {
    Fields(data);
    if |data| >= 10 && ParseRecords(data, Field(data, 6, 4)).Bad? {
      RecordErrors(data, Field(data, 6, 4));
    }
    hide Field, ParseRecords;
  }

  predicate InRecords(e: Error) {
    || (e.KeyTooLong? && e.length > 4096) || (e.TooManyPoints? && e.count > 2_097_152)
    || e == Truncated || e == TrailingData
  }
}
