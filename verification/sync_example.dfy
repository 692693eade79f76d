/** A concrete run that appends a delta although every scalar series jumps by more than the join test's tolerance. */
module SyncExample {
  import opened Seqs
  import opened HistoryData
  import opened Devices
  import opened Trim
  import opened StoreValues
  import opened Picks
  import opened Dashboard
  import opened DashboardFacts
  import opened Polling
  import opened SyncServer
  import opened SyncClient
  import opened SyncMerge
  import opened SyncRuns
  import opened SyncTheorems

  // Five-second ticks and a capacity of four points; one disk answers every fourth tick only.
  const INTERVAL := 5_000_000_000
  const CAPACITY := 4
  const DISK: Key := [117, 115, 98]
  const SETTING := Setting(ClientConfig(5000, 20000), CAPACITY, CAPACITY * INTERVAL)

  function At(i: nat): HistoryPoint {
    HistoryPoint(i * INTERVAL, 0)
  }

  function Measured(i: nat): Measurement {
    Measurement(i * INTERVAL, seq(SCALARS, k => 0), if i % 4 == 1 then [Report(DISK, 0)] else [], [], [])
  }

  ghost function Server(i: nat): (h: History)
    ensures h.Valid()
  {
    Ticked(if i == 0 then EmptyHistory() else Server(i - 1), Measured(i), CAPACITY, CAPACITY * INTERVAL)
  }

  ghost function Log(i: nat): Points {
    seq(i + 1, j requires 0 <= j => At(j))
  }

  lemma {:induction false} ServerScalar(i: nat, k: nat)
    requires k < SCALARS
    ensures Server(i).scalar[k] == LastN(Log(i), CAPACITY)
  {
    if i == 0 {
      assert Log(0) == [] + [At(0)];
    } else {
      ServerScalar(i - 1, k);
      assert Log(i) == Log(i - 1) + [At(i)];
      LastNAppend(Log(i - 1), [At(i)], CAPACITY);
    }
  }

  // What the disk has reported by tick i.
  ghost function Reported(i: nat): Points {
    seq((i + 3) / 4, j requires 0 <= j => At(4 * j + 1))
  }

  lemma DiskStep(m: SeriesByKey, i: nat)
    requires 0 < i <= 9 && m == (if i == 1 then map[] else map[DISK := Reported(i - 1)])
    ensures AfterTick(m, Devices.Tick(i * INTERVAL, Measured(i).disks), CAPACITY, CAPACITY * INTERVAL)
            == map[DISK := Reported(i)]
  {
    var rs := Measured(i).disks;
    assert rs[..0] == [];
    if i % 4 == 1 {
      assert Reported(i) == (if i == 1 then [] else Reported(i - 1)) + [At(i)];
      assert KeysOf(rs) == {rs[0].key};
      assert RecordAll(m, rs, i * INTERVAL, CAPACITY) == map[DISK := Reported(i)];
    } else {
      assert Reported(i) == Reported(i - 1);
    }
  }

  lemma NoReports(i: nat)
    ensures AfterTick(map[], Devices.Tick(i * INTERVAL, []), CAPACITY, CAPACITY * INTERVAL) == map[]
  {
  }

  lemma {:induction false} ServerDevices(i: nat)
    requires i <= 9
    ensures Server(i).device[0] == if i == 0 then map[] else map[DISK := Reported(i)]
    ensures Server(i).device[1] == map[] && Server(i).device[2] == map[]
  {
    assert Firsts([]) == [] && Seconds([]) == [];
    NoReports(i);
    if i == 0 {
    } else {
      ServerDevices(i - 1);
      DiskStep(Server(i - 1).device[0], i);
      hide AfterTick, Reported, LastN;
    }
  }

  ghost function Delta(): (d: History)
    ensures d.Valid()
  {
    Since(Server(9), Some(0))
  }

  lemma DeltaScalars(k: nat)
    requires k < SCALARS
    ensures Delta().scalar[k] == [At(6), At(7), At(8), At(9)]
  {
    assert LastN(Log(9), CAPACITY) == [At(6), At(7), At(8), At(9)];
    AllAfter([At(6), At(7), At(8), At(9)], 0);
    hide Server, Log, LastN, Suffix, SuffixMap;
    ServerScalar(9, k);
  }

  lemma OneDevice(ps: Points)
    requires ps != [] && Suffix(ps, After(0)) == ps
    ensures SuffixMap(map[DISK := ps], After(0)) == map[DISK := ps] && SuffixMap(map[], After(0)) == map[]
  {
    hide Suffix;
  }

  lemma DeltaDevices()
    ensures Delta().device[0] == map[DISK := [At(1), At(5), At(9)]] && Delta().device[1] == map[]
            && Delta().device[2] == map[]
  {
    assert Reported(9) == [At(1), At(5), At(9)];
    AllAfter([At(1), At(5), At(9)], 0);
    OneDevice([At(1), At(5), At(9)]);
    hide Server, Reported, Suffix, SuffixMap;
    ServerDevices(9);
  }

  lemma OneKey(ps: Points)
    ensures KeyPoints(map[DISK := ps], {DISK}) == PointSet(ps)
  {
    var m := map[DISK := ps];
    forall p | p in PointSet(ps)
      ensures p in KeyPoints(m, {DISK})
    {
      assert DISK in {DISK} && DISK in m && p in m[DISK];
    }
  }

  lemma DiskTracked(d: History)
    requires d.Valid() && d.device[0] == map[DISK := [At(1), At(5), At(9)]] && d.device[1] == map[]
             && d.device[2] == map[]
    ensures DevicePoints(d.device[..TRACKED_DEVICES]) == {At(1), At(5), At(9)}
  {
    var m := d.device[..TRACKED_DEVICES];
    assert m[..2][..1] == [d.device[0]] && m[..2][1] == d.device[1] && m[2] == d.device[2];
    OneKey([At(1), At(5), At(9)]);
    assert d.device[0].Keys == {DISK};
    assert PointSet([At(1), At(5), At(9)]) == {At(1), At(5), At(9)};
    assert DevicePoints([d.device[0]]) == KeyPoints(d.device[0], {DISK});
  }

  ghost predicate Contents(d: History) {
    && d.Valid()
    && (forall k :: 0 <= k < SCALARS ==> d.scalar[k] == [At(6), At(7), At(8), At(9)])
    && d.device[0] == map[DISK := [At(1), At(5), At(9)]] && d.device[1] == map[] && d.device[2] == map[]
  }

  lemma DeltaContents()
    ensures Contents(Delta())
  {
    hide Delta;
    forall k | 0 <= k < SCALARS
      ensures Delta().scalar[k] == [At(6), At(7), At(8), At(9)]
    {
      DeltaScalars(k);
    }
    DeltaDevices();
  }

  lemma NoneEarlier(d: History, p: HistoryPoint)
    requires Contents(d) && p in Tracked(d)
    ensures Ms(p) >= 5000
  {
    DiskTracked(d);
    if p in ScalarPoints(d.scalar) {
      ScalarPointsFrom(d.scalar, INTERVAL, p);
    }
  }

  lemma DeltaOldest(d: History)
    requires Contents(d)
    ensures Tracked(d) != {} && Oldest(Tracked(d)) == 5000
  {
    DiskTracked(d);
    assert At(1) in Tracked(d);
    hide Tracked, DevicePoints, Contents;
    var p :| p in Tracked(d) && Ms(p) == Oldest(Tracked(d));
    NoneEarlier(d, p);
    assert Ms(At(1)) == 5000;
  }

  lemma FirstScalar(k: nat)
    requires k < SCALARS
    ensures Server(0).scalar[k] == [At(0)]
  {
    hide Server;
    ServerScalar(0, k);
    assert Log(0) == [At(0)];
  }

  lemma FirstHeld()
    ensures Tracked(Server(0)) != {} && Newest(Tracked(Server(0))) == 0
  {
    ServerDevices(0);
    forall k | 0 <= k < SCALARS
      ensures Server(0).scalar[k] == [At(0)]
    {
      FirstScalar(k);
    }
    hide Server, Tracked;
    NewestIs(Server(0), 0, At(0));
  }

  // ------------------------------------------------------------------------------------------
  // The run: a tick, a full fetch, nine more ticks, and a delta

  function Empty(): Sys {
    Sys(EmptyHistory(), EmptyHistory().scalar, Fresh(), {}, 0, true, [])
  }

  ghost function Full(i: nat): seq<Points> {
    seq(SCALARS, k => Log(i))
  }

  ghost function Ticking(): Sys {
    Sys(Server(0), Full(0), Fresh(), {}, 0, true, [])
  }

  ghost function Asking(): Sys {
    Ticking().(client := Client(None, None, 0, AwaitingFirst(None)))
  }

  // The dashboard holds the first point, tick i has been recorded.
  ghost function Holding(i: nat): Sys {
    Sys(Server(i), Full(i), Client(Some(0), Some(Server(0)), 0, Idle), Range(0, 1), 1, true, [Resynced])
  }

  ghost function AskingAgain(i: nat): Sys {
    Holding(i).(client := Client(Some(0), Some(Server(0)), 0, AwaitingFirst(Some(0))))
  }

  ghost function Joined(): (h: History)
    ensures h.Valid()
  {
    TrimWindow(Appended(Server(0), Delta()), SETTING.client.windowMs)
  }

  ghost function Ending(i: nat): Sys {
    Sys(Server(i), Full(i), Client(Some(i * INTERVAL), Some(Joined()), 1, Idle),
        AfterDelta(SETTING.client, Full(i), Range(0, 1), 1, CAPACITY), i + 1, i < CAPACITY + 1,
        [Resynced, DeltaAppended])
  }

  lemma RecordLog(i: nat)
    requires i > 0
    ensures Recorded(Full(i - 1), Measured(i)) == Full(i)
  {
    assert Log(i) == Log(i - 1) + [At(i)];
  }

  lemma FirstTick()
    ensures Init(SETTING, Empty()) && Stepped(SETTING, Empty(), Event.Tick(Measured(0)), Ticking())
  {
    assert [] + [At(0)] == Log(0);
    assert Recorded(Empty().full, Measured(0)) == Full(0);
  }

  lemma FirstPoll()
    ensures Stepped(SETTING, Ticking(), Poll, Asking())
  {
    hide Server, Log;
  }

  lemma FirstAnswer()
    ensures Stepped(SETTING, Asking(), Answer(true), Holding(0))
  {
    FirstHeld();
    FirstScalar(0);
    ScalarTracked(Server(0), 0, At(0));
    assert |Full(0)[0]| == 1;
    hide Server, Log, Tracked, Newest;
    assert Rendered(Holding(0).client, Server(0));
    hide Rendered;
  }

  lemma NextTick(i: nat)
    requires i > 0
    ensures Stepped(SETTING, Holding(i - 1), Event.Tick(Measured(i)), Holding(i))
  {
    RecordLog(i);
    assert Server(i) == Ticked(Server(i - 1), Measured(i), CAPACITY, CAPACITY * INTERVAL);
    hide Server, Ticked;
  }

  // The states and events up to tick i.
  ghost function States(i: nat): (run: seq<Sys>)
    ensures |run| == i + 4 && run[i + 3] == Holding(i)
  {
    if i == 0 then [Empty(), Ticking(), Asking(), Holding(0)] else States(i - 1) + [Holding(i)]
  }

  function Events(i: nat): (events: seq<Event>)
    ensures |events| == i + 3
  {
    if i == 0 then [Event.Tick(Measured(0)), Poll, Answer(true)] else Events(i - 1) + [Event.Tick(Measured(i))]
  }

  lemma OpeningIsRun()
    ensures IsRun(SETTING, States(0), Events(0))
  {
    FirstTick();
    FirstPoll();
    FirstAnswer();
    hide Init, Stepped, Empty, Ticking, Asking, Holding, Measured;
  }

  lemma {:induction false} TicksAreRun(i: nat)
    ensures IsRun(SETTING, States(i), Events(i))
  {
    if i == 0 {
      OpeningIsRun();
    } else {
      TicksAreRun(i - 1);
      NextTick(i);
      hide IsRun, Stepped, Holding, Measured;
      RunExtends(SETTING, States(i - 1), Events(i - 1), Event.Tick(Measured(i)), Holding(i));
    }
  }

  lemma Mergeable()
    ensures Merge(SETTING.client, Server(0), Delta()) == Some(Joined())
  {
    DeltaContents();
    DeltaOldest(Delta());
    FirstHeld();
    hide Delta, Server, Tracked, Newest, Oldest, TrimWindow, Appended;
  }

  lemma LastLog(i: nat)
    requires i == 9
    ensures Full(i)[0] == Log(i) && |Log(i)| == 10 && Log(i)[0] == At(0) && Log(i)[6] == At(6) && Log(i)[9] == At(9)
    ensures Ms(At(6)) - Ms(At(0)) == 30000 > GapToleranceMs(SETTING.client)
  {
  }

  lemma LastReply(i: nat)
    requires i == 9
    ensures Since(Server(i), Some(0)) == Delta()
  {
  }

  lemma JoinedRenders(i: nat)
    requires i == 9 && Inv(SETTING, AskingAgain(i))
    ensures Rendered(Ending(i).client, Joined())
  {
    Mergeable();
    LastReply(i);
    DeltaHolds(SETTING, AskingAgain(i), 0);
    LastLog(i);
    hide Merge, Joined, Inv, Server, Delta, Log, Full, Tracked, Newest, AfterDelta, Since;
    var full, held := Full(i), Ending(i).held;
    HeldNewest(Joined(), full, held, 10);
    PickMember(full[0], held, At(9));
    ScalarTracked(Joined(), 0, At(9));
  }

  lemma AskingFacts(i: nat)
    ensures var s := AskingAgain(i);
            && s.server == Server(i) && s.server.Valid() && s.client.Valid() && s.seen == 1 && s.whole
            && s.client.phase == AwaitingFirst(Some(0)) && s.client.latest == Some(Server(0)) && s.client.polls == 0
  {
    hide Server, Log, Range;
  }

  lemma EndingClient(i: nat)
    ensures Ending(i).client == Client(Some(i * INTERVAL), Some(Joined()), 1, Idle)
  {
    hide Joined, Server, Full, AfterDelta, Range;
  }

  lemma Answers(i: nat)
    requires i == 9 && Inv(SETTING, AskingAgain(i))
    ensures Answered(SETTING.client, AskingAgain(i).client, Some(Delta()), Ending(i).client)
  {
    Mergeable();
    JoinedRenders(i);
    AskingFacts(i);
    EndingClient(i);
    hide Merge, Joined, Rendered, Answered, Inv, Server, Delta, AskingAgain, Ending;
    DeltaIsAnswer(SETTING.client, AskingAgain(i).client, Delta(), Ending(i).client);
  }

  lemma EndingLog(i: nat)
    ensures Ending(i).log == AskingAgain(i).log + [DeltaAppended]
  {
    hide Joined, Server, Full, AfterDelta, Range;
  }

  lemma EndingIs(i: nat)
    requires i == 9
    ensures |AskingAgain(i).full| == SCALARS && |AskingAgain(i).full[0]| == 10
    ensures Ending(i) == AskingAgain(i).(
              client := Ending(i).client,
              held := AfterDelta(SETTING.client, AskingAgain(i).full, AskingAgain(i).held, AskingAgain(i).seen,
                                 CAPACITY),
              seen := 10, whole := false, log := AskingAgain(i).log + [DeltaAppended])
  {
    LastLog(i);
    EndingLog(i);
    hide Joined, Server, Log, AfterDelta, Range;
  }

  lemma SecondAnswer(i: nat)
    requires i == 9 && Inv(SETTING, AskingAgain(i))
    ensures Stepped(SETTING, AskingAgain(i), Answer(true), Ending(i))
  {
    Answers(i);
    Mergeable();
    LastReply(i);
    EndingIs(i);
    AskingFacts(i);
    hide Answered, Merge, Joined, AfterDelta, Inv, Server, Since, Delta, AskingAgain, Ending, Stepped, Full, Log;
    DeltaIsStep(SETTING, AskingAgain(i), Ending(i), 0, Delta());
  }

  lemma SecondPoll(i: nat)
    requires i == 9
    ensures IsRun(SETTING, States(i) + [AskingAgain(i)], Events(i) + [Poll])
    ensures Inv(SETTING, AskingAgain(i))
  {
    hide Server, Log;
    TicksAreRun(i);
    assert Stepped(SETTING, Holding(i), Poll, AskingAgain(i));
    hide IsRun, Stepped, Holding, AskingAgain, States, Events;
    RunExtends(SETTING, States(i), Events(i), Poll, AskingAgain(i));
    RunOk(SETTING, States(i) + [AskingAgain(i)], Events(i) + [Poll]);
  }

  // The scalar series jump by more than the tolerance at the join.
  ghost predicate Jumps(s: Sys) {
    && |s.full| == SCALARS && s.seen > 0 && JoinAt(s.seen, |s.full[0]|, CAPACITY) < |s.full[0]|
    && Ms(s.full[0][JoinAt(s.seen, |s.full[0]|, CAPACITY)]) - Ms(s.full[0][s.seen - 1]) > GapToleranceMs(SETTING.client)
  }

  lemma LastJump(i: nat)
    requires i == 9
    ensures Jumps(AskingAgain(i))
  {
    LastLog(i);
    hide Log, Server, At, Ms;
  }

  // The disk's point of the second tick lets the last delta of this run pass, though every scalar series jumps by
  // thirty seconds, twice the tolerance.
  lemma SparseDeviceMasksJump()
    ensures exists run, events :: DeltaStep(SETTING, run, events) && Jumps(run[|events| - 1])
  {
    var i: nat :| i == 9;
    SecondPoll(i);
    SecondAnswer(i);
    LastJump(i);
    Whole(i);
  }

  lemma Whole(i: nat)
    requires IsRun(SETTING, States(i) + [AskingAgain(i)], Events(i) + [Poll])
    requires Stepped(SETTING, AskingAgain(i), Answer(true), Ending(i)) && Jumps(AskingAgain(i))
    ensures exists run, events :: DeltaStep(SETTING, run, events) && Jumps(run[|events| - 1])
  {
    EndingLog(i);
    var run, events := States(i) + [AskingAgain(i)], Events(i) + [Poll];
    hide *;
    DeltaStepExtends(SETTING, run, events, Ending(i));
  }
}
