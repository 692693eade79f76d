/** A concrete run, with ticks on schedule, after which the dashboard holds more than the server's window. */
module SyncWitness {
  import opened Seqs
  import opened HistoryData
  import opened Devices
  import opened Trim
  import opened StoreValues
  import opened Picks
  import opened Dashboard
  import opened DashboardFacts
  import opened Polling
  import opened SyncServer
  import opened SyncClient
  import opened SyncMerge
  import opened SyncRuns
  import opened SyncTheorems
  import opened SyncSchedule

  // Two points of capacity, five-second ticks, a window of two intervals.
  const INTERVAL := 5_000_000_000
  const CAPACITY := 2
  const SETTING := Setting(ClientConfig(5000, 10000), CAPACITY, 2 * INTERVAL)

  function Sample(i: nat): Measurement {
    Measurement(i * INTERVAL, seq(SCALARS, k => 0), [], [], [])
  }

  function Point(i: nat): HistoryPoint {
    HistoryPoint(i * INTERVAL, 0)
  }

  function Scalars(ps: Points): seq<Points> {
    seq(SCALARS, k => ps)
  }

  function Only(ps: Points): (h: History)
    ensures h.Valid()
  {
    History(Scalars(ps), seq(DEVICES, d => map[]))
  }

  lemma NothingReported(t: int)
    ensures AfterTick(map[], Devices.Tick(t, []), CAPACITY, 2 * INTERVAL) == map[] && Firsts([]) == []
            && Seconds([]) == []
  {
  }

  lemma TickOnly(ps: Points, i: nat, kept: Points)
    requires kept == LastN(ps + [Point(i)], CAPACITY)
    ensures Ticked(Only(ps), Sample(i), CAPACITY, 2 * INTERVAL) == Only(kept)
  {
    NothingReported(i * INTERVAL);
    assert Ticked(Only(ps), Sample(i), CAPACITY, 2 * INTERVAL).scalar == Scalars(kept);
    assert Ticked(Only(ps), Sample(i), CAPACITY, 2 * INTERVAL).device == Only(kept).device;
  }

  lemma RecordOnly(ps: Points, i: nat)
    ensures Recorded(Scalars(ps), Sample(i)) == Scalars(ps + [Point(i)])
  {
  }

  // The points of the first tick, of the first two and of all three, and those still retained after the third.
  const ONE := [Point(0)]
  const TWO := [Point(0), Point(1)]
  const THREE := [Point(0), Point(1), Point(2)]
  const LAST := [Point(1), Point(2)]

  // The states of the run: empty, ticked once and twice, asking, holding both points, ticked again, asking for a delta.
  function Empty(): Sys {
    Sys(Only([]), Scalars([]), Fresh(), {}, 0, true, [])
  }

  function Started(): Sys {
    Sys(Only(ONE), Scalars(ONE), Fresh(), {}, 0, true, [])
  }

  function Ticking(): Sys {
    Sys(Only(TWO), Scalars(TWO), Fresh(), {}, 0, true, [])
  }

  function Asking(): Sys {
    Ticking().(client := Client(None, None, 0, AwaitingFirst(None)))
  }

  function Holding(): Sys {
    Sys(Only(TWO), Scalars(TWO), Client(Some(INTERVAL), Some(Only(TWO)), 0, Idle), Range(0, 2), 2, true, [Resynced])
  }

  function TickedAgain(): Sys {
    Holding().(server := Only(LAST), full := Scalars(THREE))
  }

  function AskingAgain(): Sys {
    TickedAgain().(client := Client(Some(INTERVAL), Some(Only(TWO)), 0, AwaitingFirst(Some(INTERVAL))))
  }

  lemma FirstTick()
    ensures Stepped(SETTING, Empty(), Event.Tick(Sample(0)), Started())
  {
    TickOnly([], 0, ONE);
    RecordOnly([], 0);
    assert [] + [Point(0)] == ONE;
    hide Ticked, Recorded, Only;
  }

  lemma SecondTick()
    ensures Stepped(SETTING, Started(), Event.Tick(Sample(1)), Ticking())
  {
    TickOnly(ONE, 1, TWO);
    RecordOnly(ONE, 1);
    assert ONE + [Point(1)] == TWO;
    hide Ticked, Recorded, Only;
  }

  lemma ThirdTick()
    ensures Stepped(SETTING, Holding(), Event.Tick(Sample(2)), TickedAgain())
  {
    assert TWO + [Point(2)] == THREE && THREE[1..] == LAST;
    TickOnly(TWO, 2, LAST);
    RecordOnly(TWO, 2);
    hide Ticked, Recorded;
  }

  lemma Polls()
    ensures Stepped(SETTING, Ticking(), Poll, Asking()) && Stepped(SETTING, TickedAgain(), Poll, AskingAgain())
  {
  }

  lemma OnlyNewest(ps: Points)
    requires ps == TWO || ps == [Point(2)]
    ensures var h, p := Only(ps), ps[|ps| - 1];
            && Tracked(h) != {} && Newest(Tracked(h)) == Ms(p) && p in Tracked(h)
            && Oldest(Tracked(h)) == Ms(ps[0])
  {
    var h, p := Only(ps), ps[|ps| - 1];
    NewestIs(h, 0, p);
    ScalarTracked(h, 0, p);
    ScalarTracked(h, 0, ps[0]);
    OnlyOldest(ps, ps[0].at);
  }

  lemma OnlyOldest(ps: Points, t: int)
    requires |ps| > 0 && ps[0].at == t && (forall p :: p in ps ==> t <= p.at) && ps[0] in Tracked(Only(ps))
    ensures Oldest(Tracked(Only(ps))) == Ms(ps[0])
  {
    var h := Only(ps);
    NoDevicePoints(h.device[..TRACKED_DEVICES]);
    var q :| q in Tracked(h) && Ms(q) == Oldest(Tracked(h));
    ScalarPointsFrom(h.scalar, t, q);
  }

  lemma HoldingRenders()
    ensures Rendered(Holding().client, Only(TWO))
  {
    OnlyNewest(TWO);
    hide Tracked, Newest;
  }

  lemma FirstAnswer()
    ensures Stepped(SETTING, Asking(), Answer(true), Holding())
  {
    hide Rendered, Only;
    HoldingRenders();
  }

  lemma Starts()
    ensures Init(SETTING, Empty())
  {
  }

  function Opening(): seq<Sys> {
    [Empty(), Started(), Ticking(), Asking(), Holding(), TickedAgain(), AskingAgain()]
  }

  function OpeningEvents(): seq<Event> {
    [Event.Tick(Sample(0)), Event.Tick(Sample(1)), Poll, Answer(true), Event.Tick(Sample(2)), Poll]
  }

  lemma OpeningIsRun()
    ensures IsRun(SETTING, Opening(), OpeningEvents())
  {
    Starts();
    FirstTick();
    SecondTick();
    Polls();
    FirstAnswer();
    ThirdTick();
    hide Stepped, Init, Empty, Started, Ticking, Asking, Holding, TickedAgain, AskingAgain, Sample;
    forall i | 0 <= i < 6
      ensures Stepped(SETTING, Opening()[i], OpeningEvents()[i], Opening()[i + 1])
    {
      assert i == 0 || i == 1 || i == 2 || i == 3 || i == 4 || i == 5;
    }
  }

  lemma SuffixIs()
    ensures Suffix(LAST, After(INTERVAL)) == [Point(2)] && SuffixMap(map[], After(INTERVAL)) == map[]
  {
    hide Search, Suffix, SuffixMap;
    var b := SuffixAfter(LAST, INTERVAL);
    assert LAST[0].at == INTERVAL < LAST[1].at;
    assert b == 1 && LAST[1..] == [Point(2)];
    NothingAfter(INTERVAL);
  }

  lemma NothingAfter(t: int)
    ensures SuffixMap(map[], After(t)) == map[]
  {
  }

  lemma DeltaIs()
    ensures Since(Only(LAST), Some(INTERVAL)) == Only([Point(2)])
  {
    SuffixIs();
    hide Suffix, SuffixMap, After, Point;
    assert Since(Only(LAST), Some(INTERVAL)).scalar == Scalars([Point(2)]);
    assert Since(Only(LAST), Some(INTERVAL)).device == Only([Point(2)]).device;
  }

  ghost function Joined(): (h: History)
    ensures h.Valid()
  {
    TrimWindow(Appended(Only(TWO), Only([Point(2)])), SETTING.client.windowMs)
  }

  ghost function Ending(): Sys {
    Sys(Only(LAST), Scalars(THREE), Client(Some(2 * INTERVAL), Some(Joined()), 1, Idle),
        AfterDelta(SETTING.client, Scalars(THREE), Range(0, 2), 2, CAPACITY), 3, true, [Resynced, DeltaAppended])
  }

  lemma Mergeable()
    ensures Merge(SETTING.client, Only(TWO), Only([Point(2)])) == Some(Joined())
  {
    OnlyNewest(TWO);
    OnlyNewest([Point(2)]);
    hide Tracked, Newest, Oldest, TrimWindow, Appended, Only;
    assert Ms(Point(1)) == 5000 && Ms(Point(2)) == 10000;
  }

  lemma JoinedRenders()
    ensures Rendered(Ending().client, Joined())
  {
    OpeningIsRun();
    RunOk(SETTING, Opening(), OpeningEvents());
    DeltaIs();
    Mergeable();
    assert Inv(SETTING, AskingAgain());
    hide Merge, Joined, Since, Inv, IsRun, Tracked, Newest, AfterDelta, Holds;
    JoinedHolds();
  }

  lemma JoinedHolds()
    requires Inv(SETTING, AskingAgain())
    requires Merge(SETTING.client, Only(TWO), Since(Only(LAST), Some(INTERVAL))) == Some(Joined())
    ensures Rendered(Ending().client, Joined())
  {
    DeltaHolds(SETTING, AskingAgain(), INTERVAL);
    var held := Ending().held;
    assert Holds(Joined(), Scalars(THREE), held, 3);
    hide Merge, Joined, Since, Inv, Tracked, Newest, AfterDelta;
    HeldNewest(Joined(), Scalars(THREE), held, 3);
    PickMember(THREE, held, Point(2));
    ScalarTracked(Joined(), 0, Point(2));
  }

  lemma SecondAnswer()
    ensures Stepped(SETTING, AskingAgain(), Answer(true), Ending())
  {
    DeltaIs();
    Mergeable();
    JoinedRenders();
    hide Merge, Joined, Since, Rendered, AfterDelta;
    assert [Resynced] + [DeltaAppended] == [Resynced, DeltaAppended];
  }

  ghost function Whole(): (run: seq<Sys>)
    ensures |run| == 8
  {
    Opening() + [Ending()]
  }

  function WholeEvents(): (events: seq<Event>)
    ensures |events| == 7
  {
    OpeningEvents() + [Answer(true)]
  }

  lemma WholeIsRun()
    ensures IsRun(SETTING, Whole(), WholeEvents())
  {
    OpeningIsRun();
    SecondAnswer();
    hide Stepped, Init, Empty, Started, Ticking, Asking, Holding, TickedAgain, AskingAgain, Ending, Sample;
    forall i | 0 <= i < 7
      ensures Stepped(SETTING, Whole()[i], WholeEvents()[i], Whole()[i + 1])
    {
      assert i < 6 ==> Stepped(SETTING, Opening()[i], OpeningEvents()[i], Opening()[i + 1]);
    }
  }

  lemma WholeEndsWithDelta()
    ensures DeltaStep(SETTING, Whole(), WholeEvents())
    ensures var s := Whole()[|WholeEvents()| - 1]; s.full == Scalars(THREE) && s.seen == 2 && s.log == [Resynced]
  {
    WholeIsRun();
    hide IsRun;
  }

  lemma ThreePoints()
    ensures var full := Scalars(THREE); |full| == SCALARS && |full[0]| == 3 && OnSchedule(full[0], 0, 5000)
    ensures SETTING.client.windowMs == SETTING.capacity * 5000
  {
  }

  // The last delta of this run is appended, with the server still retaining the newest point held before it, yet the
  // dashboard does not show exactly the server's window.
  lemma ViewCanBeInexact()
    ensures exists run, events ::
              DeltaStep(SETTING, run, events) && Overlaps(run[|events| - 1]) && Inexact(run[|events|])
  {
    hide *;
    WholeEndsWithDelta();
    ThreePoints();
    LastIsInexact(SETTING, Whole(), WholeEvents(), 5000);
    OverlapsAt(Whole()[|WholeEvents()| - 1]);
  }

  lemma OverlapsAt(s: Sys)
    requires |s.full| == SCALARS && |s.full[0]| == 3 && s.seen == 2
    ensures Overlaps(s)
  {
  }

  lemma LastIsInexact(g: Setting, run: seq<Sys>, events: seq<Event>, interval: nat)
    requires DeltaStep(g, run, events) && g == SETTING && g.client.windowMs == g.capacity * interval
    requires var s := run[|events| - 1];
             && |s.full| == SCALARS && |s.full[0]| == 3 && OnSchedule(s.full[0], 0, interval)
             && s.seen == 2 && s.log == [Resynced]
    ensures Inexact(run[|events|])
  {
    hide DeltaStep, OnSchedule, ExactView;
    OnScheduleViewIsNotExact(g, run, events, 0, interval);
  }

  // The server retains the newest point held.
  ghost predicate Overlaps(s: Sys) {
    |s.full| == SCALARS && First(|s.full[0]|, CAPACITY) < s.seen
  }

  ghost predicate Inexact(s: Sys) {
    && |s.full| == SCALARS && |s.full[0]| > 0 && s.server.Valid()
    && s.client.latest.Some? && s.client.latest.value.Valid()
    && !ExactView(SETTING, s.client.latest.value, s.server, s.full)
  }
}
