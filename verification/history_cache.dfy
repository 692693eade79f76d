/** The per-generation cache behind the history endpoint, and every interleaving of requests with the collector. */
module HistoryCache {
  import opened Seqs
  import opened HistoryData
  import opened Trim

  // An encoding, taken to be injective: nothing but the history encoded matters.
  datatype Json = Json(of: History)

  datatype Cache = Cache(valid: bool, gen: nat, data: History, json: Option<Json>)

  predicate Stale(c: Cache, gen: nat) {
    !c.valid || c.gen != gen
  }

  // What holding the lock does first: current is what the collector's History() returns at that moment.
  function Refreshed(c: Cache, gen: nat, current: History): Cache {
    if Stale(c, gen) then Cache(true, gen, current, None) else c
  }

  // Then the full encoding is built unless it is there already; the attempt may fail.
  function Encoded(c: Cache, full: bool, ok: bool): Cache {
    if full && c.json.None? && ok then c.(json := Some(Json(c.data))) else c
  }

  function Fails(c: Cache, full: bool, ok: bool): bool {
    full && c.json.None? && !ok
  }

  class HistoryServer {
    var historyCacheGen: nat
    var historyCacheValid: bool
    var historyCacheData: History
    var historyCacheJSON: Option<Json>

    ghost function State(): Cache
      reads this
    {
      Cache(historyCacheValid, historyCacheGen, historyCacheData, historyCacheJSON)
    }

    constructor ()
      ensures State() == Cache(false, 0, EmptyHistory(), None)
    {
      historyCacheGen, historyCacheValid, historyCacheData, historyCacheJSON := 0, false, EmptyHistory(), None;
    }

    // The critical section of a request that read generation gen: the full encoding if asked for, None if encoding
    // failed.
    method CachedHistory(gen: nat, current: History, full: bool, marshalOk: bool) returns (r: Option<(History,
                         Option<Json>)>)
      modifies this
      ensures State() == Encoded(Refreshed(old(State()), gen, current), full, marshalOk)
      ensures r.None? <==> Fails(Refreshed(old(State()), gen, current), full, marshalOk)
      ensures r.Some? ==> r.value == (historyCacheData, historyCacheJSON) && (full ==> historyCacheJSON.Some?)
    {
      if !historyCacheValid || historyCacheGen != gen {
        historyCacheData := current;
        historyCacheJSON := None;
        historyCacheGen := gen;
        historyCacheValid := true;
      }
      if full && historyCacheJSON.None? {
        if !marshalOk {
          return None;
        }
        historyCacheJSON := Some(Json(historyCacheData));
      }
      r := Some((historyCacheData, historyCacheJSON));
    }
  }

  // ------------------------------------------------------------------------------------------
  // Interleavings

  // The collector's history after a fast tick or the import, and how many fast ticks it reflects.
  datatype Version = Version(gen: nat, data: History)

  datatype Stage = HasGen | HasLock | IsFresh

  // What a request found in the cache when it got the lock: valid or not, of which generation, and of which version.
  datatype Found = Found(valid: bool, gen: nat, version: nat)

  // readAt is the version that was current when the request read the generation; found is meaningful once it is fresh.
  datatype Request = Request(since: Option<int>, gen: nat, readAt: nat, stage: Stage, found: Found)

  // A response and the version it was made from, in the order in which requests left the critical section.
  datatype Response = Response(gen: nat, readAt: nat, found: Found, version: nat, since: Option<int>, payload: Json)

  /** cachedAt is the version the cached data was copied from; requests are identified by number. */
  datatype Sys = Sys(versions: seq<Version>, cache: Cache, cachedAt: nat, lock: Option<nat>,
                     requests: map<nat, Request>,
                     log: seq<Response>) {
    predicate At(id: nat, stage: Stage) {
      id in requests && requests[id].stage == stage
    }
  }

  // Import and ReadGen read or write the collector under its own lock, Refresh reads it under the cache's.
  datatype Event =
    | Tick(data: History)
    | Import(data: History)
    | ReadGen(id: nat, since: Option<int>)
    | Lock(id: nat)
    | Refresh(id: nat)
    | Answer(id: nat, ok: bool)

  // Start of the process, before the collector's loop has loaded the persisted history.
  function Start(): Sys {
    Sys([Version(0, EmptyHistory())], Cache(false, 0, EmptyHistory(), None), 0, None, map[], [])
  }

  ghost function Served(s: Sys, id: nat): (r: Response)
    requires id in s.requests && s.cache.data.Valid()
  {
    var q := s.requests[id];
    Response(q.gen, q.readAt, q.found, s.cachedAt, q.since, Json(Since(s.cache.data, q.since)))
  }

  // The full encoding comes from the cache, a delta is cut from the cached data and encoded on its own.
  ghost function Answered(s: Sys, id: nat, ok: bool): Sys
    requires id in s.requests && s.cache.data.Valid()
  {
    var full := s.requests[id].since.None?;
    var failed := if full then Fails(s.cache, full, ok) else !ok;
    s.(cache := Encoded(s.cache, full, ok), lock := None, requests := s.requests - {id},
       log := if failed then s.log else s.log + [Served(s, id)])
  }

  function FoundIn(s: Sys): Found {
    Found(s.cache.valid, s.cache.gen, s.cachedAt)
  }

  // An event that is not possible in a state leaves it as it is.
  ghost function Apply(s: Sys, e: Event): Sys {
    if |s.versions| == 0 then s
    else
      var current := s.versions[|s.versions| - 1];
      match e
      case Tick(data) => if data.Valid() then s.(versions := s.versions + [Version(current.gen + 1, data)]) else s
      case Import(data) =>
        if data.Valid() && |s.versions| == 1 then s.(versions := s.versions + [Version(current.gen, data)]) else s
      case ReadGen(id, since) =>
        if id in s.requests then s
        else s.(requests := s.requests[id := Request(since, current.gen, |s.versions| - 1, HasGen, Found(false, 0, 0))])
      case Lock(id) =>
        if s.At(id, HasGen) && s.lock.None? then
          s.(lock := Some(id), requests := s.requests[id := s.requests[id].(stage := HasLock)])
        else s
      case Refresh(id) =>
        if s.At(id, HasLock) then
          var gen := s.requests[id].gen;
          s.(cache := Refreshed(s.cache, gen, current.data),
             cachedAt := if Stale(s.cache, gen) then |s.versions| - 1 else s.cachedAt,
             requests := s.requests[id := s.requests[id].(stage := IsFresh, found := FoundIn(s))])
        else s
      case Answer(id, ok) => if s.At(id, IsFresh) && s.cache.data.Valid() then Answered(s, id, ok) else s
  }

  ghost function Run(events: seq<Event>): Sys {
    if |events| == 0 then Start() else Apply(Run(events[..|events| - 1]), events[|events| - 1])
  }

  // ------------------------------------------------------------------------------------------
  // The invariant

  // Every version but the imported one has a generation of its own.
  ghost predicate VersionsOk(vs: seq<Version>) {
    && |vs| > 0 && vs[0].gen == 0 && (forall i :: 0 <= i < |vs| ==> vs[i].data.Valid())
    && forall i, j :: 0 <= i < j < |vs| ==> vs[i].gen < vs[j].gen || (i == 0 && j == 1 && vs[0].gen == vs[1].gen == 0)
  }

  // The cached data was taken at a generation between the cache's and the collector's; an encoding is that of the data.
  ghost predicate CacheOk(vs: seq<Version>, c: Cache, cachedAt: nat) {
    && cachedAt < |vs| && c.data.Valid()
    && (c.valid ==> c.data == vs[cachedAt].data && c.gen <= vs[cachedAt].gen)
    && (c.json.Some? ==> c.valid && c.json.value == Json(c.data))
  }

  // The cache held the empty history of before the import, and the request started after the import and before any
  // tick.
  predicate MissesImport(found: Found, readAt: nat, gen: nat) {
    found == Found(true, 0, 0) && readAt == 1 && gen == 0
  }

  ghost predicate RequestsOk(vs: seq<Version>, c: Cache, cachedAt: nat, lock: Option<nat>, requests: map<nat,
                             Request>) {
    forall id :: id in requests ==>
      var q := requests[id];
      && q.readAt < |vs| && q.gen == vs[q.readAt].gen
      && (q.stage != HasGen ==> lock == Some(id))
      && (q.stage == IsFresh ==>
          c.valid && c.gen == q.gen && (cachedAt < q.readAt <==> MissesImport(q.found, q.readAt, q.gen)))
  }

  ghost predicate ResponseOk(vs: seq<Version>, r: Response) {
    && r.readAt < |vs| && r.version < |vs| && vs[r.version].data.Valid()
    && r.gen == vs[r.readAt].gen <= vs[r.version].gen
    && r.payload == Json(Since(vs[r.version].data, r.since))
    && (r.version < r.readAt <==> MissesImport(r.found, r.readAt, r.gen))
  }

  ghost predicate LogOk(vs: seq<Version>, log: seq<Response>, cachedAt: nat) {
    && (forall i :: 0 <= i < |log| ==> ResponseOk(vs, log[i]))
    && (forall i, j :: 0 <= i <= j < |log| ==> log[i].version <= log[j].version)
    && (log != [] ==> log[|log| - 1].version <= cachedAt)
  }

  ghost predicate Inv(s: Sys) {
    && VersionsOk(s.versions) && CacheOk(s.versions, s.cache, s.cachedAt)
    && RequestsOk(s.versions, s.cache, s.cachedAt, s.lock, s.requests) && LogOk(s.versions, s.log, s.cachedAt)
  }

  lemma VersionStep(s: Sys, v: Version)
    requires Inv(s) && VersionsOk(s.versions + [v])
    ensures Inv(s.(versions := s.versions + [v]))
  {
  }

  lemma AnswerStep(s: Sys, id: nat, ok: bool)
    requires Inv(s) && s.At(id, IsFresh)
    ensures s.cache.data.Valid() && Inv(Answered(s, id, ok))
  {
    AnswerLog(s, id, ok);
    hide VersionsOk, LogOk;
  }

  lemma AnswerLog(s: Sys, id: nat, ok: bool)
    requires Inv(s) && s.At(id, IsFresh)
    ensures s.cache.data.Valid() && LogOk(s.versions, Answered(s, id, ok).log, s.cachedAt)
  {
    assert ResponseOk(s.versions, Served(s, id)) && Served(s, id).version == s.cachedAt;
    hide VersionsOk, CacheOk, RequestsOk, ResponseOk, Served, Encoded, Fails;
  }

  lemma GensGrow(vs: seq<Version>)
    requires VersionsOk(vs)
    ensures |vs| > 0 && vs[|vs| - 1].data.Valid()
    ensures forall i :: 0 <= i < |vs| ==> vs[i].gen <= vs[|vs| - 1].gen
  {
  }

  // Looking at the cache before refreshing it tells whether the refreshed cache will be older than the request.
  lemma RefreshDecides(s: Sys, id: nat)
    requires Inv(s) && s.At(id, HasLock)
    ensures var q := s.requests[id];
            Apply(s, Refresh(id)).cachedAt < q.readAt <==> MissesImport(FoundIn(s), q.readAt, q.gen)
  {
  }

  lemma RefreshStep(s: Sys, id: nat)
    requires Inv(s) && s.At(id, HasLock)
    ensures Inv(Apply(s, Refresh(id)))
  {
    GensGrow(s.versions);
    RefreshDecides(s, id);
    hide VersionsOk, ResponseOk, MissesImport;
  }

  lemma RequestStep(s: Sys, e: Event)
    requires Inv(s) && (e.ReadGen? || e.Lock?)
    ensures Inv(Apply(s, e))
  {
    assert |s.versions| > 0;
    hide VersionsOk, CacheOk, LogOk;
  }

  lemma NextVersion(vs: seq<Version>, v: Version)
    requires VersionsOk(vs) && v.data.Valid() && (v.gen > vs[|vs| - 1].gen || (|vs| == 1 && v.gen == 0))
    ensures VersionsOk(vs + [v])
  {
  }

  lemma CollectorStep(s: Sys, e: Event)
    requires Inv(s) && (e.Tick? || e.Import?) && e.data.Valid()
    ensures Inv(Apply(s, e))
  {
    if e.Tick? || |s.versions| == 1 {
      var v := Version(s.versions[|s.versions| - 1].gen + (if e.Tick? then 1 else 0), e.data);
      NextVersion(s.versions, v);
      VersionStep(s, v);
      assert Apply(s, e) == s.(versions := s.versions + [v]);
      hide *;
    }
  }

  lemma StepOk(s: Sys, e: Event)
    requires Inv(s)
    ensures Inv(Apply(s, e))
  {
    if e.Tick? || e.Import? {
      if e.data.Valid() {
        CollectorStep(s, e);
      }
    } else if e.ReadGen? || e.Lock? {
      RequestStep(s, e);
    } else if e.Refresh? {
      if s.At(e.id, HasLock) {
        RefreshStep(s, e.id);
      }
    } else if s.At(e.id, IsFresh) && s.cache.data.Valid() {
      AnswerStep(s, e.id, e.ok);
      hide Inv, Answered;
    }
  }

  lemma {:induction false} RunOk(events: seq<Event>)
    ensures Inv(Run(events))
  {
    if |events| == 0 {
    } else {
      RunOk(events[..|events| - 1]);
      StepOk(Run(events[..|events| - 1]), events[|events| - 1]);
    }
  }

  // ------------------------------------------------------------------------------------------
  // What holds of every interleaving

  // What is cached is the collector's history of some moment between the cache's generation and now.
  lemma CacheAgreesWithCollector(events: seq<Event>)
    requires Run(events).cache.valid
    ensures var s := Run(events);
            && s.cachedAt < |s.versions| && s.cache.data == s.versions[s.cachedAt].data
            && s.cache.gen <= s.versions[s.cachedAt].gen <= s.versions[|s.versions| - 1].gen
            && (s.cache.json.Some? ==> s.cache.json.value == Json(s.cache.data))
  {
    RunOk(events);
    GensGrow(Run(events).versions);
  }

  // Every response encodes the history of one moment, and reflects every fast tick the request could have counted.
  lemma ResponsesAreFresh(events: seq<Event>, i: nat)
    requires i < |Run(events).log|
    ensures ResponseOk(Run(events).versions, Run(events).log[i])
  {
    RunOk(events);
  }

  // Requests that leave the critical section later never see an earlier history.
  lemma ResponsesNeverGoBack(events: seq<Event>, i: nat, j: nat)
    requires i <= j < |Run(events).log|
    ensures Run(events).log[i].version <= Run(events).log[j].version
  {
    RunOk(events);
  }

  // Only the import can be missed, and whether it will be shows before the cache is refreshed: a request that holds the
  // lock is served a history older than when it started if and only if the cache holds the empty one of before the
  // import, the import has happened since, and no tick had when the request started.
  lemma OnlyTheImportIsMissed(events: seq<Event>, id: nat)
    requires Run(events).At(id, HasLock)
    ensures var s := Run(events);
            var q := s.requests[id];
            Apply(s, Refresh(id)).cachedAt < q.readAt
            <==> s.cache.valid && s.cachedAt == 0 && s.cache.gen == 0 && q.readAt == 1 && q.gen == 0
  {
    RunOk(events);
    RefreshDecides(Run(events), id);
  }

  // The same of every response, in terms of what its request found; what it is then served is the empty history.
  lemma StaleResponsesAreEmpty(events: seq<Event>, i: nat)
    requires i < |Run(events).log|
    ensures var r := Run(events).log[i];
            && (r.version < r.readAt <==> r.found == Found(true, 0, 0) && r.readAt == 1 && r.gen == 0)
            && (r.version < r.readAt ==> r.payload == Json(EmptyHistory()))
  {
    RunOk(events);
    FirstVersion(events);
  }

  lemma {:induction false} FirstVersion(events: seq<Event>)
    ensures |Run(events).versions| > 0 && Run(events).versions[0] == Version(0, EmptyHistory())
  {
    if |events| == 0 {
    } else {
      FirstVersion(events[..|events| - 1]);
    }
  }

  lemma RunSnoc(events: seq<Event>, e: Event)
    ensures Run(events + [e]) == Apply(Run(events), e)
  {
    assert (events + [e])[..|events|] == events;
  }

  // One whole request, from reading the generation to its response.
  function Whole(id: nat, since: Option<int>, ok: bool): seq<Event> {
    [ReadGen(id, since), Lock(id), Refresh(id), Answer(id, ok)]
  }

  lemma RunWhole(events: seq<Event>, id: nat, since: Option<int>, ok: bool)
    ensures Run(events + Whole(id, since, ok))
         == Apply(Apply(Apply(Apply(Run(events), ReadGen(id, since)), Lock(id)), Refresh(id)), Answer(id, ok))
  {
    hide Apply;
    var w := Whole(id, since, ok);
    assert events + w == events + [w[0]] + [w[1]] + [w[2]] + [w[3]];
    RunSnoc(events, w[0]);
    RunSnoc(events + [w[0]], w[1]);
    RunSnoc(events + [w[0]] + [w[1]], w[2]);
    RunSnoc(events + [w[0]] + [w[1]] + [w[2]], w[3]);
  }

  ghost function UpToDate(s: Sys, id: nat, since: Option<int>): Sys
    requires |s.versions| > 0
  {
    var v := s.versions[|s.versions| - 1];
    s.(cache := Refreshed(s.cache, v.gen, v.data),
       cachedAt := if Stale(s.cache, v.gen) then |s.versions| - 1 else s.cachedAt,
       lock := Some(id), requests := s.requests[id := Request(since, v.gen, |s.versions| - 1, IsFresh, FoundIn(s))])
  }

  lemma ReachesFresh(s: Sys, id: nat, since: Option<int>)
    requires |s.versions| > 0 && id !in s.requests && s.lock.None?
    ensures Apply(Apply(Apply(s, ReadGen(id, since)), Lock(id)), Refresh(id)) == UpToDate(s, id, since)
  {
    var s1 := Apply(s, ReadGen(id, since));
    assert s1.At(id, HasGen);
    var s2 := Apply(s1, Lock(id));
    assert s2.At(id, HasLock);
  }

  // The cache is the collector's present one, the full encoding in it unless it failed or a delta was asked for; the
  // response is the one version cached, whole or cut, unless its encoding failed.
  ghost function AfterWhole(s: Sys, id: nat, since: Option<int>, ok: bool): Sys
    requires |s.versions| > 0 && UpToDate(s, id, since).cache.data.Valid()
  {
    var answered := UpToDate(s, id, since);
    var failed := if since.None? then Fails(answered.cache, true, ok) else !ok;
    answered.(cache := Encoded(answered.cache, since.None?, ok), lock := None, requests := s.requests,
              log := if failed then s.log else s.log + [Served(answered, id)])
  }

  lemma Answers(s: Sys, id: nat, since: Option<int>, ok: bool)
    requires Inv(s) && id !in s.requests && s.lock.None?
    ensures |s.versions| > 0 && UpToDate(s, id, since).cache.data.Valid()
    ensures Apply(UpToDate(s, id, since), Answer(id, ok)) == AfterWhole(s, id, since, ok)
  {
    assert UpToDate(s, id, since).requests - {id} == s.requests;
  }

  // A request that runs undisturbed, for the full window or a delta and with an encoding that fails or not, is answered
  // from the cache if its generation is the current one, else from the collector.
  lemma UndisturbedRequest(events: seq<Event>, id: nat, since: Option<int>, ok: bool)
    requires id !in Run(events).requests && Run(events).lock.None?
    ensures var s := Run(events);
            && |s.versions| > 0 && UpToDate(s, id, since).cache.data.Valid()
            && Run(events + Whole(id, since, ok)) == AfterWhole(s, id, since, ok)
  {
    RunOk(events);
    Answers(Run(events), id, since, ok);
    ReachesFresh(Run(events), id, since);
    hide Apply, Run, Inv, UpToDate, AfterWhole;
    RunWhole(events, id, since, ok);
  }

  // A client that asked before the import, which no fast tick followed yet, is then told the empty history once more.
  lemma ImportCanBeMissed(data: History)
    requires data.Valid() && data != EmptyHistory()
    ensures exists events :: ImportMissed(events, data)
  {
    var before := [] + Whole(0, None, true);
    UndisturbedRequest([], 0, None, true);
    var imported := before + [Import(data)];
    RunSnoc(before, Import(data));
    UndisturbedRequest(imported, 1, None, true);
    assert ImportMissed(imported + Whole(1, None, true), data);
  }

  ghost predicate ImportMissed(events: seq<Event>, data: History) {
    var s := Run(events);
    && s.versions == [Version(0, EmptyHistory()), Version(0, data)]
    && |s.log| == 2 && s.log[1].readAt == 1 && s.log[1].payload == Json(EmptyHistory())
  }

  // Whatever is cached was the collector's latest when some earlier request, holding the lock, filled the cache; so
  // only a request served before the import can leave the empty history behind.
  lemma {:induction false} CacheWasFilled(events: seq<Event>)
    ensures Run(events).cache.valid ==>
              exists k :: 0 <= k < |events| && FilledBy(events, k, Run(events).cachedAt)
  {
    if |events| == 0 {
    } else {
      var n := |events| - 1;
      CacheWasFilled(events[..n]);
      FillsOrKeeps(Run(events[..n]), events[n]);
      if FillsNow(Run(events[..n]), events[n], Run(events).cachedAt) {
        assert FilledBy(events, n, Run(events).cachedAt);
      } else if Run(events).cache.valid {
        var k :| 0 <= k < n && FilledBy(events[..n], k, Run(events[..n]).cachedAt);
        assert events[..n][..k] == events[..k] && events[..n][k] == events[k];
        assert FilledBy(events, k, Run(events).cachedAt);
      }
    }
  }

  ghost predicate FillsNow(s: Sys, e: Event, version: nat) {
    e.Refresh? && s.At(e.id, HasLock) && version + 1 == |s.versions|
  }

  ghost predicate FilledBy(events: seq<Event>, k: nat, version: nat)
    requires k < |events|
  {
    FillsNow(Run(events[..k]), events[k], version)
  }

  lemma FillsOrKeeps(s: Sys, e: Event)
    ensures var s' := Apply(s, e);
            s'.cache.valid ==> FillsNow(s, e, s'.cachedAt) || (s.cache.valid && s'.cachedAt == s.cachedAt)
  {
  }

  // A request that runs undisturbed, in terms of what it finds: the cached version if the cache is valid and of the
  // present generation, else the collector's latest, which it caches. It is answered unless an encoding was needed and
  // failed: always for a delta, for the full window only if none is cached with that version.
  lemma UndisturbedAnswer(events: seq<Event>, id: nat, since: Option<int>, ok: bool)
    requires id !in Run(events).requests && Run(events).lock.None?
    ensures var s, s' := Run(events), Run(events + [ReadGen(id, since), Lock(id), Refresh(id), Answer(id, ok)]);
            && |s.versions| > 0 && s.versions[|s.versions| - 1].data.Valid() && s.cache.data.Valid()
            && var v := s.versions[|s.versions| - 1];
            && var kept := s.cache.valid && s.cache.gen == v.gen;
            && var data := if kept then s.cache.data else v.data;
            && var json := if kept then s.cache.json else None;
            && s'.cache == Cache(true, v.gen, data, if since.None? && json.None? && ok then Some(Json(data)) else json)
            && s'.cachedAt == (if kept then s.cachedAt else |s.versions| - 1)
            && s'.requests == s.requests && s'.lock.None? && s'.versions == s.versions
            && if ok || (since.None? && json.Some?)
               then |s'.log| == |s.log| + 1 && s'.log[..|s.log|] == s.log
                    && s'.log[|s.log|].version == s'.cachedAt && s'.log[|s.log|].payload == Json(Since(data, since))
                    && (since.None? ==> s'.log[|s.log|].payload == Json(data))
               else s'.log == s.log
  {
    UndisturbedRequest(events, id, since, ok);
    RunOk(events);
    assert Whole(id, since, ok) == [ReadGen(id, since), Lock(id), Refresh(id), Answer(id, ok)];
    hide Run, Since;
  }
}
