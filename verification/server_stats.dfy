/** The request counters behind /api/v1/serverstats: lock-free recording and snapshots, in every interleaving. */
module ServerStats {
  import opened Seqs

  const OTHER_API := "other-api"
  const STATIC := "static"
  const API_PREFIX := "/api/v1/"
  const CLASSES := 5

  // The counter keys: the registered paths and the two fallbacks.
  function Buckets(paths: seq<string>): seq<string> {
    paths + [OTHER_API, STATIC]
  }

  // Whatever path is asked for, the bucket is one of the known ones; a registered path is its own.
  function RouteBucket(paths: seq<string>, path: string): (bucket: string)
    ensures bucket in Buckets(paths)
    ensures path in paths ==> bucket == path
  {
    if path in paths then path
    else if API_PREFIX <= path then assert OTHER_API == Buckets(paths)[|paths|]; OTHER_API
    else assert STATIC == Buckets(paths)[|paths| + 1]; STATIC
  }

  // Index of the response class, 1xx to 5xx; anything below 200 counts as 1xx, anything from 500 on as 5xx.
  function ClassOf(status: int): (c: nat)
    ensures c < CLASSES
  {
    if status < 200 then 0 else if status < 300 then 1 else if status < 400 then 2 else if status < 500 then 3 else 4
  }

  datatype Counters = Counters(total: nat, classes: seq<nat>, routes: map<string, nat>)

  function CountTotal(c: Counters): Counters {
    c.(total := c.total + 1)
  }

  function CountClass(c: Counters, class_: nat): Counters
    requires class_ < |c.classes|
  {
    c.(classes := c.classes[class_ := c.classes[class_] + 1])
  }

  function CountRoute(c: Counters, bucket: string): Counters {
    if bucket in c.routes then c.(routes := c.routes[bucket := c.routes[bucket] + 1]) else c
  }

  class Stats {
    var total: nat
    var classes: seq<nat>
    var routes: map<string, nat>

    ghost function State(): Counters
      reads this
    {
      Counters(total, classes, routes)
    }

    constructor (paths: seq<string>)
      ensures total == 0 && classes == [0, 0, 0, 0, 0]
      ensures routes == map b | b in Buckets(paths) :: 0
    {
      var m: map<string, nat> := map[];
      var names := Buckets(paths);
      for i := 0 to |names|
        invariant m == map b | b in names[..i] :: 0
      {
        assert names[..i + 1] == names[..i] + [names[i]];
        m := m[names[i] := 0];
      }
      assert names[..|names|] == names;
      total, classes, routes := 0, [0, 0, 0, 0, 0], m;
    }

    method Record(bucket: string, status: int)
      requires |classes| == CLASSES
      modifies this
      ensures State() == CountRoute(CountClass(CountTotal(old(State())), ClassOf(status)), bucket)
    {
      total := total + 1;
      var k := ClassOf(status);
      classes := classes[k := classes[k] + 1];
      if bucket in routes {
        routes := routes[bucket := routes[bucket] + 1];
      }
    }

    method Snapshot() returns (s: Counters)
      ensures s == State()
    {
      var byRoute: map<string, nat> := map[];
      var todo := routes.Keys;
      while todo != {}
        invariant todo <= routes.Keys && byRoute == map b | b in routes && b !in todo :: routes[b]
      {
        var b :| b in todo;
        byRoute := byRoute[b := routes[b]];
        todo := todo - {b};
      }
      s := Counters(total, classes, byRoute);
    }
  }

  // ------------------------------------------------------------------------------------------
  // Interleavings of the single atomic operations

  // A snapshot in progress: the routes are read in any order, then the total, then the classes in order. As a history
  // variable, calm: nothing was being recorded when it started and no request has been since.
  datatype Reader = Reader(routes: map<string, nat>, total: Option<nat>, classes: seq<nat>, calm: bool)

  /** Requests counted so far in the total only, with path and status, and in the total and a class, with path. */
  datatype Sys = Sys(counters: Counters, totalled: map<nat, (string, int)>, classed: map<nat, string>,
                     readers: map<nat, Reader>)

  datatype Event =
    | RecordTotal(id: nat, path: string, status: int)
    | RecordClass(id: nat)
    | RecordRoute(id: nat)
    | Begin(id: nat)
    | ReadRoute(id: nat, bucket: string)
    | ReadTotal(id: nat)
    | ReadClass(id: nat)

  function Start(paths: seq<string>): Sys {
    Sys(Counters(0, [0, 0, 0, 0, 0], map b | b in Buckets(paths) :: 0), map[], map[], map[])
  }

  function Disturbed(rs: map<nat, Reader>): map<nat, Reader> {
    map id | id in rs :: rs[id].(calm := false)
  }

  // An event that is not possible in a state leaves it as it is.
  function Apply(paths: seq<string>, s: Sys, e: Event): Sys {
    var c := s.counters;
    match e
    case RecordTotal(id, path, status) =>
      if id in s.totalled || id in s.classed then s
      else s.(counters := CountTotal(c), totalled := s.totalled[id := (path, status)], readers := Disturbed(s.readers))
    case RecordClass(id) =>
      if id in s.totalled && |c.classes| == CLASSES then
        var (path, status) := s.totalled[id];
        s.(counters := CountClass(c, ClassOf(status)), totalled := s.totalled - {id}, classed := s.classed[id := path])
      else s
    case RecordRoute(id) =>
      if id in s.classed then
        s.(counters := CountRoute(c, RouteBucket(paths, s.classed[id])), classed := s.classed - {id})
      else s
    case Begin(id) =>
      if id in s.readers then s
      else s.(readers := s.readers[id := Reader(map[], None, [], s.totalled == map[] && s.classed == map[])])
    case ReadRoute(id, bucket) =>
      if id in s.readers && bucket in c.routes && bucket !in s.readers[id].routes then
        var r := s.readers[id];
        s.(readers := s.readers[id := r.(routes := r.routes[bucket := c.routes[bucket]])])
      else s
    case ReadTotal(id) =>
      if id in s.readers && s.readers[id].routes.Keys == c.routes.Keys && s.readers[id].total.None? then
        s.(readers := s.readers[id := s.readers[id].(total := Some(c.total))])
      else s
    case ReadClass(id) =>
      if id in s.readers && s.readers[id].total.Some? && |s.readers[id].classes| < |c.classes| then
        var r := s.readers[id];
        s.(readers := s.readers[id := r.(classes := r.classes + [c.classes[|r.classes|]])])
      else s
  }

  function Run(paths: seq<string>, events: seq<Event>): Sys {
    if |events| == 0 then Start(paths) else Apply(paths, Run(paths, events[..|events| - 1]), events[|events| - 1])
  }

  function Sum(s: seq<nat>): nat {
    if |s| == 0 then 0 else Sum(s[..|s| - 1]) + s[|s| - 1]
  }

  // The counts of the named buckets, a missing one counting nothing.
  function SumOver(names: seq<string>, m: map<string, nat>): nat {
    if |names| == 0 then 0
    else SumOver(names[..|names| - 1], m) + if names[|names| - 1] in m then m[names[|names| - 1]] else 0
  }

  // ------------------------------------------------------------------------------------------
  // The invariant

  // Registered paths are distinct and none is called like a fallback.
  ghost predicate Distinct(names: seq<string>) {
    forall i, j :: 0 <= i < j < |names| ==> names[i] != names[j]
  }

  ghost predicate HasCounters(names: seq<string>, routes: map<string, nat>) {
    forall b :: b in routes <==> b in names
  }

  // The total runs ahead of the classes, and the classes ahead of the routes, by the requests being recorded.
  ghost predicate CountersOk(names: seq<string>, c: Counters, totalled: nat, classed: nat) {
    && |c.classes| == CLASSES && HasCounters(names, c.routes)
    && c.total == Sum(c.classes) + totalled
    && Sum(c.classes) == SumOver(names, c.routes) + classed
  }

  // The classes as the reader will have seen them if nothing more is counted.
  function Mixed(r: Reader, c: Counters): seq<nat>
    requires |r.classes| <= |c.classes|
  {
    r.classes + c.classes[|r.classes|..]
  }

  ghost predicate ReaderOk(names: seq<string>, c: Counters, r: Reader) {
    && r.routes.Keys <= c.routes.Keys && (forall b :: b in r.routes ==> r.routes[b] <= c.routes[b])
    && |r.classes| <= |c.classes| == CLASSES
    && (r.total.None? ==> r.classes == [])
    && (r.total.Some? ==> r.routes.Keys == c.routes.Keys)
    && (r.total.Some? ==> SumOver(names, r.routes) <= r.total.value && SumOver(names, r.routes) <= Sum(Mixed(r, c)))
  }

  ghost predicate CalmOk(c: Counters, r: Reader) {
    && r.routes.Keys <= c.routes.Keys && (forall b :: b in r.routes ==> r.routes[b] == c.routes[b])
    && (r.total.Some? ==> r.routes == c.routes && r.total.value == c.total)
    && r.classes <= c.classes
  }

  ghost predicate ReadersOk(names: seq<string>, c: Counters, rs: map<nat, Reader>, idle: bool) {
    forall id :: id in rs ==> ReaderOk(names, c, rs[id]) && (rs[id].calm ==> idle && CalmOk(c, rs[id]))
  }

  ghost predicate Inv(paths: seq<string>, s: Sys) {
    && CountersOk(Buckets(paths), s.counters, |s.totalled|, |s.classed|) && s.totalled.Keys !! s.classed.Keys
    && ReadersOk(Buckets(paths), s.counters, s.readers, s.totalled == map[] && s.classed == map[])
  }

  lemma {:induction false} SumBump(s: seq<nat>, k: nat)
    requires k < |s|
    ensures Sum(s[k := s[k] + 1]) == Sum(s) + 1
  {
    if k == |s| - 1 {
      assert s[k := s[k] + 1][..k] == s[..k];
    } else {
      SumBump(s[..|s| - 1], k);
      assert s[k := s[k] + 1][..|s| - 1] == s[..|s| - 1][k := s[k] + 1];
    }
  }

  lemma {:induction false} SumOverSame(names: seq<string>, m: map<string, nat>, b: string, x: nat)
    requires b !in names
    ensures SumOver(names, m[b := x]) == SumOver(names, m)
  {
    if |names| == 0 {
    } else {
      SumOverSame(names[..|names| - 1], m, b, x);
    }
  }

  lemma {:induction false} SumOverBump(names: seq<string>, m: map<string, nat>, b: string)
    requires Distinct(names) && b in names && b in m
    ensures SumOver(names, m[b := m[b] + 1]) == SumOver(names, m) + 1
  {
    var init := names[..|names| - 1];
    if names[|names| - 1] == b {
      SumOverSame(init, m, b, m[b] + 1);
    } else {
      SumOverBump(init, m, b);
    }
  }

  lemma {:induction false} SumOverMono(names: seq<string>, a: map<string, nat>, b: map<string, nat>)
    requires a.Keys <= b.Keys && forall k :: k in a ==> a[k] <= b[k]
    ensures SumOver(names, a) <= SumOver(names, b)
  {
    if |names| == 0 {
    } else {
      SumOverMono(names[..|names| - 1], a, b);
    }
  }

  lemma {:induction false} ZeroSum(s: seq<nat>)
    requires forall i :: 0 <= i < |s| ==> s[i] == 0
    ensures Sum(s) == 0
  {
    if |s| == 0 {
    } else {
      ZeroSum(s[..|s| - 1]);
    }
  }

  lemma {:induction false} ZeroSums(names: seq<string>, m: map<string, nat>)
    requires forall b :: b in m ==> m[b] == 0
    ensures SumOver(names, m) == 0 && Sum([0, 0, 0, 0, 0]) == 0
  {
    ZeroSum([0, 0, 0, 0, 0]);
    if |names| == 0 {
    } else {
      ZeroSums(names[..|names| - 1], m);
    }
  }

  lemma ReaderKeepsClass(names: seq<string>, c: Counters, r: Reader, k: nat)
    requires ReaderOk(names, c, r) && k < CLASSES
    ensures ReaderOk(names, CountClass(c, k), r)
  {
    var c' := CountClass(c, k);
    if k < |r.classes| {
      assert Mixed(r, c') == Mixed(r, c);
    } else {
      assert Mixed(r, c') == Mixed(r, c)[k := Mixed(r, c)[k] + 1];
      SumBump(Mixed(r, c), k);
    }
  }

  lemma TotalStep(paths: seq<string>, s: Sys, e: Event)
    requires Inv(paths, s) && e.RecordTotal?
    ensures Inv(paths, Apply(paths, s, e))
  {
    hide SumOver, Sum;
  }

  lemma SizeLess<K, V>(m: map<K, V>, k: K)
    requires k in m
    ensures |m - {k}| == |m| - 1
  {
    assert (m - {k}).Keys == m.Keys - {k};
    assert |m - {k}| == |(m - {k}).Keys|;
  }

  lemma SizeMore<K, V>(m: map<K, V>, k: K, v: V)
    requires k !in m
    ensures |m[k := v]| == |m| + 1
  {
    assert m[k := v].Keys == m.Keys + {k};
    assert |m[k := v]| == |m[k := v].Keys|;
  }

  lemma ClassCounters(names: seq<string>, c: Counters, totalled: nat, classed: nat, k: nat)
    requires CountersOk(names, c, totalled, classed) && totalled > 0 && k < CLASSES
    ensures CountersOk(names, CountClass(c, k), totalled - 1, classed + 1)
  {
    SumBump(c.classes, k);
  }

  lemma ClassStep(paths: seq<string>, s: Sys, id: nat)
    requires Inv(paths, s) && id in s.totalled
    ensures Inv(paths, Apply(paths, s, RecordClass(id)))
  {
    assert |s.counters.classes| == CLASSES;
    hide Buckets, ClassOf, ReaderOk, CalmOk, CountersOk, CountClass;
    var names, c, k := Buckets(paths), s.counters, ClassOf(s.totalled[id].1);
    SizeLess(s.totalled, id);
    SizeMore(s.classed, id, s.totalled[id].0);
    ClassCounters(names, c, |s.totalled|, |s.classed|, k);
    forall i | i in s.readers
      ensures ReaderOk(names, CountClass(c, k), s.readers[i]) && !s.readers[i].calm
    {
      ReaderKeepsClass(names, c, s.readers[i], k);
    }
  }

  lemma RouteCounters(names: seq<string>, c: Counters, totalled: nat, classed: nat, b: string)
    requires CountersOk(names, c, totalled, classed) && classed > 0 && b in names && Distinct(names)
    ensures CountersOk(names, CountRoute(c, b), totalled, classed - 1)
  {
    CounterStays(names, c.routes, b, c.routes[b] + 1);
    hide Sum, Distinct;
    SumOverBump(names, c.routes, b);
  }

  lemma CounterStays(names: seq<string>, routes: map<string, nat>, b: string, x: nat)
    requires HasCounters(names, routes) && b in routes
    ensures HasCounters(names, routes[b := x])
  {
  }

  lemma ReaderKeepsRoute(names: seq<string>, c: Counters, r: Reader, b: string)
    requires ReaderOk(names, c, r)
    ensures ReaderOk(names, CountRoute(c, b), r)
  {
    hide Sum, SumOver;
    assert Mixed(r, CountRoute(c, b)) == Mixed(r, c);
  }

  lemma RouteStep(paths: seq<string>, s: Sys, id: nat)
    requires Inv(paths, s) && id in s.classed && Distinct(Buckets(paths))
    ensures Inv(paths, Apply(paths, s, RecordRoute(id)))
  {
    hide Buckets, RouteBucket, ReaderOk, CalmOk, CountersOk, CountRoute, Distinct;
    var names, c, b := Buckets(paths), s.counters, RouteBucket(paths, s.classed[id]);
    SizeLess(s.classed, id);
    RouteCounters(names, c, |s.totalled|, |s.classed|, b);
    forall i | i in s.readers
      ensures ReaderOk(names, CountRoute(c, b), s.readers[i]) && !s.readers[i].calm
    {
      ReaderKeepsRoute(names, c, s.readers[i], b);
    }
  }

  lemma ReadTotalOk(names: seq<string>, s: Sys, r: Reader)
    requires CountersOk(names, s.counters, |s.totalled|, |s.classed|) && ReaderOk(names, s.counters, r) && r.total.None?
    requires r.routes.Keys == s.counters.routes.Keys
    ensures ReaderOk(names, s.counters, r.(total := Some(s.counters.total)))
  {
    SumOverMono(names, r.routes, s.counters.routes);
    assert Mixed(r, s.counters) == s.counters.classes;
    hide SumOver, Sum;
  }

  lemma ReadClassOk(names: seq<string>, c: Counters, r: Reader)
    requires ReaderOk(names, c, r) && r.total.Some? && |r.classes| < CLASSES
    ensures ReaderOk(names, c, r.(classes := r.classes + [c.classes[|r.classes|]]))
  {
    assert Mixed(r.(classes := r.classes + [c.classes[|r.classes|]]), c) == Mixed(r, c);
    hide SumOver, Sum;
  }

  lemma ReaderUpdate(paths: seq<string>, s: Sys, id: nat, r: Reader)
    requires Inv(paths, s) && ReaderOk(Buckets(paths), s.counters, r)
    requires r.calm ==> s.totalled == map[] && s.classed == map[] && CalmOk(s.counters, r)
    ensures Inv(paths, s.(readers := s.readers[id := r]))
  {
    hide Buckets, CountersOk, ReaderOk, CalmOk;
  }

  lemma BeginStep(paths: seq<string>, s: Sys, id: nat)
    requires Inv(paths, s)
    ensures Inv(paths, Apply(paths, s, Begin(id)))
  {
    if id !in s.readers {
      var r := Reader(map[], None, [], s.totalled == map[] && s.classed == map[]);
      ReaderUpdate(paths, s, id, r);
    }
  }

  lemma ReadRouteStep(paths: seq<string>, s: Sys, id: nat, b: string)
    requires Inv(paths, s) && id in s.readers && b in s.counters.routes && b !in s.readers[id].routes
    ensures Inv(paths, Apply(paths, s, ReadRoute(id, b)))
  {
    var r := s.readers[id];
    ReaderUpdate(paths, s, id, r.(routes := r.routes[b := s.counters.routes[b]]));
  }

  lemma ReadTotalStep(paths: seq<string>, s: Sys, id: nat)
    requires Inv(paths, s) && id in s.readers && s.readers[id].total.None?
    requires s.readers[id].routes.Keys == s.counters.routes.Keys
    ensures Inv(paths, Apply(paths, s, ReadTotal(id)))
  {
    var r := s.readers[id];
    ReadTotalOk(Buckets(paths), s, r);
    ReaderUpdate(paths, s, id, r.(total := Some(s.counters.total)));
  }

  lemma ReadClassStep(paths: seq<string>, s: Sys, id: nat)
    requires Inv(paths, s) && id in s.readers && s.readers[id].total.Some?
             && |s.readers[id].classes| < |s.counters.classes|
    ensures Inv(paths, Apply(paths, s, ReadClass(id)))
  {
    var r := s.readers[id];
    assert ReaderOk(Buckets(paths), s.counters, r) && |s.counters.classes| == CLASSES;
    hide SumOver, Sum, Buckets, ReaderOk;
    ReadClassOk(Buckets(paths), s.counters, r);
    ReaderUpdate(paths, s, id, r.(classes := r.classes + [s.counters.classes[|r.classes|]]));
  }

  lemma StepOk(paths: seq<string>, s: Sys, e: Event)
    requires Inv(paths, s) && Distinct(Buckets(paths))
    ensures Inv(paths, Apply(paths, s, e))
  {
    hide Inv, Buckets, Distinct;
    if e.RecordTotal? {
      TotalStep(paths, s, e);
    } else if e.RecordClass? {
      if e.id in s.totalled {
        ClassStep(paths, s, e.id);
      }
    } else if e.RecordRoute? {
      if e.id in s.classed {
        RouteStep(paths, s, e.id);
      }
    } else if e.Begin? {
      BeginStep(paths, s, e.id);
    } else if e.ReadRoute? {
      if e.id in s.readers && e.bucket in s.counters.routes && e.bucket !in s.readers[e.id].routes {
        ReadRouteStep(paths, s, e.id, e.bucket);
      }
    } else if e.ReadTotal? {
      if e.id in s.readers && s.readers[e.id].routes.Keys == s.counters.routes.Keys && s.readers[e.id].total.None? {
        ReadTotalStep(paths, s, e.id);
      }
    } else if e.id in s.readers && s.readers[e.id].total.Some? && |s.readers[e.id].classes| < |s.counters.classes| {
      ReadClassStep(paths, s, e.id);
    }
  }

  lemma {:induction false} RunOk(paths: seq<string>, events: seq<Event>)
    requires Distinct(Buckets(paths))
    ensures Inv(paths, Run(paths, events))
  {
    if |events| == 0 {
      ZeroSums(Buckets(paths), Start(paths).counters.routes);
    } else {
      RunOk(paths, events[..|events| - 1]);
      hide Inv, Buckets, Distinct, Apply;
      StepOk(paths, Run(paths, events[..|events| - 1]), events[|events| - 1]);
    }
  }

  // ------------------------------------------------------------------------------------------
  // What holds of every interleaving

  // A finished snapshot, whatever was recorded meanwhile, counts no more by route than in total or by class. If nothing
  // was recorded meanwhile the three agree.
  lemma SnapshotsAreOrdered(paths: seq<string>, events: seq<Event>, id: nat)
    requires Distinct(Buckets(paths)) && id in Run(paths, events).readers
    requires var r := Run(paths, events).readers[id]; r.total.Some? && |r.classes| == CLASSES
    ensures var r := Run(paths, events).readers[id];
            && SumOver(Buckets(paths), r.routes) <= r.total.value
            && SumOver(Buckets(paths), r.routes) <= Sum(r.classes)
            && (r.calm ==> SumOver(Buckets(paths), r.routes) == r.total.value == Sum(r.classes))
            && (r.calm ==> Counters(r.total.value, r.classes, r.routes) == Run(paths, events).counters)
  {
    RunOk(paths, events);
    var s := Run(paths, events);
    var r := s.readers[id];
    assert ReaderOk(Buckets(paths), s.counters, r) && Mixed(r, s.counters) == r.classes;
    assert r.calm ==> r.classes == s.counters.classes;
  }

  // At rest every request has been counted once in the total, once in a class and once under a route.
  lemma CountersAgreeAtRest(paths: seq<string>, events: seq<Event>)
    requires Distinct(Buckets(paths)) && Run(paths, events).totalled == map[] && Run(paths, events).classed == map[]
    ensures var c := Run(paths, events).counters; c.total == Sum(c.classes) == SumOver(Buckets(paths), c.routes)
  {
    RunOk(paths, events);
  }

  // The class of a status is its first digit, for the statuses there are.
  lemma ClassIsFirstDigit(status: int)
    ensures 100 <= status < 600 ==> ClassOf(status) + 1 == status / 100
    ensures status < 100 ==> ClassOf(status) == 0
    ensures status >= 600 ==> ClassOf(status) == 4
  {
  }

  // Any other path counts as the rest of the API or as a static file, by its prefix.
  lemma UnknownRoutes(paths: seq<string>, rest: string, path: string)
    requires path !in paths
    ensures "/api/v1/" + rest !in paths ==> RouteBucket(paths, "/api/v1/" + rest) == "other-api"
    ensures |path| < 8 || path[..8] != "/api/v1/" ==> RouteBucket(paths, path) == "static"
  {
    assert API_PREFIX <= "/api/v1/" + rest;
  }

  // What a reader gets at each step is the counter's value at that moment: routes first, in any order, then the total,
  // then the classes in turn.
  lemma ReaderReads(paths: seq<string>, s: Sys, id: nat, bucket: string)
    requires id in s.readers
    ensures bucket in s.counters.routes && bucket !in s.readers[id].routes ==>
              Apply(paths, s, ReadRoute(id, bucket)).readers[id].routes
              == s.readers[id].routes[bucket := s.counters.routes[bucket]]
    ensures s.readers[id].routes.Keys == s.counters.routes.Keys && s.readers[id].total.None? ==>
              Apply(paths, s, ReadTotal(id)).readers[id].total == Some(s.counters.total)
    ensures s.readers[id].total.Some? && |s.readers[id].classes| < |s.counters.classes| ==>
              Apply(paths, s, ReadClass(id)).readers[id].classes
              == s.readers[id].classes + [s.counters.classes[|s.readers[id].classes|]]
  {
  }
}
