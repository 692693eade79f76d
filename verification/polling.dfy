/** The dashboard's history poll: an asynchronous exchange that appends a delta or fetches the whole window. */
module Polling {
  import opened Seqs
  import opened HistoryData
  import opened Dashboard

  // Where a running poll is suspended: its first request (a delta when asked is Some) or the fallback to the full
  // window.
  datatype Phase = Idle | AwaitingFirst(asked: Option<int>) | AwaitingFull

  datatype Client = Client(since: Option<int>, latest: Option<History>, polls: nat, phase: Phase) {
    ghost predicate Valid() {
      && (latest.Some? ==> latest.value.Valid())
      && (phase.AwaitingFirst? && phase.asked.Some? ==> latest.Some?)
    }

    predicate Incremental() {
      since.Some? && latest.Some? && polls < RESYNC_EVERY_POLLS
    }

    // What is awaited is the whole window rather than a delta.
    predicate Resyncing() {
      phase.AwaitingFull? || phase == AwaitingFirst(None)
    }
  }

  function Fresh(): Client {
    Client(None, None, 0, Idle)
  }

  // since is the timestamp of some newest tracked point, at the server's own precision.
  ghost predicate Rendered(c: Client, hist: History)
    requires hist.Valid()
  {
    && c.latest == Some(hist)
    && if Tracked(hist) == {} then c.since.None?
       else exists p :: p in Tracked(hist) && Ms(p) == Newest(Tracked(hist)) && c.since == Some(p.at)
  }

  function Asked(c: Client): Client {
    if c.phase != Idle then c else c.(phase := AwaitingFirst(if c.Incremental() then c.since else None))
  }

  // A failed fetch forgets since; the full window replaces what is held; a delta is merged or leads to a second fetch.
  ghost predicate Answered(cfg: ClientConfig, c: Client, answer: Option<History>, c': Client)
    requires c.Valid() && c.phase != Idle && (answer.Some? ==> answer.value.Valid())
  {
    if answer.None? then c' == c.(since := None, phase := Idle)
    else if c.Resyncing() then Rendered(c', answer.value) && c'.polls == 0 && c'.phase == Idle
    else
      var merged := Merge(cfg, c.latest.value, answer.value);
      if merged.Some? then Rendered(c', merged.value) && c'.polls == c.polls + 1 && c'.phase == Idle
      else c' == c.(phase := AwaitingFull)
  }

  class HistoryPoller {
    const config: ClientConfig
    var historySince: Option<int>
    var latestHistory: Option<History>
    var historyPollsSinceResync: nat
    var historyInFlight: bool
    // the running poll's own variables, kept across its awaits
    var incremental: bool
    var requested: Option<int>
    var resynced: bool

    ghost function State(): Client
      reads this
    {
      Client(historySince, latestHistory, historyPollsSinceResync,
             if !historyInFlight then Idle
             else if incremental && resynced then AwaitingFull
             else AwaitingFirst(requested))
    }

    ghost predicate Valid()
      reads this
    {
      && State().Valid()
      && (historyInFlight && !(incremental && resynced) ==>
          (incremental <==> requested.Some?) && resynced == !incremental)
    }

    constructor (config: ClientConfig)
      ensures Valid() && State() == Fresh() && this.config == config
    {
      this.config := config;
      historySince, latestHistory, historyPollsSinceResync, historyInFlight := None, None, 0, false;
      incremental, requested, resynced := false, None, true;
    }

    // Runs up to the first await, or does nothing when a poll is already running.
    method PollHistory()
      requires Valid()
      modifies this
      ensures Valid() && State() == Asked(old(State()))
    {
      if historyInFlight {
        return;
      }
      historyInFlight := true;
      incremental := historySince.Some? && latestHistory.Some? && historyPollsSinceResync < RESYNC_EVERY_POLLS;
      requested := if incremental then historySince else None;
      resynced := !incremental;
    }

    // Continues after an await; None stands for a fetch that failed.
    method Resume(answer: Option<History>)
      requires Valid() && State().phase != Idle
      requires answer.Some? ==> answer.value.Valid()
      modifies this
      ensures Valid() && Answered(config, old(State()), answer, State())
    {
      hide Merge, Tracked, AreBounds;
      if answer.None? {
        historySince := None;
        historyInFlight := false;
        return;
      }
      var hist := answer.value;
      if !resynced {
        var merged := MergeHistory(config, latestHistory.value, hist);
        if merged.None? {
          resynced := true;
          return;
        }
        hist := merged.value;
      }
      historyPollsSinceResync := if resynced then 0 else historyPollsSinceResync + 1;
      RenderHistory(hist);
      historyInFlight := false;
    }

    // Also called when the theme changes, with the history already held.
    method RenderHistory(hist: History)
      requires hist.Valid()
      modifies this`latestHistory, this`historySince
      ensures Rendered(State(), hist)
    {
      latestHistory := Some(hist);
      var b := HistoryBounds(hist);
      historySince := if b.Bounds? then Some(b.newestPoint.at) else None;
    }
  }
}
