/**
 * What debouncing means, said about the sequence of readings a stream has produced rather than
 * about timers: a boundary is confirmed when every reading of some long enough tail lies on one
 * side of it. The engine's bookkeeping is proved to compute exactly this.
 */
module Debouncing {
  import opened Alert

  datatype Reading = Reading(value: real, at: int)

  ghost predicate Sorted(h: seq<Reading>) {
    forall i, j :: 0 <= i <= j < |h| ==> h[i].at <= h[j].at
  }

  ghost predicate OnSideSince(h: seq<Reading>, start: int, cut: real, above: bool)
    requires 0 <= start < |h|
  {
    forall j :: start <= j < |h| ==> (h[j].value >= cut) == above
  }

  // The trailing readings have all been on the given side of the cutoff for at least d.
  ghost predicate Confirmed(h: seq<Reading>, cut: real, above: bool, d: int) {
    exists i :: 0 <= i < |h| && OnSideSince(h, i, cut, above) && h[|h| - 1].at - h[i].at >= d
  }

  // The highest level confirmed from below and the lowest confirmed from above.
  ghost function Floor(h: seq<Reading>, cut: Cutoffs, d: int): Level {
    if Confirmed(h, cut.crit, true, d) then Crit else if Confirmed(h, cut.warn, true, d) then Warn else OK
  }

  ghost function Ceiling(h: seq<Reading>, cut: Cutoffs, d: int): Level {
    if Confirmed(h, cut.warn, false, d) then OK else if Confirmed(h, cut.crit, false, d) then Warn else Crit
  }

  function Clamp(l: Level, lo: Level, hi: Level): Level {
    if Severity(l) < Severity(lo) then lo else if Severity(l) > Severity(hi) then hi else l
  }

  // A level moves only as far as the readings force it.
  ghost function DebouncedLevel(h: seq<Reading>, cut: Cutoffs, d: int): Level {
    if |h| == 0 then OK else Clamp(DebouncedLevel(h[..|h| - 1], cut, d), Floor(h, cut, d), Ceiling(h, cut, d))
  }

  // When the present level was entered.
  ghost function EnteredAt(h: seq<Reading>, cut: Cutoffs, d: int): int
    requires |h| > 0
  {
    var before := h[..|h| - 1];
    if |before| > 0 && DebouncedLevel(before, cut, d) == DebouncedLevel(h, cut, d) then EnteredAt(before, cut, d)
    else h[|h| - 1].at
  }

  // `since` is the time of the reading at which the trailing run on side `above` began.
  ghost predicate RunsFrom(h: seq<Reading>, start: int, cut: real, above: bool, since: int) {
    && 0 <= start < |h|
    && OnSideSince(h, start, cut, above)
    && since == h[start].at
    && (start > 0 ==> (h[start - 1].value >= cut) != above)
  }

  ghost predicate Timer(h: seq<Reading>, cut: real, above: bool, since: int) {
    exists start :: RunsFrom(h, start, cut, above, since)
  }

  // A boundary timer decides confirmation in both directions.
  lemma TimerDecides(h: seq<Reading>, cut: real, above: bool, since: int, side: bool, d: int)
    requires Sorted(h) && Timer(h, cut, above, since)
    ensures above == side && h[|h| - 1].at - since >= d <==> Confirmed(h, cut, side, d)
  {
    var start :| RunsFrom(h, start, cut, above, since);
    var last := |h| - 1;
    assert (h[last].value >= cut) == above;
    if above == side && h[last].at - since >= d {
      assert OnSideSince(h, start, cut, side);
    }
    if Confirmed(h, cut, side, d) {
      var i :| 0 <= i < |h| && OnSideSince(h, i, cut, side) && h[last].at - h[i].at >= d;
      assert (h[last].value >= cut) == side;
      if i < start {
        assert false;
      }
      assert h[start].at <= h[i].at;
    }
  }

  lemma TimerContinues(h: seq<Reading>, r: Reading, cut: real, above: bool, since: int)
    requires Timer(h, cut, above, since) && (r.value >= cut) == above
    ensures Timer(h + [r], cut, above, since)
  {
    var start :| RunsFrom(h, start, cut, above, since);
    assert RunsFrom(h + [r], start, cut, above, since);
  }

  lemma TimerRestarts(h: seq<Reading>, r: Reading, cut: real, above: bool)
    requires |h| > 0 ==> (h[|h| - 1].value >= cut) != above
    requires (r.value >= cut) == above
    ensures Timer(h + [r], cut, above, r.at)
  {
    assert RunsFrom(h + [r], |h|, cut, above, r.at);
  }

  // The bookkeeping st is what the readings h determine.
  ghost predicate Tracks(st: Debounce, h: seq<Reading>, cut: Cutoffs, d: int) {
    && |h| > 0 && st.initialized
    && Timer(h, cut.warn, st.warnAbove, st.warnSince)
    && Timer(h, cut.crit, st.critAbove, st.critSince)
    && st.active == DebouncedLevel(h, cut, d)
    && st.activeSince == EnteredAt(h, cut, d)
    && st.lastValue == h[|h| - 1].value
  }

  // Two confirmations of opposite sides, or of crossed boundaries, never meet.
  lemma ConfirmationsAgree(h: seq<Reading>, cut: Cutoffs, d: int)
    requires cut.warn <= cut.crit
    ensures Confirmed(h, cut.crit, true, d) ==> Confirmed(h, cut.warn, true, d)
    ensures Confirmed(h, cut.warn, false, d) ==> Confirmed(h, cut.crit, false, d)
    ensures !(Confirmed(h, cut.warn, true, d) && Confirmed(h, cut.warn, false, d))
    ensures !(Confirmed(h, cut.crit, true, d) && Confirmed(h, cut.crit, false, d))
    ensures Severity(Floor(h, cut, d)) <= Severity(Ceiling(h, cut, d))
  {
    if Confirmed(h, cut.crit, true, d) {
      var i :| 0 <= i < |h| && OnSideSince(h, i, cut.crit, true) && h[|h| - 1].at - h[i].at >= d;
      assert OnSideSince(h, i, cut.warn, true);
    }
    if Confirmed(h, cut.warn, false, d) {
      var i :| 0 <= i < |h| && OnSideSince(h, i, cut.warn, false) && h[|h| - 1].at - h[i].at >= d;
      assert OnSideSince(h, i, cut.crit, false);
    }
  }

  // The transition table is a clamp: the two boundaries give a floor and a ceiling, and nothing else moves the level.
  lemma NextLevelIsClamp(l: Level, h: seq<Reading>, cut: Cutoffs, d: int)
    requires cut.warn <= cut.crit
    ensures NextLevel(l, Confirmed(h, cut.crit, true, d), Confirmed(h, cut.warn, true, d),
                      Confirmed(h, cut.crit, false, d), Confirmed(h, cut.warn, false, d))
         == Clamp(l, Floor(h, cut, d), Ceiling(h, cut, d))
  {
    ConfirmationsAgree(h, cut, d);
  }

  lemma UpdateTimersTracks(st: Debounce, h: seq<Reading>, r: Reading, cut: Cutoffs)
    requires st.initialized <==> |h| > 0
    requires |h| > 0 ==>
               Timer(h, cut.warn, st.warnAbove, st.warnSince) && Timer(h, cut.crit, st.critAbove, st.critSince)
    ensures var st' := UpdateTimers(st, r.value >= cut.warn, r.value >= cut.crit, r.at);
            Timer(h + [r], cut.warn, st'.warnAbove, st'.warnSince)
                && Timer(h + [r], cut.crit, st'.critAbove, st'.critSince)
  {
    UpdateOne(h, r, cut.warn, st.warnAbove, st.warnSince);
    UpdateOne(h, r, cut.crit, st.critAbove, st.critSince);
  }

  lemma UpdateOne(h: seq<Reading>, r: Reading, cut: real, above: bool, since: int)
    requires |h| > 0 ==> Timer(h, cut, above, since)
    ensures if |h| > 0 && above == (r.value >= cut) then Timer(h + [r], cut, above, since)
            else Timer(h + [r], cut, r.value >= cut, r.at)
  {
    if |h| > 0 && above == (r.value >= cut) {
      TimerContinues(h, r, cut, above, since);
    } else {
      if |h| > 0 {
        var start :| RunsFrom(h, start, cut, above, since);
        assert (h[|h| - 1].value >= cut) == above;
      }
      TimerRestarts(h, r, cut, r.value >= cut);
    }
  }

  // With both timers right, the transition table takes the level of the readings before the last one to that after it.
  lemma TimersGiveLevel(st: Debounce, h: seq<Reading>, cut: Cutoffs, d: int)
    requires |h| > 0 && Sorted(h) && cut.warn <= cut.crit
    requires Timer(h, cut.warn, st.warnAbove, st.warnSince) && Timer(h, cut.crit, st.critAbove, st.critSince)
    requires st.active == DebouncedLevel(h[..|h| - 1], cut, d)
    ensures NextLevelOf(st, h[|h| - 1].at, d) == DebouncedLevel(h, cut, d)
  {
    TimerDecides(h, cut.warn, st.warnAbove, st.warnSince, true, d);
    TimerDecides(h, cut.warn, st.warnAbove, st.warnSince, false, d);
    TimerDecides(h, cut.crit, st.critAbove, st.critSince, true, d);
    TimerDecides(h, cut.crit, st.critAbove, st.critSince, false, d);
    NextLevelIsClamp(st.active, h, cut, d);
  }

  // What the bookkeeping says before a reading, the first one included.
  lemma BeforeReading(st: Debounce, h: seq<Reading>, r: Reading, cut: Cutoffs, d: int)
    requires if |h| == 0 then st == Fresh(r.at) else Tracks(st, h, cut, d)
    ensures st.initialized <==> |h| > 0
    ensures |h| > 0 ==>
              Timer(h, cut.warn, st.warnAbove, st.warnSince) && Timer(h, cut.crit, st.critAbove, st.critSince)
    ensures st.active == DebouncedLevel(h, cut, d)
    ensures st.activeSince == if |h| == 0 then r.at else EnteredAt(h, cut, d)
  {
    hide Timer;
  }

  // The state machine's step computes the debounced level of the readings so far.
  lemma ObserveTracks(st: Debounce, h: seq<Reading>, r: Reading, cut: Cutoffs, d: int)
    requires Sorted(h + [r]) && cut.warn <= cut.crit
    requires if |h| == 0 then st == Fresh(r.at) else Tracks(st, h, cut, d)
    ensures Tracks(Observe(st, r.value, cut, r.at, d), h + [r], cut, d)
  {
    hide Timer, Tracks, DebouncedLevel, EnteredAt, NextLevel, NextLevelOf, Sorted, Fresh;
    assert (h + [r])[..|h|] == h;
    var st0 := st.(lastValue := r.value);
    var st1 := UpdateTimers(st0, r.value >= cut.warn, r.value >= cut.crit, r.at);
    BeforeReading(st, h, r, cut, d);
    UpdateTimersTracks(st0, h, r, cut);
    assert st1.initialized && st1.lastValue == r.value && st1.active == st.active && st1.activeSince == st.activeSince;
    hide UpdateTimers;
    TimersGiveLevel(st1, h + [r], cut, d);
    ObserveKeeps(st1, h, r, cut, d);
  }

  lemma ObserveKeeps(st: Debounce, h: seq<Reading>, r: Reading, cut: Cutoffs, d: int)
    requires st.initialized && st.lastValue == r.value
    requires Timer(h + [r], cut.warn, st.warnAbove, st.warnSince)
             && Timer(h + [r], cut.crit, st.critAbove, st.critSince)
    requires st.active == DebouncedLevel(h, cut, d)
    requires st.activeSince == if |h| == 0 then r.at else EnteredAt(h, cut, d)
    ensures var next := DebouncedLevel(h + [r], cut, d);
            Tracks(if next == st.active then st else st.(active := next, activeSince := r.at), h + [r], cut, d)
  {
    assert (h + [r])[..|h|] == h;
  }

  // The two timers of a reachable state are never crossed.
  lemma TimersOrdered(st: Debounce, h: seq<Reading>, cut: Cutoffs, d: int)
    requires Sorted(h) && cut.warn <= cut.crit && Tracks(st, h, cut, d)
    ensures st.critAbove ==> st.warnAbove && st.warnSince <= st.critSince
    ensures !st.warnAbove ==> !st.critAbove && st.critSince <= st.warnSince
  {
    var w :| RunsFrom(h, w, cut.warn, st.warnAbove, st.warnSince);
    var k :| RunsFrom(h, k, cut.crit, st.critAbove, st.critSince);
    assert (h[|h| - 1].value >= cut.warn) == st.warnAbove && (h[|h| - 1].value >= cut.crit) == st.critAbove;
    if st.critAbove && k < w {
      assert false;
    } else if !st.warnAbove && w < k {
      assert false;
    }
  }

  // Debounce is exact: which levels are forced, and what a change of level proves about the readings.
  lemma DebouncedLevelExact(h: seq<Reading>, cut: Cutoffs, d: int)
    requires |h| > 0 && cut.warn <= cut.crit
    ensures Confirmed(h, cut.crit, true, d) ==> DebouncedLevel(h, cut, d) == Crit
    ensures Confirmed(h, cut.warn, false, d) ==> DebouncedLevel(h, cut, d) == OK
    ensures Confirmed(h, cut.warn, true, d) && Confirmed(h, cut.crit, false, d) ==> DebouncedLevel(h, cut, d) == Warn
    ensures var l, l' := DebouncedLevel(h[..|h| - 1], cut, d), DebouncedLevel(h, cut, d);
            && (Severity(l') > Severity(l) ==> Confirmed(h, if l' == Crit then cut.crit else cut.warn, true, d))
            && (Severity(l') < Severity(l) ==> Confirmed(h, if l' == OK then cut.warn else cut.crit, false, d))
  {
    ConfirmationsAgree(h, cut, d);
  }

  // The dashboard's colour for a single value.
  function LevelClass(value: real, cut: Cutoffs): Level {
    if value >= cut.crit then Crit else if value >= cut.warn then Warn else OK
  }

  // With the debounce disabled the engine reports what the dashboard shows for the latest value.
  lemma NoDebounceIsLevelClass(h: seq<Reading>, cut: Cutoffs, d: int)
    requires |h| > 0 && Sorted(h) && cut.warn <= cut.crit && d <= 0
    ensures DebouncedLevel(h, cut, d) == LevelClass(h[|h| - 1].value, cut)
  {
    InstantlyConfirmed(h, cut.warn, d);
    InstantlyConfirmed(h, cut.crit, d);
    DebouncedLevelExact(h, cut, d);
  }

  lemma InstantlyConfirmed(h: seq<Reading>, cut: real, d: int)
    requires |h| > 0 && d <= 0
    ensures Confirmed(h, cut, h[|h| - 1].value >= cut, d)
  {
    assert OnSideSince(h, |h| - 1, cut, h[|h| - 1].value >= cut);
  }
}
