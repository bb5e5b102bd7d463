/**
 How far rollups get. The watermark is the newest counted hour rather than a cursor, so it moves
 only when a sweep finds something to count: progress depends on the gaps between busy hours.
 Ingestion goes on between any two statements of a sweep.
 */
module RollupProgress {
  import opened Options
  import opened Timeline
  import opened Counting
  import opened EventLog
  import opened EventLogProofs

  /** Hours before `bound` in which something happened, and those of them not yet counted. */
  function BusyHours(s: Store, bound: int): set<int> {
    set id | id in s.history && s.history[id].at < bound :: StartOfHour(s.history[id].at)
  }

  function Uncounted(s: Store, bound: int): set<int> {
    set id | id in s.history && s.history[id].at < bound && BucketOf(s.history[id]) !in s.rollups
      :: StartOfHour(s.history[id].at)
  }

  /** Where the next range to count starts: the hour after the watermark, or the first event's. */
  function SweepFrom(s: Store): int
    requires s.rollups != map[] || s.events != map[]
  {
    if s.rollups != map[] then NextHour(s.rollups).value else StartOfHour(Oldest(s.events))
  }

  // ---- What a running sweep knows stays true ----

  /** What a sweep has read or worked out is still what it would read or work out now. */
  predicate SweepKnows(s: Store) {
    match s.sweep
    case WatermarkRead(_, resume) => resume == NextHour(s.rollups)
    case RangeChosen(_, from) => (s.rollups != map[] || s.events != map[]) && from == SweepFrom(s)
    case _ => true
  }

  lemma InsertKeepsOldest(s: Store, id: nat, agent: string, kind: EventType)
    requires Inv(s) && Enabled(s, Insert(id, agent, kind)) && s.events != map[]
    ensures var t := Apply(s, Insert(id, agent, kind)); t.events != map[] && Oldest(t.events) == Oldest(s.events)
  {
    var t := Apply(s, Insert(id, agent, kind));
    assert id in t.events;
    var k :| k in s.events && s.events[k].at == Oldest(s.events);
    assert t.events[k] == s.events[k];
  }

  /** Ingestion between the statements of a sweep changes nothing that the sweep relies on. */
  lemma StepKeepsKnowledge(s: Store, step: Step)
    requires Inv(s) && SweepKnows(s) && Enabled(s, step)
    ensures SweepKnows(Apply(s, step))
  {
    match step
    case Insert(id, agent, kind) =>
      if s.sweep.RangeChosen? && s.rollups == map[] { InsertKeepsOldest(s, id, agent, kind); }
    case _ =>
  }

  // ---- When the watermark advances ----

  /** A busy hour, complete at `now`, that a range starting now would take in. */
  predicate Reachable(s: Store, now: int, h: int)
    requires s.rollups != map[] || s.events != map[]
  {
    h in BusyHours(s, StartOfHour(now)) && SweepFrom(s) <= h < SweepFrom(s) + MAX_ROLLUP_MS
  }

  ghost predicate CanAdvance(s: Store, now: int) {
    (s.rollups != map[] || s.events != map[]) && exists h :: Reachable(s, now, h)
  }

  /** Events from the start of the range on have all survived, and none of their hours is counted. */
  lemma RangeIsRaw(s: Store, id: nat)
    requires Inv(s) && (s.rollups != map[] || s.events != map[])
    requires id in s.history && SweepFrom(s) <= s.history[id].at
    ensures id in s.events && BucketOf(s.history[id]) !in s.rollups
  {
    var b := BucketOf(s.history[id]);
    if s.rollups != map[] {
      WatermarkIsNewest(s);
      CountedToWatermark(s);
      HourBelow(s.history[id].at, NextHour(s.rollups).value);
    }
  }

  /** An event of a busy complete hour within reach is in the range. */
  lemma ReachableIsInRange(s: Store, id: nat)
    requires Inv(s) && SweepKnows(s) && s.sweep.RangeChosen?
    requires id in s.history && s.history[id].at < StartOfHour(s.sweep.now)
    requires s.sweep.from <= StartOfHour(s.history[id].at) < s.sweep.from + MAX_ROLLUP_MS
    ensures s.sweep.from <= s.history[id].at < RangeEnd(s.sweep.now, s.sweep.from)
  {
    RangeEndIsAligned(s.sweep.now, s.sweep.from);
    HourIsAligned(s.sweep.now);
    HourBelow(s.history[id].at, StartOfHour(s.sweep.now));
    WholeBuckets(s.history[id], s.sweep.from, RangeEnd(s.sweep.now, s.sweep.from));
  }

  /** A busy complete hour within reach gets a rollup row. */
  lemma ReachableIsCounted(s: Store, h: int)
    requires Inv(s) && SweepKnows(s) && s.sweep.RangeChosen? && Reachable(s, s.sweep.now, h)
    ensures var counted := Counted(s.events, s.sweep.from, RangeEnd(s.sweep.now, s.sweep.from));
            exists b :: b in counted && b !in s.rollups && b.hour == h
  {
    var now, from := s.sweep.now, s.sweep.from;
    var id :| id in s.history && s.history[id].at < StartOfHour(now) && StartOfHour(s.history[id].at) == h;
    ReachableIsInRange(s, id);
    RangeIsRaw(s, id);
    assert id in Rows(s.events, Between(from, RangeEnd(now, from)));
    assert BucketOf(s.events[id]) in Counted(s.events, from, RangeEnd(now, from));
  }

  lemma ReachableIsAdded(s: Store, h: int)
    requires Inv(s) && SweepKnows(s) && s.sweep.RangeChosen? && Reachable(s, s.sweep.now, h)
    ensures Apply(s, RollUp).rollups != s.rollups
  {
    ReachableIsCounted(s, h);
    var b :| b in Counted(s.events, s.sweep.from, RangeEnd(s.sweep.now, s.sweep.from)) && b !in s.rollups;
    assert b in Apply(s, RollUp).rollups;
  }

  /** Whatever a rollup statement counts was a busy complete hour within reach. */
  lemma CountedIsReachable(s: Store, b: Bucket)
    requires Inv(s) && SweepKnows(s) && s.sweep.RangeChosen?
    requires b in Counted(s.events, s.sweep.from, RangeEnd(s.sweep.now, s.sweep.from))
    ensures Reachable(s, s.sweep.now, b.hour)
  {
    var from, to := s.sweep.from, RangeEnd(s.sweep.now, s.sweep.from);
    var id :| id in Rows(s.events, Between(from, to)) && BucketOf(s.events[id]) == b;
    RangeEndIsAligned(s.sweep.now, from);
    WholeBuckets(s.events[id], from, to);
    assert s.history[id].at < StartOfHour(s.sweep.now);
  }

  /** A rollup statement adds rows, and so advances the watermark, exactly when a busy complete hour is within reach. */
  lemma RollUpAdvancesIff(s: Store)
    requires Inv(s) && SweepKnows(s) && s.sweep.RangeChosen?
    ensures Apply(s, RollUp).rollups != s.rollups <==> CanAdvance(s, s.sweep.now)
    ensures CanAdvance(s, s.sweep.now) ==> Watermark(s.rollups) != Watermark(Apply(s, RollUp).rollups)
  {
    if Apply(s, RollUp).rollups != s.rollups {
      AddedIsReachable(s);
      RollUpMovesWatermark(s);
    } else if CanAdvance(s, s.sweep.now) {
      var h :| Reachable(s, s.sweep.now, h);
      ReachableIsAdded(s, h);
    }
  }

  lemma AddedIsReachable(s: Store)
    requires Inv(s) && SweepKnows(s) && s.sweep.RangeChosen? && Apply(s, RollUp).rollups != s.rollups
    ensures CanAdvance(s, s.sweep.now)
  {
    SomethingIsCounted(s);
    var b := Pick(Counted(s.events, s.sweep.from, RangeEnd(s.sweep.now, s.sweep.from)).Keys);
    CountedIsReachable(s, b);
    assert Reachable(s, s.sweep.now, b.hour);
  }

  lemma SomethingIsCounted(s: Store)
    requires s.sweep.RangeChosen? && Apply(s, RollUp).rollups != s.rollups
    ensures Counted(s.events, s.sweep.from, RangeEnd(s.sweep.now, s.sweep.from)).Keys != {}
  {
    var counted := Counted(s.events, s.sweep.from, RangeEnd(s.sweep.now, s.sweep.from));
    if counted.Keys == {} { NothingToAdd(s.rollups, counted); }
  }

  lemma NothingToAdd(rollups: Rollups, counted: Rollups)
    requires counted.Keys == {}
    ensures rollups + counted == rollups
  {
    assert counted == map[];
  }

  lemma RollUpMovesWatermark(s: Store)
    requires Inv(s) && SweepKnows(s) && s.sweep.RangeChosen? && Apply(s, RollUp).rollups != s.rollups
    ensures Watermark(s.rollups) != Watermark(Apply(s, RollUp).rollups)
  {
    var t, from, to := Apply(s, RollUp), s.sweep.from, RangeEnd(s.sweep.now, s.sweep.from);
    assert Counted(s.events, from, to) != map[];
    var b := Pick(Counted(s.events, from, to).Keys);
    CountedIsExact(s, from, to, b);
    assert b in t.rollups;
    if s.rollups != map[] {
      WatermarkIsNewest(s);
      WatermarkIsNewest(t);
    }
  }

  /** A sweep that finds no range to count could not have advanced. */
  lemma ChooseRangeStopsOnlyIf(s: Store)
    requires Inv(s) && SweepKnows(s) && s.sweep.WatermarkRead? && Apply(s, ChooseRange).sweep.Pruning?
    ensures !CanAdvance(s, s.sweep.now)
  {
    if s.rollups != map[] || s.events != map[] {
      assert SweepFrom(s) >= StartOfHour(s.sweep.now);
      forall h <- BusyHours(s, StartOfHour(s.sweep.now)) ensures h < StartOfHour(s.sweep.now) {
        var id :| id in s.history && s.history[id].at < StartOfHour(s.sweep.now) && StartOfHour(s.history[id].at) == h;
      }
    }
  }

  /** Neither ingestion nor anything else before the rollup changes whether the running sweep can advance. */
  lemma StepKeepsReach(s: Store, step: Step, now: int)
    requires Inv(s) && Enabled(s, step) && now <= s.clock && !step.RollUp? && !step.PruneBatch?
    ensures CanAdvance(Apply(s, step), now) <==> CanAdvance(s, now)
  {
    var t := Apply(s, step);
    PastIsClosed(s, step, StartOfHour(now));
    if s.rollups == map[] && s.events == map[] {
      assert s.history == map[];
      assert BusyHours(s, StartOfHour(now)) == {};
    } else {
      if step.Insert? && s.rollups == map[] { InsertKeepsOldest(s, step.id, step.agent, step.kind); }
      assert SweepFrom(t) == SweepFrom(s);
      assert forall h :: Reachable(t, now, h) <==> Reachable(s, now, h);
    }
  }

  // ---- Small gaps: every busy hour is counted in time ----

  /** Every busy hour but the first follows another one closely enough for a sweep to bridge. */
  predicate GapsAreSmall(s: Store, bound: int) {
    forall h <- BusyHours(s, bound) ::
      (forall k <- BusyHours(s, bound) :: h <= k) || (exists p <- BusyHours(s, bound) :: p < h <= p + MAX_ROLLUP_MS)
  }

  /** Whatever is uncounted starts at or after the range of the next sweep. */
  lemma UncountedIsAhead(s: Store, bound: int, h: int)
    requires Inv(s) && h in Uncounted(s, bound)
    ensures s.rollups != map[] || s.events != map[]
    ensures SweepFrom(s) <= h
  {
    var id :| id in s.history && s.history[id].at < bound && BucketOf(s.history[id]) !in s.rollups
              && StartOfHour(s.history[id].at) == h;
    if s.rollups != map[] {
      CountedToWatermark(s);
      HourBelow(s.history[id].at, NextHour(s.rollups).value);
    } else {
      assert id in s.events;
      HourIsAligned(Oldest(s.events));
      HourBelow(s.history[id].at, StartOfHour(Oldest(s.events)));
    }
  }

  /** With small gaps the oldest uncounted hour is always within reach of the next sweep. */
  lemma OldestUncountedIsReachable(s: Store, bound: int)
    requires Inv(s) && Aligned(bound) && GapsAreSmall(s, bound) && Uncounted(s, bound) != {}
    ensures s.rollups != map[] || s.events != map[]
    ensures SweepFrom(s) <= MinOf(Uncounted(s, bound)) < SweepFrom(s) + MAX_ROLLUP_MS
  {
    var m := MinOf(Uncounted(s, bound));
    UncountedIsAhead(s, bound, m);
    var from := SweepFrom(s);
    assert m in BusyHours(s, bound);
    if s.rollups == map[] {
      var id :| id in s.events && s.events[id].at == Oldest(s.events);
      FirstHour(s, bound, id);
    } else {
      WatermarkIsBusy(s, bound, m);
      var p :| p in BusyHours(s, bound) && p < m <= p + MAX_ROLLUP_MS;
      CountedHourIsBehind(s, bound, p);
    }
  }

  /** Nothing counted yet: the first range starts at the oldest busy hour. */
  lemma FirstHour(s: Store, bound: int, id: nat)
    requires Inv(s) && s.rollups == map[] && id in s.events && s.events[id].at == Oldest(s.events)
    requires Aligned(bound) && Uncounted(s, bound) != {}
    ensures MinOf(Uncounted(s, bound)) <= StartOfHour(Oldest(s.events))
  {
    var h := Pick(Uncounted(s, bound));
    var k :| k in s.history && s.history[k].at < bound && StartOfHour(s.history[k].at) == h;
    assert k in s.events;
    assert s.history[id].at < bound;
    assert StartOfHour(s.history[id].at) in Uncounted(s, bound);
  }

  /** The watermark is itself a busy hour, so a later uncounted hour is not the first one. */
  lemma WatermarkIsBusy(s: Store, bound: int, m: int)
    requires Inv(s) && s.rollups != map[] && m in BusyHours(s, bound) && SweepFrom(s) <= m && Aligned(bound)
    ensures exists k <- BusyHours(s, bound) :: k < m
  {
    WatermarkIsNewest(s);
    var b :| b in s.rollups && b.hour == Watermark(s.rollups).value;
    assert FinalRow(s, b);
    var id := Pick(Rows(s.history, InBucket(b)));
    assert s.history[id].at < bound;
    assert b.hour in BusyHours(s, bound);
  }

  lemma CountedHourIsBehind(s: Store, bound: int, p: int)
    requires Inv(s) && s.rollups != map[] && p in BusyHours(s, bound) && p !in Uncounted(s, bound)
    ensures p < SweepFrom(s)
  {
    var id :| id in s.history && s.history[id].at < bound && StartOfHour(s.history[id].at) == p;
    WatermarkIsNewest(s);
    assert BucketOf(s.history[id]) in s.rollups;
  }

  lemma UncountedIsWhole(s: Store, bound: int, h: int)
    requires h in Uncounted(s, bound)
    ensures Aligned(h)
  {
    var id :| id in s.history && s.history[id].at < bound && BucketOf(s.history[id]) !in s.rollups
              && StartOfHour(s.history[id].at) == h;
    HourIsAligned(s.history[id].at);
  }

  /** What happens later cannot add to the history before a bound already past. */
  lemma PastIsClosed(s: Store, step: Step, bound: int)
    requires Inv(s) && Enabled(s, step) && bound <= s.clock
    ensures BusyHours(Apply(s, step), bound) == BusyHours(s, bound)
    ensures Uncounted(Apply(s, step), bound) <= Uncounted(s, bound)
  {
    StepKeepsInv(s, step);
  }

  lemma AllCounted(s: Store, bound: int)
    ensures Uncounted(s, bound) == {} ==> CountedBelow(s, bound)
  {
    forall id <- s.history | s.history[id].at < bound && BucketOf(s.history[id]) !in s.rollups
      ensures StartOfHour(s.history[id].at) in Uncounted(s, bound)
    {
    }
  }

  lemma LaterHour(a: int, b: int)
    requires a <= b
    ensures StartOfHour(a) <= StartOfHour(b)
  {
  }

  /** The step at which a sweep begun when `bound` was past has reached its count: a rollup, or nothing to roll up. */
  predicate Counts(s: Store, step: Step, bound: int)
    requires Enabled(s, step)
  {
    || (step.RollUp? && bound <= StartOfHour(s.sweep.now))
    || (step.ChooseRange? && bound <= StartOfHour(s.sweep.now) && Apply(s, step).sweep.Pruning?)
  }

  /** How many sweeps of a run reach their count. */
  function Sweeps(s: Store, steps: seq<Step>, bound: int): nat
    requires Runs(s, steps)
    decreases |steps|
  {
    if steps == [] then 0
    else (if Counts(s, steps[0], bound) then 1 else 0) + Sweeps(Apply(s, steps[0]), steps[1..], bound)
  }

  /** A sweep that reaches its rollup counts at least the oldest uncounted hour. */
  lemma OldestGetsCounted(s: Store, bound: int)
    requires Inv(s) && SweepKnows(s) && s.sweep.RangeChosen? && Aligned(bound) && bound <= StartOfHour(s.sweep.now)
    requires GapsAreSmall(s, bound) && Uncounted(s, bound) != {}
    ensures MinOf(Uncounted(s, bound)) !in Uncounted(Apply(s, RollUp), bound)
  {
    var m := MinOf(Uncounted(s, bound));
    var to := RangeEnd(s.sweep.now, s.sweep.from);
    OldestUncountedIsReachable(s, bound);
    RollUpCountsRange(s, s.sweep.from, to);
    RangeEndIsAligned(s.sweep.now, s.sweep.from);
    UncountedIsWhole(s, bound, m);
    assert m < bound by { var id :| id in s.history && s.history[id].at < bound && StartOfHour(s.history[id].at) == m; }
    AlignedGap(m, to);
  }

  /** A sweep that finds no range has nothing left to count. */
  lemma NothingLeft(s: Store, bound: int)
    requires Inv(s) && SweepKnows(s) && s.sweep.WatermarkRead? && bound <= StartOfHour(s.sweep.now)
    requires Apply(s, ChooseRange).sweep.Pruning?
    ensures Uncounted(s, bound) == {}
  {
    if Uncounted(s, bound) != {} {
      var h := Pick(Uncounted(s, bound));
      var id :| id in s.history && s.history[id].at < bound && StartOfHour(s.history[id].at) == h;
      UncountedIsAhead(s, bound, h);
      assert false;
    }
  }

  /** Each sweep that reaches its count takes at least one hour off those uncounted, and no step ever adds one. */
  lemma CountingShrinks(s: Store, step: Step, bound: int)
    requires Inv(s) && SweepKnows(s) && Enabled(s, step) && Aligned(bound) && bound <= s.clock && GapsAreSmall(s, bound)
    ensures var before, after := Uncounted(s, bound), Uncounted(Apply(s, step), bound);
            after <= before && |after| <= |before| && (Counts(s, step, bound) && before != {} ==> |after| < |before|)
  {
    var before, after := Uncounted(s, bound), Uncounted(Apply(s, step), bound);
    PastIsClosed(s, step, bound);
    SubsetSize(after, before);
    if Counts(s, step, bound) && before != {} {
      if step.RollUp? { OldestGetsCounted(s, bound); } else { NothingLeft(s, bound); }
    }
  }

  lemma GapsStaySmall(s: Store, step: Step, bound: int)
    requires Inv(s) && Enabled(s, step) && bound <= s.clock && GapsAreSmall(s, bound)
    ensures bound <= Apply(s, step).clock && GapsAreSmall(Apply(s, step), bound)
  {
    PastIsClosed(s, step, bound);
  }

  /**
   With small gaps every sweep that reaches its count makes progress, whatever ingestion, prunes and dead sweeps
   interleave: after n of them at least n of the uncounted hours are counted, or all are.
   */
  lemma {:induction false} EverySweepCounts(s: Store, steps: seq<Step>, bound: int)
    requires Inv(s) && SweepKnows(s) && Runs(s, steps) && Aligned(bound) && bound <= s.clock && GapsAreSmall(s, bound)
    ensures var left := Uncounted(Exec(s, steps), bound);
            left <= Uncounted(s, bound) && (left == {} || |left| + Sweeps(s, steps, bound) <= |Uncounted(s, bound)|)
    decreases |steps|
  {
    if steps != [] {
      var t := Apply(s, steps[0]);
      StepKeepsInv(s, steps[0]);
      StepKeepsKnowledge(s, steps[0]);
      CountingShrinks(s, steps[0], bound);
      GapsStaySmall(s, steps[0], bound);
      EverySweepCounts(t, steps[1..], bound);
    }
  }

  /** As many counting sweeps as there are uncounted busy hours count them all. */
  lemma SweepsCatchUp(s: Store, steps: seq<Step>, bound: int)
    requires Inv(s) && SweepKnows(s) && Runs(s, steps) && Aligned(bound) && bound <= s.clock && GapsAreSmall(s, bound)
    requires Sweeps(s, steps, bound) >= |Uncounted(s, bound)|
    ensures CountedBelow(Exec(s, steps), bound)
  {
    EverySweepCounts(s, steps, bound);
    AllCounted(Exec(s, steps), bound);
  }

  lemma {:induction false} SweepsAppend(s: Store, xs: seq<Step>, ys: seq<Step>, bound: int)
    requires Runs(s, xs) && Runs(Exec(s, xs), ys)
    ensures Runs(s, xs + ys) && Sweeps(s, xs + ys, bound) == Sweeps(s, xs, bound) + Sweeps(Exec(s, xs), ys, bound)
    decreases |xs|
  {
    if xs == [] {
      assert xs + ys == ys;
    } else {
      assert (xs + ys)[1..] == xs[1..] + ys;
      SweepsAppend(Apply(s, xs[0]), xs[1..], ys, bound);
    }
  }

  // ---- Large gaps: what lies beyond one is never counted ----

  /** Busy hours of a finished run with nothing between them and more than the ceiling apart. */
  predicate FarApart(t: Store, p: int, h: int) {
    && Aligned(p) && Aligned(h) && p + MAX_ROLLUP_MS < h
    && (exists id <- t.history :: StartOfHour(t.history[id].at) == p)
    && (forall id <- t.history :: StartOfHour(t.history[id].at) <= p || h <= StartOfHour(t.history[id].at))
  }

  predicate NothingFrom(rollups: Rollups, h: int) { forall b <- rollups :: b.hour < h }

  /** What a run inserts later it inserts at a later clock. */
  lemma {:induction false} LaterRowsAreLater(s: Store, steps: seq<Step>)
    requires Runs(s, steps)
    ensures forall id <- Exec(s, steps).history :: id in s.history || s.clock <= Exec(s, steps).history[id].at
    ensures forall id <- s.history :: id in Exec(s, steps).history && Exec(s, steps).history[id] == s.history[id]
    decreases |steps|
  {
    if steps != [] { LaterRowsAreLater(Apply(s, steps[0]), steps[1..]); }
  }

  /** The history so far has nothing between the two hours, and an event in the first unless that is still to come. */
  predicate SoFarApart(s: Store, p: int, h: int) {
    && Aligned(p) && Aligned(h) && p + MAX_ROLLUP_MS < h
    && (s.clock < p + HOUR_MS || exists id <- s.history :: StartOfHour(s.history[id].at) == p)
    && (forall id <- s.history :: StartOfHour(s.history[id].at) <= p || h <= StartOfHour(s.history[id].at))
  }

  lemma FarApartSoFar(s: Store, steps: seq<Step>, p: int, h: int)
    requires Runs(s, steps) && FarApart(Exec(s, steps), p, h)
    ensures SoFarApart(s, p, h)
  {
    var t := Exec(s, steps);
    LaterRowsAreLater(s, steps);
    var id :| id in t.history && StartOfHour(t.history[id].at) == p;
    if id in s.history { assert StartOfHour(s.history[id].at) == p; }
    forall i <- s.history ensures StartOfHour(s.history[i].at) <= p || h <= StartOfHour(s.history[i].at) {
      assert t.history[i] == s.history[i];
    }
  }

  /** A counted hour is a busy one, so none lies between the two. */
  lemma WatermarkIsBehind(s: Store, p: int, h: int)
    requires Inv(s) && s.rollups != map[] && SoFarApart(s, p, h) && NothingFrom(s.rollups, h)
    ensures NextHour(s.rollups).Some? && NextHour(s.rollups).value <= p + HOUR_MS
  {
    WatermarkIsNewest(s);
    var b :| b in s.rollups && b.hour == Watermark(s.rollups).value;
    assert FinalRow(s, b);
    var id := Pick(Rows(s.history, InBucket(b)));
    assert b.hour == StartOfHour(s.history[id].at);
  }

  /** A range that starts no later than the first of the two hours ends before the second. */
  lemma RangeStopsShort(s: Store, p: int, h: int)
    requires Inv(s) && SweepKnows(s) && s.sweep.RangeChosen? && SoFarApart(s, p, h) && NothingFrom(s.rollups, h)
    ensures RangeEnd(s.sweep.now, s.sweep.from) <= h
  {
    var from := s.sweep.from;
    if s.rollups != map[] {
      WatermarkIsBehind(s, p, h);
      CeilingGap(p, h);
    } else if s.clock < p + HOUR_MS {
      assert StartOfHour(s.sweep.now) <= s.clock;
    } else {
      var id :| id in s.history && StartOfHour(s.history[id].at) == p;
      assert id in s.events;
      LaterHour(Oldest(s.events), s.history[id].at);
    }
  }

  /** Whole hours more than the ceiling apart are at least one more hour apart. */
  lemma CeilingGap(p: int, h: int)
    requires Aligned(p) && Aligned(h) && p + MAX_ROLLUP_MS < h
    ensures p + HOUR_MS + MAX_ROLLUP_MS <= h
  {
    assert (p + MAX_ROLLUP_MS) / HOUR_MS == p / HOUR_MS + MAX_ROLLUP_HOURS_PER_SWEEP;
    AlignedGap(p + MAX_ROLLUP_MS, h);
  }

  lemma StepStopsShort(s: Store, step: Step, p: int, h: int)
    requires Inv(s) && SweepKnows(s) && SoFarApart(s, p, h) && NothingFrom(s.rollups, h) && Enabled(s, step)
    ensures NothingFrom(Apply(s, step).rollups, h)
  {
    if step.RollUp? {
      var from, to := s.sweep.from, RangeEnd(s.sweep.now, s.sweep.from);
      RangeStopsShort(s, p, h);
      forall b <- Counted(s.events, from, to) ensures b.hour < h { CountedIsExact(s, from, to, b); }
    }
  }

  /** No run ever counts an hour more than the ceiling after the busy hour before it, nor any later one. */
  lemma {:induction false} NeverCounted(s: Store, steps: seq<Step>, p: int, h: int)
    requires Inv(s) && SweepKnows(s) && Runs(s, steps) && NothingFrom(s.rollups, h)
    requires FarApart(Exec(s, steps), p, h)
    ensures NothingFrom(Exec(s, steps).rollups, h)
    decreases |steps|
  {
    if steps != [] {
      FarApartSoFar(s, steps, p, h);
      StepKeepsInv(s, steps[0]);
      StepKeepsKnowledge(s, steps[0]);
      StepStopsShort(s, steps[0], p, h);
      NeverCounted(Apply(s, steps[0]), steps[1..], p, h);
    }
  }

  /** A gap that is not small: the busy hour before it, and nothing in between. */
  lemma LargeGap(s: Store, bound: int) returns (p: int, h: int)
    requires Aligned(bound) && !GapsAreSmall(s, bound)
    ensures h in BusyHours(s, bound) && FarApart(s, p, h)
  {
    var busy := BusyHours(s, bound);
    h :| h in busy && (exists k :: k in busy && k < h) && forall q <- busy :: q < h ==> q + MAX_ROLLUP_MS < h;
    var hour := h;
    var earlier := set k | k in busy && k < hour;
    var first :| first in busy && first < h;
    assert first in earlier;
    p := MaxOf(earlier);
    assert p in busy && h in busy;
    BusyIsWhole(s, bound, p);
    BusyIsWhole(s, bound, h);
    forall id <- s.history ensures StartOfHour(s.history[id].at) <= p || h <= StartOfHour(s.history[id].at) {
      var k := StartOfHour(s.history[id].at);
      if k < h {
        assert k < bound;
        HourBelow(s.history[id].at, bound);
        assert k in earlier;
      }
    }
  }

  lemma BusyIsWhole(s: Store, bound: int, h: int)
    requires h in BusyHours(s, bound)
    ensures Aligned(h) && h < bound && exists id <- s.history :: StartOfHour(s.history[id].at) == h
  {
    var id :| id in s.history && s.history[id].at < bound && StartOfHour(s.history[id].at) == h;
    HourIsAligned(s.history[id].at);
  }

  /** From an empty hub, what is counted up to a bound already past has only small gaps. */
  lemma CountedHasSmallGaps(clock: nat, steps: seq<Step>, bound: int)
    requires Runs(Empty(clock), steps) && Aligned(bound) && CountedBelow(Exec(Empty(clock), steps), bound)
    ensures GapsAreSmall(Exec(Empty(clock), steps), bound)
  {
    var t := Exec(Empty(clock), steps);
    if !GapsAreSmall(t, bound) {
      var p, h := LargeGap(t, bound);
      var id :| id in t.history && t.history[id].at < bound && StartOfHour(t.history[id].at) == h;
      assert BucketOf(t.history[id]) in t.rollups;
      NeverCounted(Empty(clock), steps, p, h);
      assert false;
    }
  }

  /**
   Exactly when rollups catch up. From an empty hub, once a run has gone on for as many counting sweeps as there were
   uncounted busy hours, everything before a bound already past is counted if and only if no busy hour there lies more
   than the per-sweep ceiling after the one before it.
   */
  lemma CatchesUpIff(clock: nat, before: seq<Step>, after: seq<Step>, bound: int)
    requires Runs(Empty(clock), before) && Aligned(bound) && bound <= Exec(Empty(clock), before).clock
    requires var s := Exec(Empty(clock), before); Runs(s, after) && Sweeps(s, after, bound) >= |Uncounted(s, bound)|
    ensures var s := Exec(Empty(clock), before);
            CountedBelow(Exec(s, after), bound) <==> GapsAreSmall(s, bound)
  {
    var s := Exec(Empty(clock), before);
    RunKeepsKnowledge(Empty(clock), before);
    if GapsAreSmall(s, bound) {
      SweepsCatchUp(s, after, bound);
    } else {
      RunsAppend(Empty(clock), before, after);
      BusyStaysClosed(s, after, bound);
      if CountedBelow(Exec(s, after), bound) { CountedHasSmallGaps(clock, before + after, bound); }
    }
  }

  lemma {:induction false} RunKeepsKnowledge(s: Store, steps: seq<Step>)
    requires Inv(s) && SweepKnows(s) && Runs(s, steps)
    ensures Inv(Exec(s, steps)) && SweepKnows(Exec(s, steps))
    decreases |steps|
  {
    if steps != [] {
      StepKeepsInv(s, steps[0]);
      StepKeepsKnowledge(s, steps[0]);
      RunKeepsKnowledge(Apply(s, steps[0]), steps[1..]);
    }
  }

  lemma {:induction false} BusyStaysClosed(s: Store, steps: seq<Step>, bound: int)
    requires Inv(s) && Runs(s, steps) && bound <= s.clock
    ensures BusyHours(Exec(s, steps), bound) == BusyHours(s, bound)
    decreases |steps|
  {
    if steps != [] {
      StepKeepsInv(s, steps[0]);
      PastIsClosed(s, steps[0], bound);
      BusyStaysClosed(Apply(s, steps[0]), steps[1..], bound);
    }
  }

  // ---- A long empty stretch ----

  /** An empty stretch of at least the per-sweep ceiling after the watermark, already in the past. */
  predicate Stalled(s: Store, next: int) {
    && NextHour(s.rollups) == Some(next)
    && next + MAX_ROLLUP_MS <= s.clock
    && (forall id <- s.history :: s.history[id].at < next || next + MAX_ROLLUP_MS <= s.history[id].at)
    && (s.sweep.WatermarkRead? ==> s.sweep.resume == Some(next))
    && (s.sweep.RangeChosen? ==> s.sweep.from == next)
  }

  lemma StalledRollUp(s: Store, next: int)
    requires Surviving(s) && Stalled(s, next) && s.sweep.RangeChosen?
    ensures Apply(s, RollUp).rollups == s.rollups
  {
    var to := RangeEnd(s.sweep.now, next);
    assert Rows(s.events, Between(next, to)) == {};
    assert Counted(s.events, next, to) == map[];
  }

  lemma StalledStep(s: Store, step: Step, next: int)
    requires Surviving(s) && Stalled(s, next) && Enabled(s, step)
    ensures Stalled(Apply(s, step), next) && Apply(s, step).rollups == s.rollups
  {
    if step.RollUp? { StalledRollUp(s, next); }
  }

  /** Once stalled, no run ever moves the watermark again, though every report stays exact. */
  lemma {:induction false} StallIsPermanent(s: Store, steps: seq<Step>, next: int)
    requires Inv(s) && Stalled(s, next) && Runs(s, steps)
    ensures Exec(s, steps).rollups == s.rollups && Inv(Exec(s, steps))
    decreases |steps|
  {
    if steps != [] {
      StepKeepsInv(s, steps[0]);
      StalledStep(s, steps[0], next);
      StallIsPermanent(Apply(s, steps[0]), steps[1..], next);
    }
  }
}
