/**
 What every run of the retention machine keeps: nothing is deleted before it is counted,
 and a count never changes afterwards.
 */
module EventLogProofs {
  import opened Options
  import opened Timeline
  import opened Counting
  import opened EventLog

  /** Rollup rows stay final while only the clock and the raw table change. */
  lemma RowsStayFinal(s: Store, t: Store)
    requires RowsAreFinal(s) && t.rollups == s.rollups && t.history == s.history && s.clock <= t.clock
    ensures RowsAreFinal(t)
  {
    forall b <- t.rollups ensures FinalRow(t, b) { assert FinalRow(s, b); }
  }

  /** The watermark: the start of the newest rolled-up hour. */
  lemma WatermarkIsNewest(s: Store)
    requires s.rollups != map[]
    ensures Watermark(s.rollups).Some?
    ensures exists b :: b in s.rollups && b.hour == Watermark(s.rollups).value
    ensures NextHour(s.rollups) == Some(Watermark(s.rollups).value + HOUR_MS)
    ensures RowsBelow(s.rollups, NextHour(s.rollups).value)
  {
    NonEmptyHours(s.rollups);
    forall b <- s.rollups ensures b.hour in Hours(s.rollups) {}
  }

  /** A rollup row starts on the hour: it was written for an event inside that hour. */
  lemma RowsAreWholeHours(s: Store, b: Bucket)
    requires FinalRow(s, b)
    ensures Aligned(b.hour) && Aligned(b.hour + HOUR_MS)
  {
    var id := Pick(Rows(s.history, InBucket(b)));
    HourIsAligned(s.history[id].at);
  }

  /** Everything before the hour after the watermark has been counted, and that hour is a whole one. */
  lemma CountedToWatermark(s: Store)
    requires Inv(s) && s.rollups != map[]
    ensures var next := NextHour(s.rollups).value;
            Aligned(next) && next <= s.clock && CountedBelow(s, next)
  {
    WatermarkIsNewest(s);
    var b :| b in s.rollups && b.hour == Watermark(s.rollups).value;
    assert FinalRow(s, b);
    RowsAreWholeHours(s, b);
  }

  lemma ReadWatermarkKeepsInv(s: Store)
    requires Inv(s) && Enabled(s, ReadWatermark)
    ensures Inv(Apply(s, ReadWatermark))
  {
    var t := Apply(s, ReadWatermark);
    RowsStayFinal(s, t);
    if s.rollups != map[] {
      CountedToWatermark(s);
      WatermarkIsNewest(s);
    }
  }

  /** An hour still uncounted at the rollup has lost no row. */
  lemma RangeIsUncounted(s: Store, b: Bucket)
    requires Inv(s) && s.sweep.RangeChosen? && b.hour >= s.sweep.from
    ensures b !in s.rollups
    ensures Rows(s.history, InBucket(b)) == Rows(s.events, InBucket(b))
  {
    assert b !in s.rollups;
  }

  /** The whole hours of a range contain exactly the buckets that start in it. */
  lemma WholeBuckets(e: Event, from: int, to: int)
    requires Aligned(from) && Aligned(to)
    ensures from <= e.at < to <==> from <= BucketOf(e).hour < to
    ensures e.at < to ==> BucketOf(e).hour + HOUR_MS <= to
  {
    HourBelow(e.at, from);
    HourBelow(e.at, to);
  }

  lemma RangeEndIsAligned(now: int, from: int)
    requires Aligned(from) && from < StartOfHour(now)
    ensures Aligned(RangeEnd(now, from)) && from < RangeEnd(now, from) <= StartOfHour(now)
  {
    HourIsAligned(now);
    assert (from + MAX_ROLLUP_MS) / HOUR_MS == from / HOUR_MS + MAX_ROLLUP_HOURS_PER_SWEEP;
  }

  /** One rollup statement writes exactly the full-history count of each bucket in its range. */
  lemma CountedIsExact(s: Store, from: int, to: int, b: Bucket)
    requires Inv(s) && s.sweep.RangeChosen? && from == s.sweep.from && to == RangeEnd(s.sweep.now, from)
    requires b in BucketsIn(s.events, from, to)
    ensures from <= b.hour && b.hour + HOUR_MS <= to
    ensures Counted(s.events, from, to)[b] == |Rows(s.history, InBucket(b))| > 0
  {
    RangeEndIsAligned(s.sweep.now, from);
    var id :| id in Rows(s.events, Between(from, to)) && BucketOf(s.events[id]) == b;
    WholeBuckets(s.events[id], from, to);
    RangeIsUncounted(s, b);
    forall i <- s.events | BucketOf(s.events[i]) == b ensures from <= s.events[i].at < to {
      WholeBuckets(s.events[i], from, to);
    }
    assert (set i | i in Rows(s.events, Between(from, to)) && BucketOf(s.events[i]) == b)
        == Rows(s.history, InBucket(b));
    assert id in Rows(s.history, InBucket(b));
  }

  lemma RollUpCountsRange(s: Store, from: int, to: int)
    requires Inv(s) && s.sweep.RangeChosen? && from == s.sweep.from && to == RangeEnd(s.sweep.now, from)
    ensures CountedBelow(Apply(s, RollUp), to)
  {
    var t := Apply(s, RollUp);
    forall id <- t.history | t.history[id].at < to
      ensures BucketOf(t.history[id]) in t.rollups
    {
      if id in s.events && from <= s.history[id].at {
        assert id in Rows(s.events, Between(from, to));
      }
    }
  }

  lemma RollUpKeepsInv(s: Store)
    requires Inv(s) && Enabled(s, RollUp)
    ensures Inv(Apply(s, RollUp))
    ensures forall b <- s.rollups :: b in Apply(s, RollUp).rollups && Apply(s, RollUp).rollups[b] == s.rollups[b]
  {
    var t := Apply(s, RollUp);
    var from, to := s.sweep.from, RangeEnd(s.sweep.now, s.sweep.from);
    RangeEndIsAligned(s.sweep.now, from);
    RollUpCountsRange(s, from, to);
    forall b <- Counted(s.events, from, to) ensures FinalRow(t, b) {
      CountedIsExact(s, from, to, b);
    }
    forall b <- s.rollups ensures t.rollups[b] == s.rollups[b] && FinalRow(t, b) {
      assert FinalRow(s, b);
      if b in Counted(s.events, from, to) { CountedIsExact(s, from, to, b); }
    }
  }

  lemma ChooseRangeKeepsInv(s: Store)
    requires Inv(s) && Enabled(s, ChooseRange)
    ensures Inv(Apply(s, ChooseRange))
  {
    var t := Apply(s, ChooseRange);
    RowsStayFinal(s, t);
    if s.sweep.resume.None? {
      assert forall id <- s.history :: id in s.events;
      if s.events != map[] {
        HourIsAligned(Oldest(s.events));
        assert forall id <- s.history :: Oldest(s.events) <= s.history[id].at;
      } else {
        assert s.history == map[];
      }
    }
  }

  /** The instant below which the tables, or the running sweep, take every event to be counted already. */
  function SettledTo(s: Store): int {
    var counted := if s.rollups == map[] then 0 else NextHour(s.rollups).value;
    var held := match s.sweep
                case WatermarkRead(_, Some(resume)) => resume
                case RangeChosen(_, from) => from
                case Pruning(_, through) => through
                case _ => 0;
    if counted < held then held else counted
  }

  function Added(s: Store, id: nat, e: Event): Store { s.(history := s.history[id := e], events := s.events[id := e]) }

  lemma SettledByNow(s: Store)
    requires Inv(s)
    ensures SettledTo(s) <= s.clock
  {
    if s.rollups != map[] { CountedToWatermark(s); }
    if s.sweep.RangeChosen? { HourBelow(s.sweep.now, s.sweep.from); }
  }

  lemma RowAbove(s: Store, id: nat, e: Event)
    requires Inv(s) && id !in s.history && SettledTo(s) <= e.at <= s.clock && 0 <= e.at
    ensures Inv(Added(s, id, e))
  {
    RowAboveKeepsCounts(s, id, e);
    assert PrunedAreCounted(Added(s, id, e));
    assert SweepInv(Added(s, id, e));
  }

  lemma RowAboveKeepsCounts(s: Store, id: nat, e: Event)
    requires RowsAreFinal(s) && id !in s.history && SettledTo(s) <= e.at
    ensures RowsAreFinal(Added(s, id, e))
  {
    var t := Added(s, id, e);
    if s.rollups != map[] { WatermarkIsNewest(s); }
    forall b <- t.rollups ensures FinalRow(t, b) {
      assert FinalRow(s, b) && b.hour + HOUR_MS <= e.at;
      assert Rows(t.history, InBucket(b)) == Rows(s.history, InBucket(b));
      assert CountedBelow(t, b.hour + HOUR_MS);
    }
  }

  /** A row added to a counted bucket makes its count wrong. */
  lemma CountedTwice(s: Store, id: nat, e: Event)
    requires RowsAreFinal(s) && id !in s.history && BucketOf(e) in s.rollups
    ensures !RowsAreFinal(Added(s, id, e))
  {
    var t, b := Added(s, id, e), BucketOf(e);
    assert FinalRow(s, b);
    assert Rows(t.history, InBucket(b)) == Rows(s.history, InBucket(b)) + {id};
    assert !FinalRow(t, b);
  }

  lemma RowBelow(s: Store, id: nat, e: Event)
    requires Inv(s) && id !in s.history && 0 <= e.at < SettledTo(s)
    ensures !Inv(Added(s, id, e))
  {
    var t := Added(s, id, e);
    if BucketOf(e) in s.rollups {
      CountedTwice(s, id, e);
    } else {
      assert BucketOf(t.history[id]) !in t.rollups;
      assert !CountedBelow(t, SettledTo(s));
      if s.rollups != map[] && SettledTo(s) == NextHour(s.rollups).value {
        WatermarkIsNewest(s);
        var b :| b in s.rollups && b.hour == Watermark(s.rollups).value;
        assert !FinalRow(t, b);
      }
    }
  }

  /**
   An insert whose stamp is older than its commit: everything the tables promise survives exactly when nothing at or
   after the stamp has been counted yet.
   */
  lemma LateRowIff(s: Store, id: nat, e: Event)
    requires Inv(s) && id !in s.history && 0 <= e.at <= s.clock
    ensures Inv(Added(s, id, e)) <==> SettledTo(s) <= e.at
  {
    if SettledTo(s) <= e.at { RowAbove(s, id, e); } else { RowBelow(s, id, e); }
  }

  lemma InsertKeepsInv(s: Store, id: nat, agent: string, kind: EventType)
    requires Inv(s) && Enabled(s, Insert(id, agent, kind))
    ensures Inv(Apply(s, Insert(id, agent, kind)))
  {
    SettledByNow(s);
    RowAbove(s, id, Event(agent, kind, s.clock));
  }

  /** A prune may take exactly the rows that are both older than its window and below what has been counted. */
  lemma PrunableIff(s: Store, days: nat, ids: set<nat>)
    requires s.sweep.Pruning? && days > 0
    ensures Enabled(s, PruneBatch(days, ids)) <==>
              forall id <- ids :: && id in s.events && s.events[id].at < s.sweep.now - days * DAY_MS
                                  && s.events[id].at < s.sweep.through
  {
  }

  /** Every prune of the run keeps at least this many days. */
  predicate KeepsDays(steps: seq<Step>, days: nat) {
    forall i :: 0 <= i < |steps| && steps[i].PruneBatch? ==> steps[i].days >= days
  }

  /** Over every run, what has gone is older than the retention window, whatever had been counted. */
  lemma {:induction false} GoneIsOld(s: Store, steps: seq<Step>, days: nat, id: nat)
    requires Inv(s) && Runs(s, steps) && KeepsDays(steps, days)
    requires id in s.events && id !in Exec(s, steps).events
    ensures s.events[id].at < Exec(s, steps).clock - days * DAY_MS
    decreases |steps|
  {
    var t := Apply(s, steps[0]);
    StepKeepsInv(s, steps[0]);
    if id in t.events {
      assert t.events[id] == s.events[id];
      assert KeepsDays(steps[1..], days);
      GoneIsOld(t, steps[1..], days, id);
    } else {
      PrunableIff(s, steps[0].days, steps[0].ids);
      ClockGoesOn(t, steps[1..]);
    }
  }

  lemma {:induction false} ClockGoesOn(s: Store, steps: seq<Step>)
    requires Runs(s, steps)
    ensures s.clock <= Exec(s, steps).clock
    decreases |steps|
  {
    if steps != [] { ClockGoesOn(Apply(s, steps[0]), steps[1..]); }
  }

  lemma PruneKeepsInv(s: Store, days: nat, ids: set<nat>)
    requires Inv(s) && Enabled(s, PruneBatch(days, ids))
    ensures Inv(Apply(s, PruneBatch(days, ids)))
  {
    var t := Apply(s, PruneBatch(days, ids));
    RowsStayFinal(s, t);
    forall id <- t.history | id !in t.events ensures BucketOf(t.history[id]) in t.rollups {
      if id in s.events { assert id in ids; assert s.events[id].at < s.sweep.through; }
    }
  }

  /** Every step keeps the invariant, every rollup row and the whole history. */
  lemma StepKeepsInv(s: Store, step: Step)
    requires Inv(s) && Enabled(s, step)
    ensures Inv(Apply(s, step))
    ensures forall b <- s.rollups :: b in Apply(s, step).rollups && Apply(s, step).rollups[b] == s.rollups[b]
    ensures forall id <- s.history :: id in Apply(s, step).history && Apply(s, step).history[id] == s.history[id]
  {
    match step
    case RollUp => RollUpKeepsInv(s);
    case ChooseRange => ChooseRangeKeepsInv(s);
    case ReadWatermark => ReadWatermarkKeepsInv(s);
    case Insert(id, agent, kind) => InsertKeepsInv(s, id, agent, kind);
    case PruneBatch(days, ids) => PruneKeepsInv(s, days, ids);
    case _ =>
      var t := Apply(s, step);
      RowsStayFinal(s, t);
  }

  /** Counts are final: across any run, interleaved with any ingestion, no rollup row ever changes or disappears. */
  lemma {:induction false} CountsAreFinal(s: Store, steps: seq<Step>)
    requires Inv(s) && Runs(s, steps)
    ensures Inv(Exec(s, steps))
    ensures forall b <- s.rollups :: b in Exec(s, steps).rollups && Exec(s, steps).rollups[b] == s.rollups[b]
    ensures forall b <- s.rollups :: s.rollups[b] == |Rows(Exec(s, steps).history, InBucket(b))|
    ensures forall id <- s.history :: id in Exec(s, steps).history && Exec(s, steps).history[id] == s.history[id]
    decreases |steps|
  {
    if steps != [] {
      StepKeepsInv(s, steps[0]);
      CountsAreFinal(Apply(s, steps[0]), steps[1..]);
    }
    assert forall b <- s.rollups :: FinalRow(s, b) && FinalRow(Exec(s, steps), b);
  }

  lemma {:induction false} RunsAppend(s: Store, xs: seq<Step>, ys: seq<Step>)
    ensures Runs(s, xs + ys) <==> Runs(s, xs) && Runs(Exec(s, xs), ys)
    ensures Runs(s, xs + ys) ==> Exec(s, xs + ys) == Exec(Exec(s, xs), ys)
    decreases |xs|
  {
    if xs == [] {
      assert xs + ys == ys;
    } else {
      assert (xs + ys)[1..] == xs[1..] + ys;
      if Enabled(s, xs[0]) { RunsAppend(Apply(s, xs[0]), xs[1..], ys); }
    }
  }

  /**
   Nothing is deleted before it is counted: a pruned event's hour is rolled up, at or below the watermark, in full.
   */
  lemma PrunedWasCounted(clock: nat, steps: seq<Step>, id: nat)
    requires Runs(Empty(clock), steps)
    requires id in Exec(Empty(clock), steps).history && id !in Exec(Empty(clock), steps).events
    ensures var t := Exec(Empty(clock), steps);
            var b := BucketOf(t.history[id]);
            && b in t.rollups
            && t.rollups[b] == |Rows(t.history, InBucket(b))|
            && Watermark(t.rollups).Some? && b.hour <= Watermark(t.rollups).value
  {
    CountsAreFinal(Empty(clock), steps);
    var t := Exec(Empty(clock), steps);
    WatermarkIsNewest(t);
    assert FinalRow(t, BucketOf(t.history[id]));
  }

  /**
   No sweep recounts an hour that has lost a row: a rollup statement only writes buckets that had no row,
   and of those buckets every event ever inserted is still in the table.
   */
  lemma NoRecountAfterLoss(s: Store, b: Bucket)
    requires Inv(s) && s.sweep.RangeChosen?
    requires b in Counted(s.events, s.sweep.from, RangeEnd(s.sweep.now, s.sweep.from))
    ensures b !in s.rollups && Rows(s.events, InBucket(b)) == Rows(s.history, InBucket(b))
  {
    CountedIsExact(s, s.sweep.from, RangeEnd(s.sweep.now, s.sweep.from), b);
    RangeIsUncounted(s, b);
  }
}
