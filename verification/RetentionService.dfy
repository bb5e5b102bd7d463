/**
 The retention service as it runs: one SQL statement at a time against tables that ingestion keeps
 writing to between statements. Every method is shown to be a run of the retention machine, so
 everything proved about runs holds of it.
 */
module RetentionService {
  import opened Options
  import opened Timeline
  import opened Counting
  import opened EventLog
  import opened EventLogProofs
  import opened RollupProgress

  predicate IsTraffic(steps: seq<Step>) {
    forall i :: 0 <= i < |steps| ==> steps[i].Wait? || steps[i].Insert?
  }

  predicate Leads(s: Store, steps: seq<Step>, t: Store) { Runs(s, steps) && Exec(s, steps) == t }

  lemma LeadsOn(s: Store, xs: seq<Step>, t: Store, ys: seq<Step>, u: Store)
    requires Leads(s, xs, t) && Leads(t, ys, u)
    ensures Leads(s, xs + ys, u)
  {
    RunsAppend(s, xs, ys);
  }

  /** The same, keeping the tally of sweeps that reached their count. */
  lemma SweepsAdd(s: Store, xs: seq<Step>, t: Store, ys: seq<Step>, u: Store, bound: int)
    requires Leads(s, xs, t) && Leads(t, ys, u)
    ensures Leads(s, xs + ys, u) && Sweeps(s, xs + ys, bound) == Sweeps(s, xs, bound) + Sweeps(t, ys, bound)
  {
    SweepsAppend(s, xs, ys, bound);
    RunsAppend(s, xs, ys);
  }

  /** Ingestion neither helps nor hinders the running sweep. */
  lemma {:induction false} TrafficKeepsReach(s: Store, steps: seq<Step>, now: int)
    requires Inv(s) && SweepKnows(s) && IsTraffic(steps) && Runs(s, steps) && now <= s.clock
    ensures SweepKnows(Exec(s, steps)) && (CanAdvance(Exec(s, steps), now) <==> CanAdvance(s, now))
    decreases |steps|
  {
    if steps != [] {
      StepKeepsInv(s, steps[0]);
      StepKeepsKnowledge(s, steps[0]);
      StepKeepsReach(s, steps[0], now);
      TrafficKeepsReach(Apply(s, steps[0]), steps[1..], now);
    }
  }

  /** Rows that have been deleted. */
  function Pruned(s: Store): set<nat> { s.history.Keys - s.events.Keys }

  /** Ingestion only adds: the sweep, the rollups and the deleted rows stay, and new rows carry the hub's clock. */
  lemma {:induction false} TrafficOnlyAdds(s: Store, steps: seq<Step>)
    requires IsTraffic(steps) && Runs(s, steps) && Surviving(s)
    ensures var t := Exec(s, steps);
            && t.sweep == s.sweep && t.rollups == s.rollups && s.clock <= t.clock
            && Surviving(t) && Pruned(t) == Pruned(s)
            && (forall id <- t.events :: id in s.events || s.clock <= t.events[id].at)
            && (forall id <- s.events :: id in t.events && t.events[id] == s.events[id])
    decreases |steps|
  {
    if steps != [] {
      TrafficOnlyAdds(Apply(s, steps[0]), steps[1..]);
      assert Pruned(Apply(s, steps[0])) == Pruned(s);
    }
  }

  /** A delete accounts for every row it removes. */
  lemma DeleteGrowsPruned(history: set<nat>, live: set<nat>, ids: set<nat>)
    requires ids <= live <= history
    ensures |history - (live - ids)| == |history - live| + |ids|
  {
    DisjointSize(history - (live - ids), history - live, ids);
  }

  lemma EventsAreHistory(s: Store)
    requires Surviving(s)
    ensures s.events.Keys <= s.history.Keys
  {
  }

  lemma StepLeads(s: Store, step: Step)
    requires Enabled(s, step)
    ensures Leads(s, [step], Apply(s, step))
  {
    assert [step][1..] == [];
  }

  /** Deleting matching rows is one step of the machine. */
  lemma DeleteIsStep(s: Store, days: nat, ids: set<nat>, t: Store)
    requires Inv(s) && Enabled(s, PruneBatch(days, ids)) && t == Apply(s, PruneBatch(days, ids))
    ensures Leads(s, [PruneBatch(days, ids)], t) && Inv(t)
    ensures |Pruned(t)| == |Pruned(s)| + |ids|
  {
    StepLeads(s, PruneBatch(days, ids));
    PruneKeepsInv(s, days, ids);
    assert t.events.Keys == s.events.Keys - ids;
    EventsAreHistory(s);
    DeleteGrowsPruned(s.history.Keys, s.events.Keys, ids);
  }

  /** One rollup statement is one step of the machine, and it is where a sweep reaches its count. */
  lemma UpsertIsStep(s: Store)
    requires Inv(s) && SweepKnows(s) && s.sweep.RangeChosen?
    ensures Leads(s, [RollUp], Apply(s, RollUp)) && Inv(Apply(s, RollUp))
    ensures Apply(s, RollUp).rollups != s.rollups <==> CanAdvance(s, s.sweep.now)
  {
    RollUpKeepsInv(s);
    RollUpAdvancesIff(s);
    StepLeads(s, RollUp);
  }

  lemma UpsertReachesCount(s: Store)
    requires s.sweep.RangeChosen?
    ensures Runs(s, [RollUp]) && Sweeps(s, [RollUp], StartOfHour(s.sweep.now)) == 1
  {
    StepLeads(s, RollUp);
    assert Counts(s, RollUp, StartOfHour(s.sweep.now));
  }

  /** Every row it writes is new. */
  lemma UpsertAddsRows(s: Store)
    requires Inv(s) && s.sweep.RangeChosen?
    ensures |Apply(s, RollUp).rollups|
        == |s.rollups| + |Counted(s.events, s.sweep.from, RangeEnd(s.sweep.now, s.sweep.from))|
  {
    var counted := Counted(s.events, s.sweep.from, RangeEnd(s.sweep.now, s.sweep.from));
    forall b <- counted ensures b !in s.rollups { NoRecountAfterLoss(s, b); }
    DisjointSize((s.rollups + counted).Keys, s.rollups.Keys, counted.Keys);
  }

  class Database {
    var events: Table
    var rollups: Rollups
    var clock: int
    /** Every row ever inserted; the service never reads it. */
    var history: Table
    ghost var sweep: Sweep

    ghost function View(): Store
      reads this
    {
      Store(history, events, rollups, clock, sweep)
    }

    constructor (now: nat)
      ensures View() == Empty(now)
    {
      events, rollups, clock, history, sweep := map[], map[], now, map[], Idle;
    }

    /** What an `await` lets through: time passes and any number of events are ingested. */
    method Await() returns (ghost traffic: seq<Step>)
      requires Inv(View())
      modifies this`events, this`clock, this`history
      ensures IsTraffic(traffic) && Leads(old(View()), traffic, View()) && Inv(View())
      ensures old(clock) <= clock && Pruned(View()) == Pruned(old(View()))
      ensures forall id <- events :: id in old(events) || old(clock) <= events[id].at
    {
      traffic := Ingest();
      CountsAreFinal(old(View()), traffic);
      TrafficOnlyAdds(old(View()), traffic);
    }

    method Ingest() returns (ghost traffic: seq<Step>)
      modifies this`events, this`clock, this`history
      ensures IsTraffic(traffic) && Leads(old(View()), traffic, View())
    {
      traffic := [];
      var n: nat :| true;
      for i := 0 to n
        invariant IsTraffic(traffic) && Leads(old(View()), traffic, View())
      {
        ghost var before := View();
        ghost var step;
        var id: nat, ms: nat, agent: string, kind: EventType := *, *, *, *;
        if id in history {
          clock := clock + ms;
          step := Wait(ms);
        } else {
          var e := Event(agent, kind, clock);
          history, events := history[id := e], events[id := e];
          step := Insert(id, agent, kind);
        }
        assert Enabled(before, step) && View() == Apply(before, step);
        StepLeads(before, step);
        LeadsOn(old(View()), traffic, before, [step], View());
        traffic := traffic + [step];
      }
    }

    ghost method BeginSweep() returns (steps: seq<Step>)
      requires Inv(View()) && sweep.Idle?
      modifies this`sweep
      ensures Leads(old(View()), steps, View()) && Inv(View()) && sweep == Started(clock)
      ensures CanAdvance(View(), clock) <==> CanAdvance(old(View()), clock)
    {
      StepKeepsInv(View(), Begin);
      StepKeepsReach(View(), Begin, clock);
      sweep := Started(clock);
      steps := [Begin];
    }

    ghost method EndSweep() returns (steps: seq<Step>)
      requires Inv(View())
      modifies this`sweep
      ensures Leads(old(View()), steps, View()) && Inv(View()) && sweep.Idle?
    {
      StepKeepsInv(View(), Stop);
      sweep := Idle;
      steps := [Stop];
    }

    /** `SELECT MAX("hour")`. */
    method SelectMaxHour() returns (hour: Option<int>, ghost steps: seq<Step>)
      requires Inv(View()) && sweep.Started?
      modifies this
      ensures Leads(old(View()), steps, View()) && Inv(View())
      ensures hour == Watermark(old(rollups)) && rollups == old(rollups) && Pruned(View()) == Pruned(old(View()))
      ensures sweep == WatermarkRead(old(sweep).now, NextHour(rollups))
      ensures CanAdvance(View(), sweep.now) <==> CanAdvance(old(View()), sweep.now)
    {
      hour := Watermark(rollups);
      sweep := WatermarkRead(sweep.now, NextHour(rollups));
      ghost var read := View();
      StepKeepsInv(old(View()), ReadWatermark);
      StepKeepsReach(old(View()), ReadWatermark, sweep.now);
      assert Leads(old(View()), [ReadWatermark], read);
      ghost var traffic := Await();
      TrafficKeepsReach(read, traffic, sweep.now);
      LeadsOn(old(View()), [ReadWatermark], read, traffic, View());
      steps := [ReadWatermark] + traffic;
    }

    /** Commits the running sweep to the range it has computed from what it read. */
    ghost method ChooseRange() returns (steps: seq<Step>)
      requires Inv(View()) && SweepKnows(View()) && sweep.WatermarkRead?
      modifies this`sweep
      ensures steps == [Step.ChooseRange] && Leads(old(View()), steps, View()) && Inv(View()) && SweepKnows(View())
      ensures sweep == Range(old(View()), old(sweep).now, old(sweep).resume)
      ensures CanAdvance(View(), old(sweep).now) <==> CanAdvance(old(View()), old(sweep).now)
      ensures sweep.Pruning? ==> !CanAdvance(old(View()), old(sweep).now)
      ensures sweep.Pruning? ==> Sweeps(old(View()), steps, StartOfHour(old(sweep).now)) == 1
    {
      StepKeepsInv(View(), Step.ChooseRange);
      StepKeepsKnowledge(View(), Step.ChooseRange);
      StepKeepsReach(View(), Step.ChooseRange, sweep.now);
      if Apply(View(), Step.ChooseRange).sweep.Pruning? { ChooseRangeStopsOnlyIf(View()); }
      sweep := Range(View(), sweep.now, sweep.resume);
      steps := [Step.ChooseRange];
    }

    /** Reads the watermark and settles what there is to count. */
    method PlanRange() returns (hour: Option<int>, ghost steps: seq<Step>)
      requires Inv(View()) && sweep.Started?
      modifies this
      ensures Leads(old(View()), steps, View()) && Inv(View()) && SweepKnows(View())
      ensures hour == Watermark(rollups) && rollups == old(rollups) && Pruned(View()) == Pruned(old(View()))
      ensures sweep == Range(View(), old(sweep).now, NextHour(rollups))
      ensures CanAdvance(View(), old(sweep).now) <==> CanAdvance(old(View()), old(sweep).now)
      ensures sweep.Pruning? ==> !CanAdvance(View(), old(sweep).now)
      ensures sweep.Pruning? ==> Sweeps(old(View()), steps, StartOfHour(old(sweep).now)) >= 1
    {
      ghost var bound := StartOfHour(sweep.now);
      ghost var read;
      hour, read := SelectMaxHour();
      ghost var asked := View();
      ghost var choose := ChooseRange();
      SweepsAdd(old(View()), read, asked, choose, View(), bound);
      steps := read + choose;
    }

    /** `INSERT ... SELECT ... GROUP BY ... ON CONFLICT DO UPDATE`. */
    method InsertCounts(from: int, to: int) returns (buckets: nat, ghost steps: seq<Step>)
      requires Inv(View()) && SweepKnows(View())
      requires sweep.RangeChosen? && from == sweep.from && to == RangeEnd(sweep.now, from)
      modifies this
      ensures Leads(old(View()), steps, View()) && Inv(View())
      ensures sweep == Pruning(old(sweep).now, to) && Pruned(View()) == Pruned(old(View()))
      ensures buckets == |rollups| - |old(rollups)|
      ensures rollups != old(rollups) <==> CanAdvance(old(View()), old(sweep).now)
      ensures Sweeps(old(View()), steps, StartOfHour(old(sweep).now)) >= 1
    {
      ghost var now := sweep.now;
      ghost var traffic := Await();
      ghost var ready := View();
      TrafficKeepsReach(old(View()), traffic, now);
      ghost var roll;
      buckets, roll := Upsert(from, to);
      SweepsAdd(old(View()), traffic, ready, roll, View(), StartOfHour(now));
      steps := traffic + roll;
    }

    /** The statement itself: only new rows, one for each bucket of the range with an event in it. */
    method Upsert(from: int, to: int) returns (buckets: nat, ghost steps: seq<Step>)
      requires Inv(View()) && SweepKnows(View())
      requires sweep.RangeChosen? && from == sweep.from && to == RangeEnd(sweep.now, from)
      modifies this`rollups, this`sweep
      ensures steps == [RollUp] && Leads(old(View()), steps, View()) && Inv(View())
      ensures sweep == Pruning(old(sweep).now, to) && buckets == |rollups| - |old(rollups)|
      ensures rollups != old(rollups) <==> CanAdvance(old(View()), old(sweep).now)
      ensures Sweeps(old(View()), steps, StartOfHour(old(sweep).now)) == 1
    {
      UpsertIsStep(View());
      UpsertReachesCount(View());
      UpsertAddsRows(View());
      var counted := Counted(events, from, to);
      rollups := rollups + counted;
      buckets := |counted|;
      sweep := Pruning(sweep.now, to);
      steps := [RollUp];
    }

    /** `DELETE ... WHERE "createdAt" < cutoff LIMIT limit`: any rows that match, as many as the limit allows. */
    method DeleteBefore(cutoff: int, limit: nat) returns (count: nat, ghost ids: set<nat>)
      modifies this`events
      ensures ids <= Rows(old(events), Before(cutoff)) && events == old(events) - ids
      ensures count == |ids| <= limit
      ensures count < limit ==> Rows(events, Before(cutoff)) == {}
    {
      var gone := TakeUpTo(Rows(events, Before(cutoff)), limit);
      ids, count := gone, |gone|;
      events := events - gone;
    }

    /** One batch of the running sweep's prune. */
    method DeleteEvents(cutoff: int, limit: nat, ghost days: nat) returns (count: nat, ghost steps: seq<Step>)
      requires Inv(View()) && sweep.Pruning? && days > 0 && cutoff == Cutoff(sweep.now, days, sweep.through)
      modifies this`events
      ensures Leads(old(View()), steps, View()) && Inv(View())
      ensures |Pruned(View())| == |Pruned(old(View()))| + count && count <= limit
      ensures count < limit ==> Rows(events, Before(cutoff)) == {}
      ensures KeepsFrom(old(View()), cutoff, View())
    {
      ghost var before, ids := View(), {};
      count, ids := DeleteBefore(cutoff, limit);
      steps := [PruneBatch(days, ids)];
      DeleteIsStep(before, days, ids, View());
    }
  }

  datatype Result = Result(rolledUpBuckets: nat, rolledThrough: int, eventsDeleted: nat, moreRemaining: bool)

  // ---- What a prune keeps ----

  /** Every row at or after a bound is still there. */
  predicate KeepsFrom(s: Store, bound: int, t: Store) {
    forall id <- s.events :: bound <= s.events[id].at ==> id in t.events && t.events[id] == s.events[id]
  }

  lemma KeepsOn(s: Store, bound: int, t: Store, u: Store)
    requires KeepsFrom(s, bound, t) && KeepsFrom(t, bound, u)
    ensures KeepsFrom(s, bound, u)
  {
  }

  /** A stretch of a prune: `count` rows are gone, all below the cutoff. */
  ghost predicate Deleting(s: Store, cutoff: int, steps: seq<Step>, count: nat, t: Store) {
    Leads(s, steps, t) && Inv(t) && t.rollups == s.rollups && |Pruned(t)| == |Pruned(s)| + count
    && KeepsFrom(s, cutoff, t)
  }

  lemma DeletesOn(s: Store, cutoff: int, xs: seq<Step>, m: nat, t: Store, ys: seq<Step>, n: nat, u: Store)
    requires Deleting(s, cutoff, xs, m, t) && Deleting(t, cutoff, ys, n, u)
    ensures Deleting(s, cutoff, xs + ys, m + n, u)
  {
    LeadsOn(s, xs, t, ys, u);
    KeepsOn(s, cutoff, t, u);
  }

  /** Every row inside the retention window, or not counted yet, is still there; with no window all are. */
  predicate KeepsWindow(s: Store, now: int, days: nat, through: int, t: Store) {
    forall id <- s.events ::
      days == 0 || now - days * DAY_MS <= s.events[id].at || through <= s.events[id].at ==> id in t.events
  }

  /** No row is left that is both past the window and counted. */
  predicate WindowPruned(now: int, days: nat, through: int, t: Store) {
    days > 0 ==> forall id <- t.events :: now - days * DAY_MS <= t.events[id].at || through <= t.events[id].at
  }

  lemma CutoffKeeps(s: Store, now: int, days: nat, through: int, t: Store)
    requires days > 0 && KeepsFrom(s, Cutoff(now, days, through), t)
    ensures KeepsWindow(s, now, days, through, t)
    ensures Rows(t.events, Before(Cutoff(now, days, through))) == {} ==> WindowPruned(now, days, through, t)
  {
    if Rows(t.events, Before(Cutoff(now, days, through))) == {} {
      forall id <- t.events ensures now - days * DAY_MS <= t.events[id].at || through <= t.events[id].at {
        assert id !in Rows(t.events, Before(Cutoff(now, days, through)));
      }
    }
  }

  /** Counting takes no row away. */
  lemma CountingKeeps(s: Store, steps: seq<Step>, t: Store)
    requires Inv(s) && Leads(s, steps, t) && Pruned(t) == Pruned(s)
    ensures forall id <- s.events :: id in t.events && t.events[id] == s.events[id]
  {
    CountsAreFinal(s, steps);
    forall id <- s.events ensures id in t.events && t.events[id] == s.events[id] { assert id !in Pruned(s); }
  }

  lemma TrafficKeepsWindow(s: Store, now: int, days: nat, through: int, t: Store, ys: seq<Step>, u: Store)
    requires KeepsWindow(s, now, days, through, t) && Leads(t, ys, u) && IsTraffic(ys) && Surviving(t)
    ensures KeepsWindow(s, now, days, through, u)
  {
    TrafficOnlyAdds(t, ys);
  }

  lemma KeepsOfBoth(s: Store, t: Store, now: int, days: nat, through: int, u: Store)
    requires forall id <- s.events :: id in t.events && t.events[id] == s.events[id]
    requires KeepsWindow(t, now, days, through, u) && through <= StartOfHour(now)
    ensures KeepsWindow(s, now, days, through, u) && KeepsWindow(s, now, days, StartOfHour(now), u)
  {
  }

  lemma TrafficKeepsAll(s: Store, steps: seq<Step>, bound: int, t: Store)
    requires IsTraffic(steps) && Leads(s, steps, t) && Surviving(s)
    ensures KeepsFrom(s, bound, t)
  {
    TrafficOnlyAdds(s, steps);
  }

  /**
   What a sweep that got through has done. `most` is as many events as its batches may take, and `others` whether the
   prune of another table was capped.
   */
  ghost predicate HasRun(eventDays: nat, most: nat, others: bool, s: Store, now: int, result: Result, steps: seq<Step>,
                         t: Store)
  {
    && result.rolledUpBuckets == |t.rollups| - |s.rollups| && result.rolledThrough <= StartOfHour(now)
    && |Pruned(t)| == |Pruned(s)| + result.eventsDeleted
    && (!result.moreRemaining ==> result.rolledThrough == StartOfHour(now))
    && KeepsWindow(s, now, eventDays, result.rolledThrough, t)
    && (!result.moreRemaining ==> WindowPruned(now, eventDays, result.rolledThrough, t))
    && (result.moreRemaining ==> result.rolledThrough < StartOfHour(now) || result.eventsDeleted == most || others)
    && (t.rollups != s.rollups <==> CanAdvance(s, now))
    && Runs(s, steps) && Sweeps(s, steps, StartOfHour(now)) >= 1
  }

  /** What comes after the events' part of a sweep takes nothing back. */
  lemma OthersKeepRun(days: nat, most: nat, s: Store, now: int, result: Result, xs: seq<Step>, t: Store, ys: seq<Step>,
                      u: Store, more: bool)
    requires Leads(s, xs, t) && HasRun(days, most, false, s, now, result, xs, t) && now <= t.clock
    requires Leads(t, ys, u) && IsTraffic(ys) && Surviving(t)
    ensures HasRun(days, most, more, s, now, result.(moreRemaining := result.moreRemaining || more), xs + ys, u)
  {
    SweepsAdd(s, xs, t, ys, u, StartOfHour(now));
    TrafficOnlyAdds(t, ys);
  }

  /** The statements that start and end a sweep change no table. */
  lemma FramedRun(s: Store, xs: seq<Step>, t: Store, ys: seq<Step>, u: Store, zs: seq<Step>, v: Store, bound: int)
    requires Leads(s, xs, t) && Leads(t, ys, u) && Leads(u, zs, v)
    ensures Leads(s, xs + ys + zs, v) && Sweeps(s, xs + ys + zs, bound) >= Sweeps(t, ys, bound)
  {
    SweepsAdd(s, xs, t, ys, u, bound);
    SweepsAdd(s, xs + ys, u, zs, v, bound);
  }

  lemma FrameKeepsRun(days: nat, most: nat, others: bool, s: Store, now: int, result: Result, xs: seq<Step>, t: Store,
                      ys: seq<Step>, u: Store, zs: seq<Step>, v: Store)
    requires HasRun(days, most, others, t, now, result, ys, u) && t == s.(sweep := t.sweep) && v == u.(sweep := v.sweep)
    requires CanAdvance(t, now) <==> CanAdvance(s, now)
    requires Leads(s, xs, t) && Leads(t, ys, u) && Leads(u, zs, v)
    ensures HasRun(days, most, others, s, now, result, xs + ys + zs, v)
  {
    FramedRun(s, xs, t, ys, u, zs, v, StartOfHour(now));
  }

  class Service {
    const db: Database
    const eventDays: nat
    const batchSize: nat
    const maxBatches: nat
    var sweeping: bool

    constructor (db: Database, eventDays: nat, batchSize: nat, maxBatches: nat)
      ensures this.db == db && this.eventDays == eventDays && this.batchSize == batchSize
          && this.maxBatches == maxBatches
      ensures !sweeping
    {
      this.db, this.eventDays, this.batchSize, this.maxBatches, sweeping := db, eventDays, batchSize, maxBatches, false;
    }

    /**
     Counts the next stretch of complete hours and says how far raw events are now counted. A statement that fails ends
     it with nothing counted.
     */
    method RollUpEvents(now: int)
      returns (failed: bool, buckets: nat, rolledThrough: int, caughtUp: bool, ghost steps: seq<Step>)
      requires Inv(db.View()) && db.sweep == Started(now)
      modifies db
      ensures Leads(old(db.View()), steps, db.View()) && Inv(db.View()) && Pruned(db.View()) == Pruned(old(db.View()))
      ensures failed ==> db.rollups == old(db.rollups)
      ensures !failed ==>
          && db.sweep == Pruning(now, rolledThrough) && buckets == |db.rollups| - |old(db.rollups)|
          && rolledThrough <= StartOfHour(now) && (caughtUp <==> rolledThrough == StartOfHour(now))
          && (db.rollups != old(db.rollups) <==> CanAdvance(old(db.View()), now))
          && Sweeps(old(db.View()), steps, StartOfHour(now)) >= 1
    {
      var currentHour := StartOfHour(now);
      failed, buckets, rolledThrough, caughtUp, steps := *, 0, currentHour, true, [];
      if failed { return; }
      var watermark, plan := db.PlanRange();
      var from := if watermark.Some? then Some(watermark.value + HOUR_MS) else None;
      steps := plan;

      if from.None? {
        // No event has ever been recorded, so there is nothing to fall behind on.
        if db.events == map[] { return; }
        from := Some(StartOfHour(Oldest(db.events)));
      }
      if from.value >= currentHour { return; }

      var to := if from.value + MAX_ROLLUP_MS < currentHour then from.value + MAX_ROLLUP_MS else currentHour;
      failed := *;
      if failed { return; }
      ghost var chosen, rolled := db.View(), [];
      buckets, rolled := db.InsertCounts(from.value, to);
      SweepsAdd(old(db.View()), steps, chosen, rolled, db.View(), currentHour);
      steps := steps + rolled;
      rolledThrough, caughtUp := to, to == currentHour;
    }

    /**
     Removes raw rows below the earlier of the two bounds, the window's and the count's; a zero window removes nothing.
     */
    method PruneEvents(now: int, rolledThrough: int)
      returns (failed: bool, deleted: nat, capped: bool, ghost steps: seq<Step>)
      requires Inv(db.View()) && db.sweep == Pruning(now, rolledThrough)
      modifies db
      ensures Leads(old(db.View()), steps, db.View()) && Inv(db.View()) && db.sweep == old(db.sweep)
      ensures db.rollups == old(db.rollups)
      ensures |Pruned(db.View())| == |Pruned(old(db.View()))| + deleted
      ensures eventDays == 0 ==> deleted == 0 && !capped && !failed
      ensures KeepsWindow(old(db.View()), now, eventDays, rolledThrough, db.View())
      ensures !failed && !capped ==> WindowPruned(now, eventDays, rolledThrough, db.View())
      ensures capped ==> eventDays > 0 && deleted == maxBatches * batchSize
    {
      if eventDays <= 0 { return false, 0, false, []; }
      var aged := now - eventDays * DAY_MS;
      var cutoff := if aged < rolledThrough then aged else rolledThrough;
      failed, deleted, capped, steps := DeleteInBatches(cutoff);
      CutoffKeeps(old(db.View()), now, eventDays, rolledThrough, db.View());
    }

    /**
     A batch at a time: a short one means no matching row is left, and after the last allowed one it gives up for now.
     A batch that fails ends it; what earlier ones removed stays removed.
     */
    method DeleteInBatches(cutoff: int) returns (failed: bool, deleted: nat, capped: bool, ghost steps: seq<Step>)
      requires Inv(db.View()) && db.sweep.Pruning? && eventDays > 0
      requires cutoff == Cutoff(db.sweep.now, eventDays, db.sweep.through)
      modifies db
      ensures Deleting(old(db.View()), cutoff, steps, deleted, db.View()) && db.sweep == old(db.sweep)
      ensures !failed && !capped ==> Rows(db.events, Before(cutoff)) == {}
      ensures capped ==> deleted == maxBatches * batchSize
    {
      failed, deleted, capped, steps := false, 0, false, [];
      ghost var start := db.View();
      for batch := 0 to maxBatches
        invariant Deleting(start, cutoff, steps, deleted, db.View()) && db.sweep == start.sweep
        invariant deleted == batch * batchSize
      {
        failed := *;
        if failed { return; }
        ghost var before := db.View();
        var count, round := DeleteRound(cutoff);
        DeletesOn(start, cutoff, steps, deleted, before, round, count, db.View());
        steps, deleted := steps + round, deleted + count;
        if count < batchSize { return; }
        assert deleted == (batch + 1) * batchSize;
      }
      capped := true;
    }

    /** One batch, and after a full one the pause that lets ingestion in. */
    method DeleteRound(cutoff: int) returns (count: nat, ghost steps: seq<Step>)
      requires Inv(db.View()) && db.sweep.Pruning? && eventDays > 0
      requires cutoff == Cutoff(db.sweep.now, eventDays, db.sweep.through)
      modifies db
      ensures Deleting(old(db.View()), cutoff, steps, count, db.View()) && db.sweep == old(db.sweep)
      ensures count <= batchSize
      ensures count < batchSize ==> Rows(db.events, Before(cutoff)) == {}
    {
      count, steps := db.DeleteEvents(cutoff, batchSize, eventDays);
      if count == batchSize {
        ghost var mid := db.View();
        ghost var traffic := db.Await();
        TrafficKeepsAll(mid, traffic, cutoff, db.View());
        KeepsOn(old(db.View()), cutoff, mid, db.View());
        LeadsOn(old(db.View()), steps, mid, traffic, db.View());
        steps := steps + traffic;
      }
    }

    /** The prunes of the other tables and the reaping: ingestion goes on, and a batch may fail or be capped. */
    method PruneOthers() returns (failed: bool, capped: bool, ghost steps: seq<Step>)
      requires Inv(db.View())
      modifies db
      ensures IsTraffic(steps) && Leads(old(db.View()), steps, db.View()) && Inv(db.View())
      ensures db.rollups == old(db.rollups)
    {
      steps := db.Await();
      TrafficOnlyAdds(old(db.View()), steps);
      failed, capped := *, *;
    }

    /** The sweep body. Whatever it does, and wherever it fails, is a run of the retention machine. */
    method Run(now: int) returns (result: Option<Result>, ghost others: bool, ghost steps: seq<Step>)
      requires Inv(db.View()) && db.sweep == Started(now)
      modifies db
      ensures Leads(old(db.View()), steps, db.View()) && Inv(db.View())
      ensures db.rollups != old(db.rollups) ==> CanAdvance(old(db.View()), now)
      ensures KeepsWindow(old(db.View()), now, eventDays, StartOfHour(now), db.View())
      ensures result.Some? ==>
          HasRun(eventDays, maxBatches * batchSize, others, old(db.View()), now, result.value, steps, db.View())
    {
      others := false;
      result, steps := CountAndPrune(now);
      if result.None? { return; }
      ghost var pruned := db.View();
      var broken, more, rest := PruneOthers();
      OthersKeepRun(eventDays, maxBatches * batchSize, old(db.View()), now, result.value, steps, pruned, rest,
          db.View(), more);
      TrafficKeepsWindow(old(db.View()), now, eventDays, StartOfHour(now), pruned, rest, db.View());
      LeadsOn(old(db.View()), steps, pruned, rest, db.View());
      steps, others := steps + rest, more;
      result := if broken then None else Some(result.value.(moreRemaining := result.value.moreRemaining || more));
    }

    /** The part of it that concerns events. */
    method CountAndPrune(now: int) returns (result: Option<Result>, ghost steps: seq<Step>)
      requires Inv(db.View()) && db.sweep == Started(now)
      modifies db
      ensures Leads(old(db.View()), steps, db.View()) && Inv(db.View())
      ensures db.rollups != old(db.rollups) ==> CanAdvance(old(db.View()), now)
      ensures KeepsWindow(old(db.View()), now, eventDays, StartOfHour(now), db.View())
      ensures result.Some? ==>
          HasRun(eventDays, maxBatches * batchSize, false, old(db.View()), now, result.value, steps, db.View())
      ensures result.Some? ==> now <= db.clock
    {
      result := None;
      var failed, buckets, rolledThrough, caughtUp, rolling := RollUpEvents(now);
      steps := rolling;
      CountingKeeps(old(db.View()), steps, db.View());
      if failed { return; }
      ghost var rolled := db.View();
      var stopped, deleted, capped, pruning := PruneEvents(now, rolledThrough);
      SweepsAdd(old(db.View()), rolling, rolled, pruning, db.View(), StartOfHour(now));
      KeepsOfBoth(old(db.View()), rolled, now, eventDays, rolledThrough, db.View());
      steps := rolling + pruning;
      if !stopped { result := Some(Result(buckets, rolledThrough, deleted, !caughtUp || capped)); }
    }

    /**
     One scheduled tick. While another sweep is running it does nothing. Otherwise it frees the flag however it ends;
     and if it gets through it advances the watermark exactly when a busy complete hour is within reach at its start,
     and is one sweep that reaches its count. No row inside the retention window is ever deleted.
     */
    method Sweep() returns (result: Option<Result>, ghost others: bool, ghost steps: seq<Step>)
      requires Inv(db.View()) && (!sweeping ==> db.sweep.Idle?)
      modifies this, db
      ensures old(sweeping) ==> result.None? && db.View() == old(db.View()) && sweeping
      ensures !old(sweeping) ==> !sweeping && db.sweep.Idle?
      ensures Leads(old(db.View()), steps, db.View()) && Inv(db.View())
      ensures db.rollups != old(db.rollups) ==> CanAdvance(old(db.View()), old(db.clock))
      ensures KeepsWindow(old(db.View()), old(db.clock), eventDays, StartOfHour(old(db.clock)), db.View())
      ensures result.Some? ==> HasRun(eventDays, maxBatches * batchSize, others, old(db.View()), old(db.clock),
          result.value, steps, db.View())
    {
      others := false;
      if sweeping { return None, false, []; }
      sweeping := true;
      var now := db.clock;
      ghost var begin := db.BeginSweep();
      ghost var started := db.View();
      ghost var run;
      result, others, run := Run(now);
      ghost var finished := db.View();
      ghost var end := db.EndSweep();
      FramedRun(old(db.View()), begin, started, run, finished, end, db.View(), StartOfHour(now));
      if result.Some? {
        FrameKeepsRun(eventDays, maxBatches * batchSize, others, old(db.View()), now, result.value, begin, started, run,
            finished, end, db.View());
      }
      steps := begin + run + end;
      sweeping := false;
    }
  }
}
