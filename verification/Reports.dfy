/**
 Reports answer from rollups below the watermark and raw rows above it. Whatever has been rolled
 up or pruned, the two sources together count the full history.
 */
module Reports {
  import opened Timeline
  import opened Counting
  import opened EventLog
  import opened EventLogProofs

  /** A `GROUP BY` expression, as evaluated on raw rows and on rollup rows. */
  datatype Grouping<!K> = Grouping(ofEvent: Event -> K, ofBucket: Bucket -> K)

  /** Where a report switches from rollups to raw rows: after the newest counted hour, or the epoch if there is none. */
  function Boundary(rollups: Rollups): int {
    match NextHour(rollups) case None => 0 case Some(h) => h
  }

  function Greatest(a: int, b: int): int { if a < b then b else a }

  /** `WHERE "hour" >= since AND "hour" < boundary`, for one group. */
  function RolledRows<K(==)>(rollups: Rollups, since: int, boundary: int, g: Grouping<K>, k: K): set<Bucket> {
    set b | b in rollups && since <= b.hour < boundary && g.ofBucket(b) == k
  }

  /** `WHERE "createdAt" >= from`, for one group. */
  function RowsFrom<K(==)>(table: Table, from: int, g: Grouping<K>, k: K): set<nat> {
    set id | id in table && from <= table[id].at && g.ofEvent(table[id]) == k
  }

  /** The keys of `GROUP BY` over both sources. */
  function Keys<K(!new)>(rollups: Rollups, events: Table, since: int, boundary: int, g: Grouping<K>): (ks: set<K>)
    ensures forall k :: k in ks <==> RolledRows(rollups, since, boundary, g, k) != {}
                                     || RowsFrom(events, Greatest(since, boundary), g, k) != {}
  {
    var rolled := set b | b in rollups && since <= b.hour < boundary;
    var raw := set id | id in events && Greatest(since, boundary) <= events[id].at;
    var ks := (set b | b in rolled :: g.ofBucket(b)) + (set id | id in raw :: g.ofEvent(events[id]));
    assert forall b <- rolled :: b in RolledRows(rollups, since, boundary, g, g.ofBucket(b));
    assert forall id <- raw :: id in RowsFrom(events, Greatest(since, boundary), g, g.ofEvent(events[id]));
    ks
  }

  /** `SUM` over the rolled rows of a group, plus `COUNT` of its raw rows. */
  ghost function GroupCount<K(!new)>(rollups: Rollups, events: Table, since: int, boundary: int, g: Grouping<K>,
      k: K): nat {
    SumOver(rollups, RolledRows(rollups, since, boundary, g, k)) + |RowsFrom(events, Greatest(since, boundary), g, k)|
  }

  /** `SELECT key, SUM(count) FROM (rolled UNION ALL raw) GROUP BY key`. */
  ghost function Report<K(!new)>(s: Store, since: int, g: Grouping<K>): map<K, nat> {
    map k | k in Keys(s.rollups, s.events, since, Boundary(s.rollups), g)
      :: GroupCount(s.rollups, s.events, since, Boundary(s.rollups), g, k)
  }

  function At<K>(m: map<K, nat>, k: K): nat { if k in m then m[k] else 0 }

  /** The instant a report really starts at: a partial first hour below the boundary is skipped. */
  function EffectiveStart(since: int, boundary: int): int {
    if since >= boundary then since else CeilHour(since)
  }

  /** Grouping a rollup row agrees with grouping each event it stands for. */
  ghost predicate Consistent<K(!new)>(g: Grouping<K>) {
    forall e: Event :: g.ofBucket(BucketOf(e)) == g.ofEvent(e)
  }

  const ByAgent: Grouping<string> := Grouping((e: Event) => e.agent, (b: Bucket) => b.agent)
  const ByType: Grouping<EventType> := Grouping((e: Event) => e.kind, (b: Bucket) => b.kind)

  // ---- Exactness ----

  /** What the boundary means to a statement that uses it: the rollup rows below it count all of history. */
  ghost predicate Counts(s: Store, boundary: int) {
    Aligned(boundary) && CountedBelow(s, boundary) && RowsAreFinal(s) && Surviving(s)
  }

  /** All of history but what was pruned at or above a boundary. */
  function Seen(s: Store, boundary: int): Table {
    map id | id in s.history && (s.history[id].at < boundary || id in s.events) :: s.history[id]
  }

  /** In the state the boundary is read in nothing at or above it has been pruned. */
  lemma BoundarySplits(s: Store)
    requires Inv(s)
    ensures Counts(s, Boundary(s.rollups)) && RowsBelow(s.rollups, Boundary(s.rollups))
    ensures Boundary(s.rollups) <= s.clock && Seen(s, Boundary(s.rollups)) == s.history
  {
    var boundary := Boundary(s.rollups);
    if s.rollups != map[] {
      WatermarkIsNewest(s);
      CountedToWatermark(s);
    }
    forall id <- s.history | boundary <= s.history[id].at ensures id in s.events {
      var b := BucketOf(s.history[id]);
      HourBelow(s.history[id].at, boundary);
    }
  }

  /** The same events happened before the boundary. */
  predicate SameBelow(s: Store, t: Store, boundary: int) {
    && (forall id <- s.history :: id in t.history && t.history[id] == s.history[id])
    && (forall id <- t.history :: t.history[id].at < boundary ==> id in s.history)
  }

  /** Whatever is ingested, rolled up and pruned meanwhile, a boundary read earlier keeps its meaning. */
  lemma {:induction false} BoundaryKeepsMeaning(s: Store, steps: seq<Step>, boundary: int)
    requires Inv(s) && Counts(s, boundary) && boundary <= s.clock && Runs(s, steps)
    ensures Inv(Exec(s, steps)) && Counts(Exec(s, steps), boundary) && SameBelow(s, Exec(s, steps), boundary)
    decreases |steps|
  {
    if steps != [] {
      StepKeepsInv(s, steps[0]);
      BoundaryKeepsMeaning(Apply(s, steps[0]), steps[1..], boundary);
    }
  }

  /** The rolled rows of a group stand for exactly its events of whole hours in [since, boundary). */
  lemma RolledRowsCover<K(!new)>(s: Store, since: int, boundary: int, g: Grouping<K>, k: K, id: nat)
    requires Counts(s, boundary) && Consistent(g) && id in s.history
    ensures BucketOf(s.history[id]) in RolledRows(s.rollups, since, boundary, g, k)
       <==> id in RowsFrom(s.history, CeilHour(since), g, k) && s.history[id].at < boundary
  {
    HourAtLeast(s.history[id].at, since);
    HourBelow(s.history[id].at, boundary);
  }

  /** The events of whole hours in [since, boundary). */
  function RolledEvents<K(==)>(s: Store, since: int, boundary: int, g: Grouping<K>, k: K): set<nat> {
    set id | id in RowsFrom(s.history, CeilHour(since), g, k) && s.history[id].at < boundary
  }

  function BucketColumn(history: Table): map<nat, Bucket> { map id | id in history :: BucketOf(history[id]) }

  lemma RowCount(s: Store, b: Bucket)
    requires FinalRow(s, b)
    ensures s.rollups[b] == |WithKey(BucketColumn(s.history), b)|
  {
    assert WithKey(BucketColumn(s.history), b) == Rows(s.history, InBucket(b));
  }

  lemma RolledPart<K(!new)>(s: Store, since: int, boundary: int, g: Grouping<K>, k: K)
    requires Counts(s, boundary) && Consistent(g)
    ensures SumOver(s.rollups, RolledRows(s.rollups, since, boundary, g, k)) == |RolledEvents(s, since, boundary, g, k)|
  {
    var keys, rows := RolledRows(s.rollups, since, boundary, g, k), BucketColumn(s.history);
    forall b <- keys ensures s.rollups[b] == |WithKey(rows, b)| {
      assert FinalRow(s, b);
      RowCount(s, b);
    }
    SumOfPartition(s.rollups, keys, rows);
    forall id <- s.history { RolledRowsCover(s, since, boundary, g, k, id); }
    assert WithKeyIn(rows, keys) == RolledEvents(s, since, boundary, g, k);
  }

  lemma CeilBelow(since: int, boundary: int)
    requires Aligned(boundary) && since < boundary
    ensures CeilHour(since) <= boundary
  {
    HourBelow(since, boundary);
  }

  /** The two sources of a group overlap nowhere and miss nothing that can still be seen, even when read apart. */
  lemma SourcesPartition<K(!new)>(s: Store, t: Store, u: Store, since: int, boundary: int, g: Grouping<K>, k: K)
    requires Aligned(boundary) && Surviving(u) && SameBelow(s, t, boundary) && SameBelow(s, u, boundary)
    ensures var rolled, raw := RolledEvents(t, since, boundary, g, k),
        RowsFrom(u.events, Greatest(since, boundary), g, k);
            rolled !! raw && RowsFrom(Seen(u, boundary), EffectiveStart(since, boundary), g, k) == rolled + raw
  {
    if since < boundary { CeilBelow(since, boundary); }
    forall id ensures id in RolledEvents(t, since, boundary, g, k) <==> id in RolledEvents(u, since, boundary, g, k) {
      if id in RolledEvents(t, since, boundary, g, k) { assert id in s.history; }
      if id in RolledEvents(u, since, boundary, g, k) { assert id in s.history; }
    }
  }

  /**
   A report over time: the boundary is read in one state, and each source in a state of its own later on, while
   ingestion, sweeps and prunes go on. A group counts exactly what can still be seen from the effective start on.
   */
  lemma LateCountIs<K(!new)>(s: Store, xs: seq<Step>, ys: seq<Step>, since: int, g: Grouping<K>, k: K)
    requires Inv(s) && Runs(s, xs) && Runs(s, ys) && Consistent(g)
    ensures var b, t, u := Boundary(s.rollups), Exec(s, xs), Exec(s, ys);
            SumOver(t.rollups, RolledRows(t.rollups, since, b, g, k)) + |RowsFrom(u.events, Greatest(since, b), g, k)|
            == |RowsFrom(Seen(u, b), EffectiveStart(since, b), g, k)|
  {
    var boundary := Boundary(s.rollups);
    BoundarySplits(s);
    BoundaryKeepsMeaning(s, xs, boundary);
    BoundaryKeepsMeaning(s, ys, boundary);
    RolledPart(Exec(s, xs), since, boundary, g, k);
    SourcesPartition(s, Exec(s, xs), Exec(s, ys), since, boundary, g, k);
  }

  /** A row of this group from `from` on that was pruned at or above the boundary. */
  function Missing<K(==)>(s: Store, boundary: int, from: int, g: Grouping<K>, k: K): set<nat> {
    set id | id in RowsFrom(s.history, from, g, k) && boundary <= s.history[id].at && id !in s.events
  }

  /**
   So it is exact, for the events there are when the raw rows are read, if and only if none of them has been counted
   and pruned since the boundary was read.
   */
  lemma LateReportIsExactIff<K(!new)>(s: Store, xs: seq<Step>, ys: seq<Step>, since: int, g: Grouping<K>, k: K)
    requires Inv(s) && Runs(s, xs) && Runs(s, ys) && Consistent(g)
    ensures var b, t, u := Boundary(s.rollups), Exec(s, xs), Exec(s, ys);
            var from := EffectiveStart(since, b);
            && (SumOver(t.rollups, RolledRows(t.rollups, since, b, g, k))
                + |RowsFrom(u.events, Greatest(since, b), g, k)|
                == |RowsFrom(u.history, from, g, k)|
                <==> Missing(u, b, from, g, k) == {})
            && forall id <- Missing(u, b, from, g, k) ::
                 BucketOf(u.history[id]) in u.rollups && BucketOf(u.history[id]) !in s.rollups
  {
    var b, u := Boundary(s.rollups), Exec(s, ys);
    var from := EffectiveStart(since, b);
    LateCountIs(s, xs, ys, since, g, k);
    BoundarySplits(s);
    BoundaryKeepsMeaning(s, ys, b);
    SeenAndMissing(u, b, from, g, k);
    forall id <- Missing(u, b, from, g, k)
      ensures BucketOf(u.history[id]) in u.rollups && BucketOf(u.history[id]) !in s.rollups
    {
      HourBelow(u.history[id].at, b);
    }
  }

  lemma SeenAndMissing<K(!new)>(s: Store, boundary: int, from: int, g: Grouping<K>, k: K)
    ensures |RowsFrom(s.history, from, g, k)|
         == |RowsFrom(Seen(s, boundary), from, g, k)| + |Missing(s, boundary, from, g, k)|
  {
    var seen, missing := RowsFrom(Seen(s, boundary), from, g, k), Missing(s, boundary, from, g, k);
    DisjointSize(RowsFrom(s.history, from, g, k), seen, missing);
  }

  lemma GroupCountIsExact<K(!new)>(s: Store, since: int, g: Grouping<K>, k: K)
    requires Inv(s) && Consistent(g)
    ensures GroupCount(s.rollups, s.events, since, Boundary(s.rollups), g, k)
         == |RowsFrom(s.history, EffectiveStart(since, Boundary(s.rollups)), g, k)|
  {
    BoundarySplits(s);
    LateCountIs(s, [], [], since, g, k);
  }

  /** A group is listed exactly when something counts towards it. */
  lemma GroupListed<K(!new)>(s: Store, since: int, boundary: int, g: Grouping<K>, k: K)
    requires RowsAreFinal(s)
    ensures k in Keys(s.rollups, s.events, since, boundary, g)
       <==> GroupCount(s.rollups, s.events, since, boundary, g, k) > 0
  {
    var keys := RolledRows(s.rollups, since, boundary, g, k);
    if keys != {} {
      assert FinalRow(s, Pick(keys));
    }
  }

  /**
   Reports are exact: in every reachable state, each group counts every event ever inserted from
   the effective start on, whatever has been rolled up, pruned or is still raw.
   */
  lemma ReportIsExact<K(!new)>(s: Store, since: int, g: Grouping<K>, k: K)
    requires Inv(s) && Consistent(g)
    ensures var ever := RowsFrom(s.history, EffectiveStart(since, Boundary(s.rollups)), g, k);
            At(Report(s, since, g), k) == |ever| && (k in Report(s, since, g) <==> ever != {})
  {
    GroupCountIsExact(s, since, g, k);
    GroupListed(s, since, Boundary(s.rollups), g, k);
  }

  /** Per agent, over every run: ingestion, rollups, prunes and interrupted sweeps in any order. */
  lemma AgentReportIsExact(clock: nat, steps: seq<Step>, since: int, agent: string)
    requires Runs(Empty(clock), steps)
    ensures var s := Exec(Empty(clock), steps);
            At(Report(s, since, ByAgent), agent)
            == |Rows(s.history, (e: Event) => EffectiveStart(since, Boundary(s.rollups)) <= e.at && e.agent == agent)|
  {
    CountsAreFinal(Empty(clock), steps);
    var s := Exec(Empty(clock), steps);
    var from := EffectiveStart(since, Boundary(s.rollups));
    ReportIsExact(s, since, ByAgent, agent);
    assert RowsFrom(s.history, from, ByAgent, agent) == Rows(s.history, (e: Event) => from <= e.at && e.agent == agent);
  }

  /** Per event type, over every run. */
  lemma TypeReportIsExact(clock: nat, steps: seq<Step>, since: int, kind: EventType)
    requires Runs(Empty(clock), steps)
    ensures var s := Exec(Empty(clock), steps);
            At(Report(s, since, ByType), kind)
            == |Rows(s.history, (e: Event) => EffectiveStart(since, Boundary(s.rollups)) <= e.at && e.kind == kind)|
  {
    CountsAreFinal(Empty(clock), steps);
    var s := Exec(Empty(clock), steps);
    var from := EffectiveStart(since, Boundary(s.rollups));
    ReportIsExact(s, since, ByType, kind);
    assert RowsFrom(s.history, from, ByType, kind) == Rows(s.history, (e: Event) => from <= e.at && e.kind == kind);
  }

  // ---- Sweeps and reports ----

  predicate IsSweepStep(step: Step) { !step.Insert? && !step.Wait? }

  /** The events of the partial first hour, which a report loses once that hour is rolled up. */
  function PartialHour<K(==)>(s: Store, since: int, g: Grouping<K>, k: K): set<nat> {
    set id | id in RowsFrom(s.history, since, g, k) && s.history[id].at < CeilHour(since)
  }

  lemma PartialHourSize<K(!new)>(s: Store, since: int, g: Grouping<K>, k: K)
    ensures |RowsFrom(s.history, since, g, k)|
        == |PartialHour(s, since, g, k)| + |RowsFrom(s.history, CeilHour(since), g, k)|
  {
    var all, part, rest := RowsFrom(s.history, since, g, k), PartialHour(s, since, g, k),
        RowsFrom(s.history, CeilHour(since), g, k);
    assert all == part + rest;
    DisjointSize(all, part, rest);
  }

  lemma BoundaryGrows(s: Store, step: Step)
    requires Inv(s) && Enabled(s, step)
    ensures Boundary(s.rollups) <= Boundary(Apply(s, step).rollups)
  {
    var t := Apply(s, step);
    StepKeepsInv(s, step);
    if s.rollups != map[] {
      WatermarkIsNewest(s);
      WatermarkIsNewest(t);
    } else if t.rollups != map[] {
      WatermarkIsNewest(t);
      assert FinalRow(t, Pick(t.rollups.Keys));
    }
  }

  /**
   A sweep step changes a group of a report exactly when it moves the boundary past a `since` that
   lies inside an hour, and that group has events in the rest of that hour.
   */
  lemma SweepChangesReport<K(!new)>(s: Store, step: Step, since: int, g: Grouping<K>, k: K)
    requires Inv(s) && Enabled(s, step) && IsSweepStep(step) && Consistent(g)
    ensures var t := Apply(s, step);
            At(Report(s, since, g), k) != At(Report(t, since, g), k)
            <==> Boundary(s.rollups) <= since < Boundary(t.rollups) && PartialHour(s, since, g, k) != {}
  {
    var t := Apply(s, step);
    StepKeepsInv(s, step);
    BoundaryGrows(s, step);
    ReportIsExact(s, since, g, k);
    ReportIsExact(t, since, g, k);
    PartialHourSize(s, since, g, k);
  }

  /**
   A report counts exactly what happened from `since` on if and only if it skips no partial hour with something in it.
   */
  lemma ExactFromSinceIff<K(!new)>(s: Store, since: int, g: Grouping<K>, k: K)
    requires Inv(s) && Consistent(g)
    ensures At(Report(s, since, g), k) == |RowsFrom(s.history, since, g, k)|
       <==> since >= Boundary(s.rollups) || PartialHour(s, since, g, k) == {}
  {
    ReportIsExact(s, since, g, k);
    PartialHourSize(s, since, g, k);
  }

  /** Sweeps never change a report that starts on the hour. */
  lemma SweepsKeepAlignedReports<K(!new)>(s: Store, step: Step, since: int, g: Grouping<K>, k: K)
    requires Inv(s) && Enabled(s, step) && IsSweepStep(step) && Consistent(g) && Aligned(since)
    ensures At(Report(s, since, g), k) == At(Report(Apply(s, step), since, g), k)
  {
    SweepChangesReport(s, step, since, g, k);
    HourIsUnique(since + HOUR_MS - 1, since);
  }
}
