/**
 The event tables under retention: raw `Event` rows, `EventRollup` rows, and the sweep that
 turns one into the other while ingestion goes on. `history` is every row ever inserted.

 Each step is one SQL statement, so ingestion may commit between any two of them and a sweep
 may end after any of them. One sweep runs at a time.
 */
module EventLog {
  import opened Options
  import opened Timeline
  import opened Counting

  datatype EventType = MotionDetected | DoorOpened | DoorClosed | CameraMotion
  datatype Event = Event(agent: string, kind: EventType, at: int)

  /** The unique key of a rollup row. */
  datatype Bucket = Bucket(hour: int, agent: string, kind: EventType)

  type Table = map<nat, Event>
  type Rollups = map<Bucket, nat>

  /** The ceiling on how many hours one sweep counts (90 days). */
  const MAX_ROLLUP_HOURS_PER_SWEEP := 24 * 90
  const MAX_ROLLUP_MS := MAX_ROLLUP_HOURS_PER_SWEEP * HOUR_MS

  function BucketOf(e: Event): Bucket { Bucket(StartOfHour(e.at), e.agent, e.kind) }

  /** The rows a `WHERE` clause selects. */
  function Rows(table: Table, p: Event -> bool): set<nat> { set id | id in table && p(table[id]) }

  function InBucket(b: Bucket): Event -> bool { (e: Event) => BucketOf(e) == b }
  function Between(from: int, to: int): Event -> bool { (e: Event) => from <= e.at < to }
  function Before(bound: int): Event -> bool { (e: Event) => e.at < bound }

  /** `SELECT MAX("hour")`: the newest counted hour. */
  function Watermark(rollups: Rollups): Option<int> {
    if rollups == map[] then None
    else
      NonEmptyHours(rollups); Some(MaxOf(Hours(rollups)))
  }

  /** The first hour not yet counted: one past the watermark. */
  function NextHour(rollups: Rollups): Option<int> {
    match Watermark(rollups) case None => None case Some(h) => Some(h + HOUR_MS)
  }

  function Hours(rollups: Rollups): (hs: set<int>)
    ensures forall b <- rollups :: b.hour in hs
    ensures forall h <- hs :: exists b :: b in rollups && b.hour == h
  {
    set b | b in rollups :: b.hour
  }

  function Times(events: Table): (ts: set<int>)
    ensures forall id <- events :: events[id].at in ts
    ensures forall t <- ts :: exists id :: id in events && events[id].at == t
  {
    set id | id in events :: events[id].at
  }

  lemma NonEmptyTimes(events: Table)
    requires events != map[]
    ensures Times(events) != {}
  {
    assert events.Keys != {};
    assert events[Pick(events.Keys)].at in Times(events);
  }

  lemma NonEmptyHours(rollups: Rollups)
    requires rollups != map[]
    ensures Hours(rollups) != {}
  {
    assert rollups.Keys != {};
    assert Pick(rollups.Keys).hour in Hours(rollups);
  }

  /** The oldest surviving row. */
  function Oldest(events: Table): (at: int)
    requires events != map[]
    ensures exists id :: id in events && events[id].at == at
    ensures forall id <- events :: at <= events[id].at
  {
    NonEmptyTimes(events);
    MinOf(Times(events))
  }

  /** The distinct buckets of the rows in a range. */
  function BucketsIn(events: Table, from: int, to: int): (bs: set<Bucket>)
    ensures forall b :: b in bs <==> exists id :: id in Rows(events, Between(from, to)) && BucketOf(events[id]) == b
  {
    set id | id in Rows(events, Between(from, to)) :: BucketOf(events[id])
  }

  /** `INSERT ... SELECT COUNT(*) ... GROUP BY`: the rows one rollup statement writes. */
  function Counted(events: Table, from: int, to: int): Rollups {
    map b | b in BucketsIn(events, from, to)
      :: |set id | id in Rows(events, Between(from, to)) && BucketOf(events[id]) == b|
  }

  /** Where the running sweep has got to. `from` and `through` are what it holds in memory. */
  datatype Sweep =
    | Idle
    | Started(now: int)
    | WatermarkRead(now: int, resume: Option<int>)
    | RangeChosen(now: int, from: int)
    | Pruning(now: int, through: int)

  datatype Store = Store(history: Table, events: Table, rollups: Rollups, clock: int, sweep: Sweep)

  datatype Step =
    | Wait(ms: nat)
    | Insert(id: nat, agent: string, kind: EventType)
    | Begin
    | ReadWatermark
    | ChooseRange
    | RollUp
    | PruneBatch(days: nat, ids: set<nat>)
    | Stop

  /** Where the range to count starts, or the bound the sweep may prune to when there is nothing to count. */
  function Range(s: Store, now: int, resume: Option<int>): Sweep {
    var current := StartOfHour(now);
    if resume.None? && s.events == map[] then Pruning(now, current)
    else
      var from := if resume.Some? then resume.value else StartOfHour(Oldest(s.events));
      if from >= current then Pruning(now, current) else RangeChosen(now, from)
  }

  function RangeEnd(now: int, from: int): int {
    var current := StartOfHour(now);
    if from + MAX_ROLLUP_MS < current then from + MAX_ROLLUP_MS else current
  }

  function Cutoff(now: int, days: nat, through: int): int {
    var aged := now - days * DAY_MS;
    if aged < through then aged else through
  }

  predicate Enabled(s: Store, step: Step) {
    match step
    case Wait(_) => true
    case Insert(id, _, _) => id !in s.history
    case Begin => s.sweep.Idle?
    case ReadWatermark => s.sweep.Started?
    case ChooseRange => s.sweep.WatermarkRead?
    case RollUp => s.sweep.RangeChosen?
    case PruneBatch(days, ids) =>
      s.sweep.Pruning? && days > 0 && ids <= Rows(s.events, Before(Cutoff(s.sweep.now, days, s.sweep.through)))
    case Stop => true
  }

  function Apply(s: Store, step: Step): Store
    requires Enabled(s, step)
  {
    match step
    case Wait(ms) => s.(clock := s.clock + ms)
    case Insert(id, agent, kind) =>
      var e := Event(agent, kind, s.clock);
      s.(history := s.history[id := e], events := s.events[id := e])
    case Begin => s.(sweep := Started(s.clock))
    case ReadWatermark =>
      s.(sweep := WatermarkRead(s.sweep.now, NextHour(s.rollups)))
    case ChooseRange => s.(sweep := Range(s, s.sweep.now, s.sweep.resume))
    case RollUp =>
      var to := RangeEnd(s.sweep.now, s.sweep.from);
      s.(rollups := s.rollups + Counted(s.events, s.sweep.from, to), sweep := Pruning(s.sweep.now, to))
    case PruneBatch(_, ids) => s.(events := s.events - ids)
    case Stop => s.(sweep := Idle)
  }

  predicate Runs(s: Store, steps: seq<Step>)
    decreases |steps|
  {
    steps == [] || (Enabled(s, steps[0]) && Runs(Apply(s, steps[0]), steps[1..]))
  }

  function Exec(s: Store, steps: seq<Step>): Store
    requires Runs(s, steps)
    decreases |steps|
  {
    if steps == [] then s else Exec(Apply(s, steps[0]), steps[1..])
  }

  function Empty(clock: int): Store { Store(map[], map[], map[], clock, Idle) }

  // ---- What every step keeps ----

  /** Every event ever inserted before `bound` has a rollup row. */
  predicate CountedBelow(s: Store, bound: int) {
    forall id <- s.history :: s.history[id].at < bound ==> BucketOf(s.history[id]) in s.rollups
  }

  /** No rollup row reaches past `bound`. */
  predicate RowsBelow(rollups: Rollups, bound: int) {
    forall b <- rollups :: b.hour + HOUR_MS <= bound
  }

  /**
   A rollup row: a closed hour whose count is of every event ever inserted in its bucket, with everything older counted
   too.
   */
  predicate FinalRow(s: Store, b: Bucket) {
    && b in s.rollups
    && 0 < b.hour + HOUR_MS <= s.clock
    && s.rollups[b] == |Rows(s.history, InBucket(b))| > 0
    && CountedBelow(s, b.hour + HOUR_MS)
  }

  ghost predicate RowsAreFinal(s: Store) {
    forall b {:trigger FinalRow(s, b)} :: b in s.rollups ==> FinalRow(s, b)
  }

  predicate SweepInv(s: Store) {
    match s.sweep
    case Idle => true
    case Started(now) => now <= s.clock
    case WatermarkRead(now, resume) =>
      && now <= s.clock
      && (resume.None? ==> s.rollups == map[])
      && (resume.Some? ==>
            Aligned(resume.value) && resume.value <= s.clock && RowsBelow(s.rollups, resume.value)
                && CountedBelow(s, resume.value))
    case RangeChosen(now, from) =>
      now <= s.clock && Aligned(from) && from < StartOfHour(now) && RowsBelow(s.rollups, from) && CountedBelow(s, from)
    case Pruning(now, through) => now <= s.clock && through <= s.clock && CountedBelow(s, through)
  }

  predicate Surviving(s: Store) {
    forall id <- s.events :: id in s.history && s.events[id] == s.history[id]
  }

  predicate PrunedAreCounted(s: Store) {
    forall id <- s.history :: id !in s.events ==> BucketOf(s.history[id]) in s.rollups
  }

  ghost predicate Inv(s: Store) {
    && 0 <= s.clock
    && Surviving(s)
    && (forall id <- s.history :: 0 <= s.history[id].at <= s.clock)
    && RowsAreFinal(s)
    && PrunedAreCounted(s)
    && SweepInv(s)
  }
}
