/**
 The daily series of a report: the grouped rows of both sources merged into one entry per local
 day, empty days included. Dates are day numbers; `format` renders an instant as its local date.
 */
module DailySeries {
  import opened Timeline
  import opened Counting
  import opened EventLog
  import opened Reports

  datatype DayCount = DayCount(day: int, count: nat)
  datatype Daily = Daily(date: int, events: nat, alerts: nat)

  // ---- What merging means ----

  function RowSum(rows: seq<DayCount>, day: int): nat {
    if rows == [] then 0
    else RowSum(rows[..|rows|-1], day) + (if rows[|rows|-1].day == day then rows[|rows|-1].count else 0)
  }

  function SourceSum(sources: seq<seq<DayCount>>, day: int): nat {
    if sources == [] then 0 else SourceSum(sources[..|sources|-1], day) + RowSum(sources[|sources|-1], day)
  }

  /** `new Map(rows)`: the last row of a day wins. */
  function LastCount(rows: seq<DayCount>, day: int): nat {
    if rows == [] then 0
    else if rows[|rows|-1].day == day then rows[|rows|-1].count else LastCount(rows[..|rows|-1], day)
  }

  /** The distinct dates of the first `n` daily steps from `since`, in order of first appearance. */
  function Dates(since: int, n: nat, format: int -> int): (ds: seq<int>)
    ensures forall i, j :: 0 <= i < j < |ds| ==> ds[i] != ds[j]
    ensures forall k :: 0 <= k < n ==> format(since + k * DAY_MS) in ds
  {
    if n == 0 then []
    else
      var ds, d := Dates(since, n - 1, format), format(since + (n - 1) * DAY_MS);
      if d in ds then ds else ds + [d]
  }

  /** The merged series: one entry per date, whichever source its events came from. */
  predicate IsMerged(series: seq<Daily>, dates: seq<int>, sources: seq<seq<DayCount>>, alertRows: seq<DayCount>) {
    |series| == |dates| &&
    forall i :: 0 <= i < |series| ==>
      series[i] == Daily(dates[i], SourceSum(sources, dates[i]), LastCount(alertRows, dates[i]))
  }

  method MergeDaily(since: int, days: nat, format: int -> int, sources: seq<seq<DayCount>>, alertRows: seq<DayCount>)
    returns (series: seq<Daily>)
    ensures IsMerged(series, Dates(since, days + 1, format), sources, alertRows)
  {
    var events: map<int, nat> := map[];
    for s := 0 to |sources|
      invariant forall d :: At(events, d) == SourceSum(sources[..s], d)
    {
      var rows := sources[s];
      for r := 0 to |rows|
        invariant forall d :: At(events, d) == SourceSum(sources[..s], d) + RowSum(rows[..r], d)
      {
        var row := rows[r];
        assert rows[..r+1][..r] == rows[..r];
        events := events[row.day := At(events, row.day) + row.count];
      }
      assert rows[..|rows|] == rows;
      assert sources[..s+1][..s] == sources[..s];
    }
    assert sources[..|sources|] == sources;

    var alerts: map<int, nat> := map[];
    for r := 0 to |alertRows|
      invariant forall d :: At(alerts, d) == LastCount(alertRows[..r], d)
    {
      assert alertRows[..r+1][..r] == alertRows[..r];
      alerts := alerts[alertRows[r].day := alertRows[r].count];
    }
    assert alertRows[..|alertRows|] == alertRows;

    series := [];
    for offset := 0 to days + 1
      invariant IsMerged(series, Dates(since, offset, format), sources, alertRows)
    {
      var date := format(since + offset * DAY_MS);
      if exists i :: 0 <= i < |series| && series[i].date == date { continue; }
      series := series + [Daily(date, At(events, date), At(alerts, date))];
    }
  }

  /** The alert rows of the query name each day once, and the series shows that day's count, or zero. */
  lemma {:induction false} AlertsOfDay(rows: seq<DayCount>, day: int)
    requires forall i, j :: 0 <= i < j < |rows| ==> rows[i].day != rows[j].day
    ensures forall i :: 0 <= i < |rows| && rows[i].day == day ==> LastCount(rows, day) == rows[i].count
    ensures (forall i :: 0 <= i < |rows| ==> rows[i].day != day) ==> LastCount(rows, day) == 0
  {
    if rows != [] { AlertsOfDay(rows[..|rows|-1], day); }
  }

  /** Entry by entry: consecutive rows of either source add up, and the alert count is that of its own day. */
  lemma MergedEntry(series: seq<Daily>, dates: seq<int>, sources: seq<seq<DayCount>>, alertRows: seq<DayCount>, i: nat)
    requires IsMerged(series, dates, sources, alertRows) && i < |series|
    requires forall j, k :: 0 <= j < k < |alertRows| ==> alertRows[j].day != alertRows[k].day
    ensures series[i].date == dates[i]
    ensures forall j :: 0 <= j < |alertRows| && alertRows[j].day == dates[i] ==> series[i].alerts == alertRows[j].count
    ensures (forall j :: 0 <= j < |alertRows| ==> alertRows[j].day != dates[i]) ==> series[i].alerts == 0
  {
    AlertsOfDay(alertRows, dates[i]);
  }

  // ---- Fixed whole-hour offsets: every event of the window lands on exactly one listed day ----

  /** Local days of a zone at a fixed offset from UTC. */
  function DayOf(at: int, offset: int): int { (at + offset) / DAY_MS }

  function ByDay(offset: int): Grouping<int> {
    Grouping((e: Event) => DayOf(e.at, offset), (b: Bucket) => DayOf(b.hour, offset))
  }

  function LocalDay(offset: int): int -> int { (at: int) => DayOf(at, offset) }

  /** With a fixed offset a daily step is a calendar day, so no date repeats and none is skipped. */
  lemma {:induction false} DatesAreConsecutive(since: int, n: nat, offset: int)
    ensures |Dates(since, n, LocalDay(offset))| == n
    ensures forall k :: 0 <= k < n ==> Dates(since, n, LocalDay(offset))[k] == DayOf(since, offset) + k
  {
    if n > 0 {
      DatesAreConsecutive(since, n - 1, offset);
      DayStep(since, n - 1, offset);
    }
  }

  lemma DayStep(since: int, k: nat, offset: int)
    ensures DayOf(since + k * DAY_MS, offset) == DayOf(since, offset) + k
  {
  }

  /** At a whole-hour offset, a bucket and the events in it fall on the same local day. */
  lemma DaysAreConsistent(offset: int)
    requires Aligned(offset)
    ensures Consistent(ByDay(offset))
  {
    forall e: Event ensures DayOf(BucketOf(e).hour, offset) == DayOf(e.at, offset) {
      HourThenDay(e.at, offset);
    }
  }

  /** And only there: at any other offset some hour straddles a local midnight. */
  lemma DaysAreConsistentIff(offset: int)
    ensures Consistent(ByDay(offset)) <==> Aligned(offset)
  {
    if Aligned(offset) {
      DaysAreConsistent(offset);
    } else {
      var midnight := Event("hall", MotionDetected, -offset);
      assert DayOf(midnight.at, offset) == 0;
      OffTheHour(offset);
      assert ByDay(offset).ofBucket(BucketOf(midnight)) != ByDay(offset).ofEvent(midnight);
    }
  }

  lemma OffTheHour(offset: int)
    requires !Aligned(offset)
    ensures DayOf(StartOfHour(-offset), offset) < 0
  {
    Negated(offset);
  }

  lemma Negated(offset: int)
    ensures Aligned(-offset) ==> Aligned(offset)
  {
    if Aligned(-offset) { assert offset == -(-offset / HOUR_MS) * HOUR_MS; }
  }

  lemma HourThenDay(at: int, offset: int)
    requires Aligned(offset)
    ensures DayOf(StartOfHour(at), offset) == DayOf(at, offset)
  {
    var hours, shift := at / HOUR_MS, offset / HOUR_MS;
    var day := (hours + shift) / 24;
    assert StartOfHour(at) + offset == (hours + shift) * HOUR_MS;
    assert 24 * day <= hours + shift <= 24 * day + 23;
    assert day * DAY_MS <= (hours + shift) * HOUR_MS <= at + offset < (day + 1) * DAY_MS;
  }

  /** The rows a grouped query returns, in any order: one per key. */
  predicate Lists(rows: seq<DayCount>, m: map<int, nat>) {
    && (forall i, j :: 0 <= i < j < |rows| ==> rows[i].day != rows[j].day)
    && (forall i :: 0 <= i < |rows| ==> rows[i].day in m && m[rows[i].day] == rows[i].count)
    && (forall d <- m :: exists i :: 0 <= i < |rows| && rows[i].day == d)
  }

  lemma {:induction false} RowSumOfListed(rows: seq<DayCount>, day: int)
    requires forall i, j :: 0 <= i < j < |rows| ==> rows[i].day != rows[j].day
    ensures (forall i :: 0 <= i < |rows| ==> rows[i].day != day) ==> RowSum(rows, day) == 0
    ensures forall i :: 0 <= i < |rows| && rows[i].day == day ==> RowSum(rows, day) == rows[i].count
  {
    if rows != [] { RowSumOfListed(rows[..|rows|-1], day); }
  }

  lemma ListedSum(rows: seq<DayCount>, m: map<int, nat>, day: int)
    requires Lists(rows, m)
    ensures RowSum(rows, day) == At(m, day)
  {
    RowSumOfListed(rows, day);
  }

  function TotalEvents(series: seq<Daily>): nat {
    if series == [] then 0 else TotalEvents(series[..|series|-1]) + series[|series|-1].events
  }

  lemma PairSum(a: seq<DayCount>, b: seq<DayCount>, day: int)
    ensures SourceSum([a, b], day) == RowSum(a, day) + RowSum(b, day)
  {
    assert [a, b][..1] == [a] && [a][..0] == [];
    assert SourceSum([a], day) == RowSum(a, day);
  }

  /** `rolledDaily` and `rawDaily`. */
  ghost function RolledDaily(s: Store, since: int, boundary: int, offset: int): map<int, nat> {
    map d | d in Keys(s.rollups, map[], since, boundary, ByDay(offset))
      :: SumOver(s.rollups, RolledRows(s.rollups, since, boundary, ByDay(offset), d))
  }

  ghost function RawDaily(s: Store, since: int, boundary: int, offset: int): map<int, nat> {
    map d | d in Keys(map[], s.events, since, boundary, ByDay(offset))
      :: |RowsFrom(s.events, Greatest(since, boundary), ByDay(offset), d)|
  }

  /** The boundary is read in `s`, and the two sources later on, each in a state of its own. */
  ghost predicate AreRead(s: Store, xs: seq<Step>, ys: seq<Step>, since: int, offset: int, rolled: seq<DayCount>,
                          raw: seq<DayCount>) {
    && Inv(s) && Runs(s, xs) && Runs(s, ys) && Aligned(offset)
    && Lists(rolled, RolledDaily(Exec(s, xs), since, Boundary(s.rollups), offset))
    && Lists(raw, RawDaily(Exec(s, ys), since, Boundary(s.rollups), offset))
  }

  /** The events from `from` on that fall on one of `n` consecutive local days. */
  function OnDays(table: Table, from: int, offset: int, first: int, n: nat): set<nat> {
    set id | id in table && from <= table[id].at && first <= DayOf(table[id].at, offset) < first + n
  }

  function OnDay(table: Table, from: int, offset: int, day: int): set<nat> { RowsFrom(table, from, ByDay(offset), day) }

  /**
   Each day of the merged series counts every event ever inserted on it, but for those pruned since the boundary was
   read.
   */
  lemma DayIsExact(s: Store, xs: seq<Step>, ys: seq<Step>, since: int, offset: int, rolled: seq<DayCount>,
                   raw: seq<DayCount>, day: int)
    requires AreRead(s, xs, ys, since, offset, rolled, raw)
    ensures SourceSum([rolled, raw], day)
         == |OnDay(Seen(Exec(s, ys), Boundary(s.rollups)), EffectiveStart(since, Boundary(s.rollups)), offset, day)|
  {
    var g, boundary, t, u := ByDay(offset), Boundary(s.rollups), Exec(s, xs), Exec(s, ys);
    DaysAreConsistent(offset);
    LateCountIs(s, xs, ys, since, g, day);
    ListedSum(rolled, RolledDaily(t, since, boundary, offset), day);
    ListedSum(raw, RawDaily(u, since, boundary, offset), day);
    PairSum(rolled, raw, day);
    if RolledRows(t.rollups, since, boundary, g, day) == {} {
      assert SumOver(t.rollups, RolledRows(t.rollups, since, boundary, g, day)) == 0;
    }
  }

  lemma OneMoreDay(table: Table, from: int, offset: int, first: int, n: nat)
    ensures |OnDays(table, from, offset, first, n + 1)|
        == |OnDays(table, from, offset, first, n)| + |OnDay(table, from, offset, first + n)|
  {
    DisjointSize(OnDays(table, from, offset, first, n + 1), OnDays(table, from, offset, first, n),
        OnDay(table, from, offset, first + n));
  }

  lemma {:induction false} TotalOfDays(table: Table, from: int, offset: int, first: int, series: seq<Daily>)
    requires ExactDays(table, from, offset, first, series)
    ensures TotalEvents(series) == |OnDays(table, from, offset, first, |series|)|
  {
    var n := |series|;
    if n == 0 {
      assert OnDays(table, from, offset, first, 0) == {};
    } else {
      TotalOfDays(table, from, offset, first, series[..n-1]);
      OneMoreDay(table, from, offset, first, n - 1);
    }
  }

  function EverSince(table: Table, from: int): set<nat> { set id | id in table && from <= table[id].at }

  lemma DayMonotone(a: int, b: int, offset: int)
    requires a <= b
    ensures DayOf(a, offset) <= DayOf(b, offset)
  {
  }

  /** No event of the window falls off either end of the series. */
  lemma WindowIsCovered(s: Store, since: int, days: nat, offset: int, from: int)
    requires Inv(s) && since <= from && s.clock == since + days * DAY_MS
    ensures OnDays(s.history, from, offset, DayOf(since, offset), days + 1) == EverSince(s.history, from)
  {
    DayStep(since, days, offset);
    forall id <- s.history | from <= s.history[id].at
      ensures DayOf(since, offset) <= DayOf(s.history[id].at, offset) < DayOf(since, offset) + days + 1
    {
      DayMonotone(since, s.history[id].at, offset);
      DayMonotone(s.history[id].at, s.clock, offset);
    }
  }

  /** One entry per day from `first` on, each counting every event of a table on it from `from` on. */
  predicate ExactDays(table: Table, from: int, offset: int, first: int, series: seq<Daily>) {
    forall k :: 0 <= k < |series| ==>
      series[k].date == first + k && series[k].events == |OnDay(table, from, offset, first + k)|
  }

  lemma MergedDaysAreExact(table: Table, from: int, offset: int, sources: seq<seq<DayCount>>, alertRows: seq<DayCount>,
                           dates: seq<int>, first: int, series: seq<Daily>)
    requires forall day :: SourceSum(sources, day) == |OnDay(table, from, offset, day)|
    requires IsMerged(series, dates, sources, alertRows)
    requires forall k :: 0 <= k < |dates| ==> dates[k] == first + k
    ensures ExactDays(table, from, offset, first, series)
  {
  }

  /** The days of the series are consecutive, each is exact, and so is their total. */
  lemma SeriesIsExact(s: Store, xs: seq<Step>, ys: seq<Step>, since: int, days: nat, offset: int, rolled: seq<DayCount>,
                      raw: seq<DayCount>, alertRows: seq<DayCount>, series: seq<Daily>)
    requires AreRead(s, xs, ys, since, offset, rolled, raw)
    requires IsMerged(series, Dates(since, days + 1, LocalDay(offset)), [rolled, raw], alertRows)
    ensures |series| == days + 1
    ensures var b, first := Boundary(s.rollups), DayOf(since, offset);
            var seen, from := Seen(Exec(s, ys), b), EffectiveStart(since, b);
            && ExactDays(seen, from, offset, first, series)
            && TotalEvents(series) == |OnDays(seen, from, offset, first, days + 1)|
  {
    var seen, from := Seen(Exec(s, ys), Boundary(s.rollups)), EffectiveStart(since, Boundary(s.rollups));
    DatesAreConsecutive(since, days + 1, offset);
    forall day ensures SourceSum([rolled, raw], day) == |OnDay(seen, from, offset, day)| {
      DayIsExact(s, xs, ys, since, offset, rolled, raw, day);
    }
    MergedDaysAreExact(seen, from, offset, [rolled, raw], alertRows, Dates(since, days + 1, LocalDay(offset)),
                       DayOf(since, offset), series);
    TotalOfDays(seen, from, offset, DayOf(since, offset), series);
  }

  /**
   The headline total: read at one instant, it is the number of events ever inserted from the effective start of the
   window on.
   */
  lemma TotalIsExact(s: Store, since: int, days: nat, offset: int, rolled: seq<DayCount>, raw: seq<DayCount>,
                     alertRows: seq<DayCount>, series: seq<Daily>)
    requires AreRead(s, [], [], since, offset, rolled, raw) && s.clock == since + days * DAY_MS
    requires IsMerged(series, Dates(since, days + 1, LocalDay(offset)), [rolled, raw], alertRows)
    ensures TotalEvents(series) == |EverSince(s.history, EffectiveStart(since, Boundary(s.rollups)))|
  {
    SeriesIsExact(s, [], [], since, days, offset, rolled, raw, alertRows, series);
    BoundarySplits(s);
    WindowIsCovered(s, since, days, offset, EffectiveStart(since, Boundary(s.rollups)));
  }
}
