/**
 One concrete run of the event tables. Its first sweep changes a report whose window opens inside an hour, because
 `"hour" >= since` skips the bucket the window opens in; and a long enough silence after it stalls the watermark.
 */
module ReportWitness {
  import opened Options
  import opened Timeline
  import opened EventLog
  import opened EventLogProofs
  import opened Reports
  import opened RollupProgress

  /** One event ten milliseconds into the epoch, looked at an hour later. */
  function OneEvent(): Store {
    var e := Event("hall", MotionDetected, 10);
    Store(map[0 := e], map[0 := e], map[], 10 + HOUR_MS, Idle)
  }

  function Row(): Bucket { Bucket(0, "hall", MotionDetected) }

  /** The same after one sweep. */
  function Rolled(): Store { OneEvent().(rollups := map[Row() := 1]) }

  const ARRIVAL: seq<Step> := [Insert(0, "hall", MotionDetected), Wait(HOUR_MS)]
  const SWEEP: seq<Step> := [Begin, ReadWatermark, ChooseRange, RollUp, Stop]

  lemma OneEventIsReachable()
    ensures Runs(Empty(10), ARRIVAL) && Exec(Empty(10), ARRIVAL) == OneEvent() && Inv(OneEvent())
  {
    var inserted := Apply(Empty(10), ARRIVAL[0]);
    assert inserted.history == OneEvent().history && inserted.events == OneEvent().events;
    assert Apply(inserted, ARRIVAL[1]) == OneEvent();
    var later := [Wait(HOUR_MS)];
    assert later[1..] == [] && Exec(inserted, later) == Exec(OneEvent(), []);
    assert ARRIVAL[1..] == later && Exec(Empty(10), ARRIVAL) == Exec(inserted, later);
    CountsAreFinal(Empty(10), ARRIVAL);
  }

  lemma FirstHourIsCounted(events: Table)
    requires events == OneEvent().events
    ensures Counted(events, 0, HOUR_MS) == map[Row() := 1]
  {
    HourIsUnique(10, 0);
    assert BucketOf(events[0]) == Row();
    assert Rows(events, Between(0, HOUR_MS)) == {0};
    assert BucketsIn(events, 0, HOUR_MS) == {Row()};
    assert (set id | id in Rows(events, Between(0, HOUR_MS)) && BucketOf(events[id]) == Row()) == {0};
  }

  lemma RangeIsFirstHour(s: Store)
    requires s == OneEvent()
    ensures Range(s, s.clock, None) == RangeChosen(s.clock, 0) && RangeEnd(s.clock, 0) == HOUR_MS
  {
    assert 0 in s.events && Oldest(s.events) == 10;
    HourIsUnique(10, 0);
    HourIsUnique(10 + HOUR_MS, HOUR_MS);
  }

  lemma Unfold(s: Store, step: Step, rest: seq<Step>)
    requires Enabled(s, step) && Runs(Apply(s, step), rest)
    ensures Runs(s, [step] + rest) && Exec(s, [step] + rest) == Exec(Apply(s, step), rest)
  {
    assert ([step] + rest)[1..] == rest;
  }

  function Chosen(): Store { OneEvent().(sweep := RangeChosen(10 + HOUR_MS, 0)) }

  lemma RangeIsRolled()
    ensures Runs(Chosen(), [RollUp, Stop]) && Exec(Chosen(), [RollUp, Stop]) == Rolled()
  {
    var s := Chosen();
    RangeIsFirstHour(OneEvent());
    FirstHourIsCounted(s.events);
    var counted := Rolled().(sweep := Pruning(s.clock, HOUR_MS));
    assert Apply(s, RollUp) == counted;
    Unfold(counted, Stop, []);
    Unfold(s, RollUp, [Stop]);
  }

  lemma SweepIsRun()
    ensures Runs(OneEvent(), SWEEP) && Exec(OneEvent(), SWEEP) == Rolled()
  {
    var s := OneEvent();
    RangeIsFirstHour(s);
    RangeIsRolled();
    var begun, read := s.(sweep := Started(s.clock)), s.(sweep := WatermarkRead(s.clock, None));
    Unfold(read, ChooseRange, [RollUp, Stop]);
    Unfold(begun, ReadWatermark, [ChooseRange, RollUp, Stop]);
    Unfold(s, Begin, [ReadWatermark, ChooseRange, RollUp, Stop]);
  }

  lemma OneEventIsRolled()
    ensures Runs(OneEvent(), SWEEP) && Exec(OneEvent(), SWEEP) == Rolled() && Inv(Rolled())
  {
    OneEventIsReachable();
    SweepIsRun();
    CountsAreFinal(OneEvent(), SWEEP);
  }

  lemma RolledWatermark()
    ensures NextHour(Rolled().rollups) == Some(HOUR_MS)
  {
    assert Row() in Rolled().rollups;
    assert 0 in Hours(Rolled().rollups);
  }

  lemma CountedBefore()
    ensures At(Report(OneEvent(), 1, ByAgent), "hall") == 1
  {
    var s := OneEvent();
    OneEventIsReachable();
    ReportIsExact(s, 1, ByAgent, "hall");
    assert RowsFrom(s.history, 1, ByAgent, "hall") == {0};
  }

  lemma LostAfter()
    ensures At(Report(Rolled(), 1, ByAgent), "hall") == 0
  {
    var t := Rolled();
    OneEventIsRolled();
    RolledWatermark();
    ReportIsExact(t, 1, ByAgent, "hall");
    HourIsUnique(HOUR_MS, HOUR_MS);
    assert RowsFrom(t.history, HOUR_MS, ByAgent, "hall") == {};
  }

  /** Before the hour is rolled up a report since millisecond 1 counts the event; after the sweep it does not. */
  lemma UnalignedReportLosesPartialHour()
    ensures Runs(OneEvent(), SWEEP)
    ensures At(Report(OneEvent(), 1, ByAgent), "hall") == 1
    ensures At(Report(Exec(OneEvent(), SWEEP), 1, ByAgent), "hall") == 0
  {
    CountedBefore();
    OneEventIsRolled();
    LostAfter();
  }

  /** Ninety silent days after that sweep the watermark is stuck for good. */
  lemma StallIsReachable() returns (steps: seq<Step>)
    ensures Runs(Empty(10), steps) && Inv(Exec(Empty(10), steps)) && Stalled(Exec(Empty(10), steps), HOUR_MS)
  {
    OneEventIsReachable();
    OneEventIsRolled();
    RunsAppend(Empty(10), ARRIVAL, SWEEP);
    var silence := [Wait(MAX_ROLLUP_MS)];
    Unfold(Rolled(), silence[0], []);
    assert silence == [silence[0]] + [];
    RunsAppend(Empty(10), ARRIVAL + SWEEP, silence);
    steps := ARRIVAL + SWEEP + silence;
    CountsAreFinal(Empty(10), steps);
    RolledWatermark();
    assert Exec(Empty(10), steps) == Apply(Rolled(), silence[0]);
  }
}
