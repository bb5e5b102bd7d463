/** Concrete runs from a fresh hub that reach each situation the theorems about the hub set aside. */
module HubWitness {
  import opened Options
  import opened AlertRules
  import opened Policy
  import opened Hub
  import opened HubProofs
  import opened HubTheorems
  import EventLog

  const SETTINGS := Config(30_000, 60_000)
  const BEAT := Heartbeat("hall")
  const MOTION := Event("hall", EventLog.MotionDetected)

  predicate Reaches(steps: seq<Step>, t: State) {
    Runs(Fresh(0), SETTINGS, steps) && Exec(Fresh(0), SETTINGS, steps) == t
  }

  lemma {:induction false} RunsSnoc(s: State, steps: seq<Step>, step: Step)
    requires Runs(s, SETTINGS, steps) && Enabled(Exec(s, SETTINGS, steps), SETTINGS, step)
    ensures Runs(s, SETTINGS, steps + [step])
    ensures Exec(s, SETTINGS, steps + [step]) == Apply(Exec(s, SETTINGS, steps), SETTINGS, step)
    ensures Recoveries(s, SETTINGS, steps + [step], "hall") == Recoveries(s, SETTINGS, steps, "hall")
                + One(Recovers(Exec(s, SETTINGS, steps), Exec(s, SETTINGS, steps + [step]), "hall"))
    decreases |steps|
  {
    if steps == [] {
      assert ([] + [step])[1..] == [];
    } else {
      assert (steps + [step])[1..] == steps[1..] + [step];
      RunsSnoc(Apply(s, SETTINGS, steps[0]), steps[1..], step);
    }
  }

  /** One more step of a run from the fresh hub. */
  lemma Then(steps: seq<Step>, s: State, step: Step) returns (more: seq<Step>, t: State)
    requires Reaches(steps, s) && Enabled(s, SETTINGS, step)
    ensures t == Apply(s, SETTINGS, step) && Reaches(more, t)
    ensures Recoveries(Fresh(0), SETTINGS, more, "hall")
         == Recoveries(Fresh(0), SETTINGS, steps, "hall") + One(Recovers(s, t, "hall"))
  {
    more, t := steps + [step], Apply(s, SETTINGS, step);
    RunsSnoc(Fresh(0), steps, step);
  }

  function Hall(status: Status, lastSeen: int): Agents { map["hall" := Agent(status, Device, lastSeen, "hall", 0)] }

  /** A hub up since `boot`, with one sensor and nothing raised. */
  function Quiescent(status: Status, clock: int, boot: int, reconciled: bool, phase: Phase, lastTick: int): State {
    State(Hall(status, 0), map[], [], Disarmed, clock, true, boot, reconciled, phase, map[], 1, lastTick)
  }

  lemma Registered() returns (steps: seq<Step>, t: State)
    ensures Reaches(steps, t) && t == Quiescent(Online, 0, 0, false, Resting, 0)
    ensures Recoveries(Fresh(0), SETTINGS, steps, "hall") == 0
  {
    steps, t := Then([], Fresh(0), Boot);
    steps, t := Then(steps, t, Read(Enrollment("hall", "hall")));
    steps, t := Then(steps, t, Write(0));
  }

  // ---- A silent sensor ----

  lemma NothingUnannounced(s: State)
    requires s.agents == Hall(Online, 0)
    ensures Unannounced(s) == {}
  {
  }

  lemma HallIsStale(s: State, cutoff: int)
    requires s.agents == Hall(Online, 0) && cutoff > 0
    ensures IsListing(["hall"], Stale(s, cutoff)) && Flip(s, Stale(s, cutoff)).agents["hall"].status == Offline
    ensures s.raised == [] ==> Flip(s, Stale(s, cutoff)) == s.(agents := Hall(Offline, 0))
  {
    assert Stale(s, cutoff) == {"hall"};
    assert s.raised == [] ==> Flip(s, {"hall"}).agents == Hall(Offline, 0);
  }

  /** The sensor has been silent too long, the first sweep has marked it offline, and its turn is still to come. */
  lemma Marked(steps: seq<Step>, s: State) returns (more: seq<Step>, t: State)
    requires Reaches(steps, s) && s.up && s.phase == Resting && !s.reconciled && s.agents == Hall(Online, 0)
    requires s.raised == [] && s.clock > 30_000 && s.clock - s.bootedAt >= 30_000
    ensures Reaches(more, t)
    ensures t == s.(agents := Hall(Offline, 0), reconciled := true, lastTick := s.clock,
                    phase := Raising(s.clock, ["hall"], None))
    ensures Recoveries(Fresh(0), SETTINGS, more, "hall") == Recoveries(Fresh(0), SETTINGS, steps, "hall")
  {
    more, t := Then(steps, s, BeginSweep);
    NothingUnannounced(t);
    more, t := Then(more, t, Select([]));
    more, t := Then(more, t, EndRepair);
    HallIsStale(t, s.clock - 30_000);
    more, t := Then(more, t, FlipBatch(["hall"]));
  }

  lemma Silent() returns (steps: seq<Step>, t: State)
    ensures Reaches(steps, t)
    ensures t == Quiescent(Offline, 30_001, 0, true, Raising(30_001, ["hall"], None), 30_001)
    ensures Recoveries(Fresh(0), SETTINGS, steps, "hall") == 0
  {
    steps, t := Registered();
    steps, t := Then(steps, t, Wait(30_001));
    steps, t := Marked(steps, t);
  }

  const SILENCE := Alert(AgentOffline, Warning, "hall", 30_001, None)

  // ---- An alert left open ----

  /** The sensor is online and no request is under way, but an offline alert of it is open. */
  predicate Stranded(t: State) {
    "hall" in t.agents && t.agents["hall"].status == Online && HasOpenOffline(t, "hall") && t.flights == map[]
  }

  lemma StrandedSomehow(steps: seq<Step>, t: State)
    requires Reaches(steps, t) && Stranded(t)
    ensures !NeverStranded(Fresh(0), SETTINGS, steps, "hall")
  {
    if NeverStranded(Fresh(0), SETTINGS, steps, "hall") { SilenceIsAnnounced(0, SETTINGS, steps, "hall"); }
  }

  /** The sensor is back, and its recovery has acknowledged everything, between the check and the raise. */
  lemma Hastened() returns (steps: seq<Step>, t: State)
    ensures Reaches(steps, t)
    ensures t == Quiescent(Online, 30_001, 0, true, Raising(30_001, ["hall"], Some(Disarmed)), 30_001)
                   .(agents := Hall(Online, 30_001), flights := map[1 := Settled(BEAT)], next := 2)
  {
    steps, t := LetThrough();
    steps, t := Then(steps, t, Read(BEAT));
    steps, t := Then(steps, t, Write(1));
    steps, t := Then(steps, t, Settle(1));
    assert t.alerts == map[] && t.agents == Hall(Online, 30_001);
  }

  lemma LetThrough() returns (steps: seq<Step>, t: State)
    ensures Reaches(steps, t)
    ensures t == Quiescent(Offline, 30_001, 0, true, Raising(30_001, ["hall"], Some(Disarmed)), 30_001)
  {
    steps, t := Silent();
    steps, t := Then(steps, t, CheckNext);
  }

  lemma Overtaken() returns (steps: seq<Step>, t: State)
    ensures Reaches(steps, t) && Stranded(t) && t.phase == Raising(30_001, [], None)
    ensures t.up && t.bootedAt == 0 && t.reconciled && t.clock == 30_001
    ensures t.agents == Hall(Online, 30_001) && 0 in t.alerts && t.alerts[0] == SILENCE
  {
    steps, t := Hastened();
    steps, t := Then(steps, t, RaiseNext);
    assert t.alerts == map[0 := SILENCE] && t.raised == [SILENCE] && t.phase == Raising(30_001, [], None);
    steps, t := Then(steps, t, Notify(1));
    assert t.alerts[0].Open();
  }

  /** A heartbeat between the check and the raise. */
  lemma RecoveryOvertakesRaise() returns (steps: seq<Step>)
    ensures Runs(Fresh(0), SETTINGS, steps) && Stranded(Exec(Fresh(0), SETTINGS, steps))
    ensures !NeverStranded(Fresh(0), SETTINGS, steps, "hall")
  {
    var t;
    steps, t := Overtaken();
    StrandedSomehow(steps, t);
  }

  /** One more silence inside the cooldown, and the alert left open swallows its announcement. */
  lemma NextSilenceIsSwallowed() returns (steps: seq<Step>)
    ensures Runs(Fresh(0), SETTINGS, steps) && Lost(Exec(Fresh(0), SETTINGS, steps), "hall")
  {
    var t;
    steps, t := Overtaken();
    steps, t := Then(steps, t, EndSweep);
    steps, t := Then(steps, t, Wait(30_001));
    steps, t := Then(steps, t, BeginSweep);
    assert t.phase == Flipping(60_002);
    HallIsStaleAgain(t);
    steps, t := Then(steps, t, FlipBatch(["hall"]));
    assert t.alerts[0] == SILENCE;
    FreshInv(0, SETTINGS, "hall");
    RunKeepsBase(Fresh(0), SETTINGS, steps);
    LeftoverSwallowsNext(t, SETTINGS, "hall", 0);
    steps, t := Then(steps, t, CheckNext);
  }

  lemma HallIsStaleAgain(s: State)
    requires s.agents == Hall(Online, 30_001)
    ensures IsListing(["hall"], Stale(s, 30_002))
    ensures IsOffline(Flip(s, Stale(s, 30_002)), "hall") && Flip(s, Stale(s, 30_002)).alerts == s.alerts
  {
    assert Stale(s, 30_002) == {"hall"};
  }

  /** The silence is announced, while a heartbeat read before it may be under way. */
  lemma Announced(beat: bool) returns (steps: seq<Step>, t: State)
    ensures Reaches(steps, t) && t.up && t.agents == Hall(Offline, 0) && t.alerts == map[0 := SILENCE]
    ensures t.flights == (if beat then map[1 := Loaded(BEAT, false)] else map[]) && t.raised == [SILENCE]
    ensures t.next == (if beat then 2 else 1)
  {
    steps, t := Registered();
    steps, t := Then(steps, t, Wait(30_001));
    if beat { steps, t := Then(steps, t, Read(BEAT)); }
    steps, t := Marked(steps, t);
    steps, t := Then(steps, t, CheckNext);
    assert t.phase.checked == Some(Disarmed);
    steps, t := Then(steps, t, RaiseNext);
  }

  /** A heartbeat that read the sensor online is written after the silence is announced: no notice is ever posted. */
  lemma StaleWriteStaysQuiet() returns (steps: seq<Step>)
    ensures Runs(Fresh(0), SETTINGS, steps) && Stranded(Exec(Fresh(0), SETTINGS, steps))
    ensures !NeverStranded(Fresh(0), SETTINGS, steps, "hall")
    ensures Notices(Exec(Fresh(0), SETTINGS, steps).raised, "hall") == 0
  {
    var t;
    steps, t := Announced(true);
    steps, t := Then(steps, t, Write(1));
    assert t.flights == map[] && t.alerts[0].Open() && t.raised == [SILENCE];
    assert t.raised[..0] == [];
    StrandedSomehow(steps, t);
  }

  /** The process ends between a recovery's row and its acknowledgement. */
  lemma CrashCutsRecoveryShort() returns (steps: seq<Step>)
    ensures Runs(Fresh(0), SETTINGS, steps) && Stranded(Exec(Fresh(0), SETTINGS, steps))
    ensures !NeverStranded(Fresh(0), SETTINGS, steps, "hall")
  {
    var t;
    steps, t := Announced(false);
    steps, t := Then(steps, t, Read(BEAT));
    steps, t := Then(steps, t, Write(1));
    steps, t := Then(steps, t, Stop);
    assert t.alerts[0].Open();
    StrandedSomehow(steps, t);
  }

  lemma BothReadOffline() returns (steps: seq<Step>, t: State)
    ensures Reaches(steps, t) && Recoveries(Fresh(0), SETTINGS, steps, "hall") == 1
    ensures t.up && t.alerts == map[] && t.raised == [] && t.flights == map[1 := Returned(BEAT), 2 := Returned(MOTION)]
  {
    steps, t := Silent();
    steps, t := Then(steps, t, Read(BEAT));
    steps, t := Then(steps, t, Read(MOTION));
    assert t.flights == map[1 := Loaded(BEAT, true), 2 := Loaded(MOTION, true)];
    steps, t := Then(steps, t, Write(1));
    steps, t := Then(steps, t, Write(2));
  }

  /** Two requests read the sensor offline, and its one recovery is posted twice. */
  lemma TwoNoticesForOneRecovery() returns (steps: seq<Step>)
    ensures Runs(Fresh(0), SETTINGS, steps) && Recoveries(Fresh(0), SETTINGS, steps, "hall") == 1
    ensures Notices(Exec(Fresh(0), SETTINGS, steps).raised, "hall") == 2
  {
    var t;
    steps, t := BothReadOffline();
    steps, t := Then(steps, t, Settle(1));
    steps, t := Then(steps, t, Settle(2));
    assert t.flights == map[1 := Settled(BEAT), 2 := Settled(MOTION)];
    NoticeIff(t, SETTINGS, Notify(1), "hall");
    steps, t := Then(steps, t, Notify(1));
    NoticeIff(t, SETTINGS, Notify(2), "hall");
    steps, t := Then(steps, t, Notify(2));
  }

  // ---- Timing and repair ----

  /** A boot one instant after the sensor was last heard, and a sweep exactly one timeout after the boot. */
  lemma GraceEndsOneTickEarly() returns (steps: seq<Step>)
    ensures Runs(Fresh(0), SETTINGS, steps)
    ensures var t := Exec(Fresh(0), SETTINGS, steps);
            && "hall" in t.agents && t.agents["hall"].status == Offline && t.agents["hall"].lastSeen < t.bootedAt
            && t.phase.Raising? && t.phase.now == t.bootedAt + SETTINGS.timeoutMs
  {
    var t;
    steps, t := Registered();
    steps, t := Then(steps, t, Stop);
    steps, t := Then(steps, t, Wait(1));
    steps, t := Then(steps, t, Boot);
    steps, t := Then(steps, t, Wait(30_000));
    steps, t := Marked(steps, t);
  }

  lemma NobodyIsStale(s: State, cutoff: int)
    requires s.agents == Hall(Offline, 0)
    ensures Stale(s, cutoff) == {} && Flip(s, {}) == s
  {
    assert Flip(s, {}).agents == s.agents;
  }

  /** A crash before the raise, then a repair whose query fails: the sensor is offline and nothing was ever raised. */
  lemma FailedRepairStaysSilent() returns (steps: seq<Step>)
    ensures Runs(Fresh(0), SETTINGS, steps)
    ensures var t := Exec(Fresh(0), SETTINGS, steps);
            t.up && t.reconciled && t.phase.Resting? && t.raised == [] && Lost(t, "hall")
  {
    var t;
    steps, t := Silent();
    steps, t := Then(steps, t, Stop);
    steps, t := Then(steps, t, Boot);
    steps, t := Then(steps, t, Wait(30_000));
    steps, t := Then(steps, t, BeginSweep);
    steps, t := Then(steps, t, SelectFails);
    NobodyIsStale(t, 60_001 - 30_000);
    steps, t := Then(steps, t, FlipBatch([]));
    steps, t := Then(steps, t, EndSweep);
  }

  // ---- While armed ----

  const OPERATOR := Identity(Operator, {SystemArm, SystemDisarm}, [])

  lemma Armed() returns (steps: seq<Step>, t: State)
    ensures Reaches(steps, t)
    ensures t == Quiescent(Online, 0, 0, false, Resting, 0).(mode := Away, next := 2)
  {
    steps, t := Registered();
    assert OpenCriticals(t) == {};
    steps, t := Then(steps, t, Decide(OPERATOR, Away));
    assert t.flights == map[1 := Granted(Away, false, 0)];
    steps, t := Then(steps, t, Commit(1));
  }

  const TRIPPED := Alert(IntrusionMotion, Critical, "hall", 0, None)
  const PASSED := Passed("hall", EventLog.MotionDetected, Away)

  predicate Alarming(s: State) {
    s.up && s.mode == Away && s.agents == Hall(Online, 0) && s.alerts == map[] && s.raised == [] && s.clock == 0
  }

  /** Motion is reported, and the cooldown lets its alert through. */
  lemma Moving(steps: seq<Step>, s: State) returns (more: seq<Step>, t: State)
    requires Reaches(steps, s) && Alarming(s)
    ensures Reaches(more, t) && t == s.(next := s.next + 1, flights := s.flights[s.next := PASSED])
  {
    more, t := Reported(steps, s);
    more, t := Then(more, t, Judge(s.next));
    assert t.flights == s.flights[s.next := PASSED];
  }

  lemma Reported(steps: seq<Step>, s: State) returns (more: seq<Step>, t: State)
    requires Reaches(steps, s) && Alarming(s)
    ensures Reaches(more, t)
    ensures t == s.(next := s.next + 1, flights := s.flights[s.next := Recorded("hall", EventLog.MotionDetected)])
  {
    more, t := Then(steps, s, Read(MOTION));
    assert t.flights[s.next] == Loaded(MOTION, false);
    more, t := Then(more, t, Write(s.next));
    assert t.agents == s.agents;
  }

  lemma DisarmAllowed() returns (steps: seq<Step>, t: State)
    ensures Reaches(steps, t) && Alarming(t) && t.next == 3 && t.flights == map[2 := Granted(Disarmed, false, 0)]
  {
    steps, t := Armed();
    assert OpenCriticals(t) == {};
    steps, t := Then(steps, t, Decide(OPERATOR, Disarmed));
  }

  /** An operator's disarm has been allowed with nothing open, and then motion trips an alert. */
  lemma RacingAlertSlipsThrough() returns (steps: seq<Step>)
    ensures Runs(Fresh(0), SETTINGS, steps)
    ensures var t := Exec(Fresh(0), SETTINGS, steps);
            && Enabled(t, SETTINGS, Commit(2)) && !t.flights[2].byAdmin && t.mode == Away
            && Apply(t, SETTINGS, Commit(2)).mode == Disarmed && OpenCriticals(Apply(t, SETTINGS, Commit(2))) != {}
  {
    var s, t;
    steps, s := DisarmAllowed();
    steps, s := Moving(steps, s);
    steps, t := Then(steps, s, Insert(3));
    TrippedSlipsThrough(s, t);
  }

  lemma TrippedSlipsThrough(s: State, t: State)
    requires Alarming(s) && s.flights == map[2 := Granted(Disarmed, false, 0), 3 := PASSED] && t == Inserted(s, 3)
    ensures Enabled(t, SETTINGS, Commit(2)) && !t.flights[2].byAdmin && t.mode == Away
    ensures Apply(t, SETTINGS, Commit(2)).mode == Disarmed && OpenCriticals(Apply(t, SETTINGS, Commit(2))) != {}
  {
    assert t.alerts == map[0 := TRIPPED];
    assert 0 in OpenCriticals(Apply(t, SETTINGS, Commit(2)));
  }

  lemma BothPassed() returns (steps: seq<Step>, t: State)
    ensures Reaches(steps, t) && Alarming(t) && t.flights == map[2 := PASSED, 3 := PASSED]
  {
    steps, t := Armed();
    steps, t := Moving(steps, t);
    steps, t := Moving(steps, t);
  }

  /** Two overlapping reports of one sensor raise one alert each inside the cooldown, both open. */
  lemma OverlappingEventsDouble() returns (steps: seq<Step>)
    ensures Runs(Fresh(0), SETTINGS, steps) && !NeverDoubled(Fresh(0), SETTINGS, steps, IntrusionMotion, "hall")
    ensures Exec(Fresh(0), SETTINGS, steps).alerts == map[0 := TRIPPED, 1 := TRIPPED]
  {
    var t;
    steps, t := BothPassed();
    steps, t := Then(steps, t, Insert(2));
    assert t.alerts == map[0 := TRIPPED] && t.raised == [TRIPPED];
    steps, t := Then(steps, t, Insert(3));
    TooClose(t, 0, 1);
    SpacedIffNeverDoubled(Fresh(0), SETTINGS, steps, IntrusionMotion, "hall");
  }

  lemma TooClose(t: State, i: nat, j: nat)
    requires i in t.alerts && j in t.alerts && t.alerts[i] == TRIPPED && t.alerts[j] == TRIPPED && i < j
    ensures !KeySpaced(t, SETTINGS, IntrusionMotion, "hall")
  {
    assert !Spaced(t.alerts[i], t.alerts[j], 60_000);
  }
}
