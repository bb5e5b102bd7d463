/**
 One schedule row and any number of runners acting on it, one database statement at a time: overlapping
 ticks, restarts in the middle of a loop, a second hub, and edits by an operator in between.
 */
module ScheduleRuns {
  import opened Options
  import opened AlertRules
  import opened Policy
  import opened LocalTime

  /** What a runner holds between statements. A stale row or a stale date is the whole difficulty. */
  datatype Runner =
    | Resting
    | Judging(schedule: Schedule, local: LocalNow)
    | Claiming(dateKey: int, fires: bool, mode: SystemMode)
    | Setting(dateKey: int, mode: SystemMode)

  /**
   `claims` are the dates claimed since the row was created or its boundary last moved, `sets` those a mode
   change followed, and `today` the latest local date any runner has read since then.
   */
  datatype State = State(row: Option<Schedule>, runners: seq<Runner>, mode: SystemMode,
                         claims: seq<int>, sets: seq<int>, today: Option<int>)

  datatype Step =
    /** `seen` is None when the zone cannot be resolved. */
    | Read(r: nat, seen: Option<LocalNow>)
    | Judge(r: nat, open: nat, grace: nat)
    | Claim(r: nat)
    | SetMode(r: nat)
    | Crash(r: nat)
    | Make(input: Input, local: LocalNow)
    | Edit(input: Input, local: LocalNow)
    | Remove

  function Latest(today: Option<int>, date: int): int {
    if today.Some? && today.value > date then today.value else date
  }

  predicate Enabled(s: State, step: Step) {
    match step
    case Read(r, seen) =>
      r < |s.runners| && s.runners[r].Resting? && s.row.Some? && s.row.value.enabled
    case Judge(r, _, _) => r < |s.runners| && s.runners[r].Judging?
    case Claim(r) => r < |s.runners| && s.runners[r].Claiming?
    case SetMode(r) => r < |s.runners| && s.runners[r].Setting?
    case Crash(r) => r < |s.runners|
    case Make(_, _) => s.row.None?
    case Edit(_, _) => s.row.Some?
    case Remove => s.row.Some?
  }

  /** The conditional update: it touches the row only if the date differs from the one stored, null included. */
  predicate ClaimSucceeds(s: State, r: nat)
    requires Enabled(s, Claim(r))
  {
    s.row.Some? && s.row.value.lastFiredFor != Some(s.runners[r].dateKey)
  }

  function With(s: State, r: nat, runner: Runner): State
    requires r < |s.runners|
  {
    s.(runners := s.runners[r := runner])
  }

  function Apply(s: State, step: Step): State
    requires Enabled(s, step)
  {
    match step
    case Read(r, seen) =>
      if seen.None? then s
      else With(s, r, Judging(s.row.value, seen.value)).(today := Some(Latest(s.today, seen.value.dateKey)))
    case Judge(r, open, grace) =>
      var held := s.runners[r].schedule;
      (match EvaluateDue(held, s.runners[r].local, grace)
       case Idle => With(s, r, Resting)
       case Missed(d, _) => With(s, r, Claiming(d, false, held.mode))
       case Due(d, _) =>
         if CanScheduleSetMode(held.mode, open).Allowed? then With(s, r, Claiming(d, true, held.mode))
             else With(s, r, Resting))
    case Claim(r) =>
      var c := s.runners[r];
      if ClaimSucceeds(s, r) then
        With(s, r, if c.fires then Setting(c.dateKey, c.mode) else Resting)
          .(row := Some(s.row.value.(lastFiredFor := Some(c.dateKey))), claims := s.claims + [c.dateKey])
      else With(s, r, Resting)
    case SetMode(r) => With(s, r, Resting).(mode := s.runners[r].mode, sets := s.sets + [s.runners[r].dateKey])
    case Crash(r) => With(s, r, Resting)
    case Make(input, local) => s.(row := Some(Create(input, local)), claims := [], sets := [], today := None)
    case Edit(input, local) =>
      var t := s.(row := Some(Update(s.row.value, input, local)));
      if MovesBoundary(s.row.value, input) then t.(claims := [], sets := [], today := None) else t
    case Remove => s.(row := None, claims := [], sets := [], today := None)
  }

  // ---- What one step does ----

  /**
   What a runner decides on the row and the local time it holds: to claim and then change the mode, to claim a miss,
   or nothing. What is open holds back a disarm before anything is claimed.
   */
  lemma JudgeRule(s: State, r: nat, open: nat, grace: nat, t: State)
    requires Enabled(s, Judge(r, open, grace)) && t == Apply(s, Judge(r, open, grace))
    ensures var Judging(held, local) := s.runners[r];
            var inTime := local.minuteOfDay <= held.startMinute + grace;
            && t == s.(runners := s.runners[r := t.runners[r]])
            && t.runners[r] == if !ActsNow(held, local) || (inTime && held.mode == Disarmed && open > 0) then Resting
                               else Claiming(local.dateKey, inTime, held.mode)
  {
    VerdictRule(s.runners[r].schedule, s.runners[r].local, grace);
  }

  /** The mode changes only when a runner whose claim succeeded sets it to the mode of the row it had read. */
  lemma ModeRule(s: State, step: Step, t: State)
    requires Enabled(s, step) && t == Apply(s, step)
    ensures t.mode == if step.SetMode? then s.runners[step.r].mode else s.mode
    ensures forall r :: 0 <= r < |t.runners| && t.runners[r].Setting? && t.runners[r] != s.runners[r] ==>
              && step == Claim(r) && s.runners[r] == Claiming(t.runners[r].dateKey, true, t.runners[r].mode)
              && s.row.Some? && s.row.value.lastFiredFor != Some(t.runners[r].dateKey)
              && t.row.Some? && t.row.value.lastFiredFor == Some(t.runners[r].dateKey)
  {
  }

  predicate Runs(s: State, steps: seq<Step>)
    decreases |steps|
  {
    steps == [] || (Enabled(s, steps[0]) && Runs(Apply(s, steps[0]), steps[1..]))
  }

  function Exec(s: State, steps: seq<Step>): State
    requires Runs(s, steps)
    decreases |steps|
  {
    if steps == [] then s else Exec(Apply(s, steps[0]), steps[1..])
  }

  function Start(runners: nat, mode: SystemMode): State { State(None, seq(runners, _ => Resting), mode, [], [], None) }

  predicate Increasing(dates: seq<int>) { forall i, j :: 0 <= i < j < |dates| ==> dates[i] < dates[j] }

  /** The row remembers exactly the last successful claim. */
  predicate RowKnowsLastClaim(s: State) {
    s.claims != [] ==> s.row.Some? && s.row.value.lastFiredFor == Some(s.claims[|s.claims| - 1])
  }

  /** A successful claim that is not for an older date than the last one claimed. */
  predicate Fresh(s: State, step: Step)
    requires Enabled(s, step)
  {
    step.Claim? && ClaimSucceeds(s, step.r) && s.claims != [] ==> s.runners[step.r].dateKey >= s.claims[|s.claims| - 1]
  }

  predicate AllFresh(s: State, steps: seq<Step>)
    requires Runs(s, steps)
    decreases |steps|
  {
    steps == [] || (Fresh(s, steps[0]) && AllFresh(Apply(s, steps[0]), steps[1..]))
  }

  predicate AlwaysIncreasing(s: State, steps: seq<Step>)
    requires Runs(s, steps)
    decreases |steps|
  {
    Increasing(s.claims) && (steps != [] ==> AlwaysIncreasing(Apply(s, steps[0]), steps[1..]))
  }

  lemma StepKeepsLastClaim(s: State, step: Step)
    requires RowKnowsLastClaim(s) && Enabled(s, step)
    ensures RowKnowsLastClaim(Apply(s, step))
    ensures Increasing(s.claims) ==> (Increasing(Apply(s, step).claims) <==> Fresh(s, step))
  {
    var t := Apply(s, step);
    if step.Claim? && ClaimSucceeds(s, step.r) {
      var d := s.runners[step.r].dateKey;
      assert t.claims == s.claims + [d];
      if s.claims != [] {
        var last := s.claims[|s.claims| - 1];
        assert d != last;
        assert t.claims[|s.claims| - 1] == last && t.claims[|s.claims|] == d;
      }
    }
  }

  /**
   A schedule is claimed at most once per local date. Over every interleaving of any number of runners,
   with restarts and edits, the dates claimed since the boundary last moved stay strictly increasing
   exactly as long as no runner claims an older date than the last one claimed.
   */
  lemma {:induction false} ClaimsIncreaseIff(s: State, steps: seq<Step>)
    requires RowKnowsLastClaim(s) && Increasing(s.claims) && Runs(s, steps)
    ensures AlwaysIncreasing(s, steps) <==> AllFresh(s, steps)
    ensures RowKnowsLastClaim(Exec(s, steps))
    decreases |steps|
  {
    if steps != [] {
      var t := Apply(s, steps[0]);
      StepKeepsLastClaim(s, steps[0]);
      if Increasing(t.claims) {
        ClaimsIncreaseIff(t, steps[1..]);
      } else {
        KeepsLastClaim(t, steps[1..]);
        NotIncreasing(t, steps[1..]);
      }
    }
  }

  lemma {:induction false} KeepsLastClaim(s: State, steps: seq<Step>)
    requires RowKnowsLastClaim(s) && Runs(s, steps)
    ensures RowKnowsLastClaim(Exec(s, steps))
    decreases |steps|
  {
    if steps != [] {
      StepKeepsLastClaim(s, steps[0]);
      KeepsLastClaim(Apply(s, steps[0]), steps[1..]);
    }
  }

  lemma NotIncreasing(s: State, steps: seq<Step>)
    requires Runs(s, steps) && !Increasing(s.claims)
    ensures !AlwaysIncreasing(s, steps)
  {
  }

  // ---- When claims are fresh ----

  function Held(runner: Runner): Option<int> {
    match runner
    case Resting => None
    case Judging(_, local) => Some(local.dateKey)
    case Claiming(d, _, _) => Some(d)
    case Setting(d, _) => Some(d)
  }

  /** No runner, and no past claim, is ahead of the calendar. */
  predicate WithinToday(s: State) {
    && (forall r :: 0 <= r < |s.runners| && Held(s.runners[r]).Some? ==>
          s.today.Some? && Held(s.runners[r]).value <= s.today.value)
    && (forall i :: 0 <= i < |s.claims| ==> s.today.Some? && s.claims[i] <= s.today.value)
  }

  /** A boundary-moving edit, or a removal, comes while no tick is half way. */
  predicate BetweenTicks(s: State, step: Step)
    requires Enabled(s, step)
  {
    step.Make? || step.Remove? || (step.Edit? && MovesBoundary(s.row.value, step.input)) ==>
      forall r :: 0 <= r < |s.runners| ==> s.runners[r].Resting?
  }

  /** The local date read is none that has passed. */
  predicate ReadsForward(s: State, step: Step) {
    step.Read? && step.seen.Some? && s.today.Some? ==> s.today.value <= step.seen.value.dateKey
  }

  /**
   Boundary-moving edits come between ticks, dates do not go back, and claims are made on the day they were judged.
   */
  predicate Orderly(s: State, step: Step)
    requires Enabled(s, step)
  {
    BetweenTicks(s, step) && ReadsForward(s, step) && (step.Claim? ==> s.today == Some(s.runners[step.r].dateKey))
  }

  predicate AllOrderly(s: State, steps: seq<Step>)
    requires Runs(s, steps)
    decreases |steps|
  {
    steps == [] || (Orderly(s, steps[0]) && AllOrderly(Apply(s, steps[0]), steps[1..]))
  }

  /**
   Claims made on the day they were judged are always fresh, so each date is claimed once, however many runners there
   are.
   */
  lemma {:induction false} SameDayClaimsAreFresh(s: State, steps: seq<Step>)
    requires WithinToday(s) && Runs(s, steps) && AllOrderly(s, steps)
    ensures AllFresh(s, steps)
    decreases |steps|
  {
    if steps != [] {
      SameDayClaimsAreFresh(Apply(s, steps[0]), steps[1..]);
    }
  }

  predicate EditsBetweenTicks(s: State, steps: seq<Step>)
    requires Runs(s, steps)
    decreases |steps|
  {
    steps == [] || (BetweenTicks(s, steps[0]) && EditsBetweenTicks(Apply(s, steps[0]), steps[1..]))
  }

  predicate DatesGoForward(s: State, steps: seq<Step>)
    requires Runs(s, steps)
    decreases |steps|
  {
    steps == [] || (ReadsForward(s, steps[0]) && DatesGoForward(Apply(s, steps[0]), steps[1..]))
  }

  /** A single runner holds nothing but the latest date read, so it needs no assumption about claims at all. */
  lemma {:induction false} SingleRunnerIsOrderly(s: State, steps: seq<Step>)
    requires |s.runners| == 1 && (Held(s.runners[0]).Some? ==> s.today == Held(s.runners[0]))
    requires Runs(s, steps) && EditsBetweenTicks(s, steps) && DatesGoForward(s, steps)
    ensures AllOrderly(s, steps)
    decreases |steps|
  {
    if steps != [] { SingleRunnerIsOrderly(Apply(s, steps[0]), steps[1..]); }
  }

  /**
   One hub, any number of restarts in the middle of a tick, any jumps of the local minute: each date is claimed at most
   once.
   */
  lemma OneHubClaimsOnce(mode: SystemMode, steps: seq<Step>)
    requires Runs(Start(1, mode), steps) && EditsBetweenTicks(Start(1, mode), steps)
    requires DatesGoForward(Start(1, mode), steps)
    ensures AlwaysIncreasing(Start(1, mode), steps)
    ensures Increasing(Exec(Start(1, mode), steps).claims)
  {
    var s := Start(1, mode);
    SingleRunnerIsOrderly(s, steps);
    SameDayClaimsAreFresh(s, steps);
    ClaimsIncreaseIff(s, steps);
    AlwaysAtEnd(s, steps);
  }

  lemma {:induction false} AlwaysAtEnd(s: State, steps: seq<Step>)
    requires Runs(s, steps) && AlwaysIncreasing(s, steps)
    ensures Increasing(Exec(s, steps).claims)
    decreases |steps|
  {
    if steps != [] { AlwaysAtEnd(Apply(s, steps[0]), steps[1..]); }
  }

  // ---- The assumption is needed ----

  lemma {:induction false} RunsSnoc(s: State, steps: seq<Step>, step: Step)
    requires Runs(s, steps) && Enabled(Exec(s, steps), step)
    ensures Runs(s, steps + [step]) && Exec(s, steps + [step]) == Apply(Exec(s, steps), step)
    ensures DatesGoForward(s, steps + [step]) <==> DatesGoForward(s, steps) && ReadsForward(Exec(s, steps), step)
    decreases |steps|
  {
    if steps == [] {
      assert ([] + [step])[1..] == [];
    } else {
      assert (steps + [step])[1..] == steps[1..] + [step];
      RunsSnoc(Apply(s, steps[0]), steps[1..], step);
    }
  }

  /**
   One hub is not enough when an edit moves the boundary in the middle of its tick: the claim it then makes is for the
   old zone's date. Its next ticks, a date earlier in the new zone, claim that date and then the same one again.
   */
  lemma MidTickEditFiresTwice() returns (steps: seq<Step>)
    ensures Runs(Start(1, Home), steps) && DatesGoForward(Start(1, Home), steps)
    ensures !EditsBetweenTicks(Start(1, Home), steps)
    ensures Exec(Start(1, Home), steps).claims == [2, 1, 2] && Exec(Start(1, Home), steps).sets == [2, 1, 2]
  {
    var s := Start(1, Home);
    steps := EditedMidTick();
    steps := ClaimAndSet(s, steps);
    steps := ReadAndJudge(s, steps, LocalNow(1000, 1, 1));
    steps := ClaimAndSet(s, steps);
    steps := ReadAndJudge(s, steps, LocalNow(1000, 2, 2));
    steps := ClaimAndSet(s, steps);
    assert Exec(s, steps).claims == [2, 1, 2] && Exec(s, steps).sets == [2, 1, 2];
    var claims := Exec(s, steps).claims;
    assert claims[0] == 2 && claims[1] == 1;
    if EditsBetweenTicks(s, steps) { OneHubClaimsOnce(Home, steps); }
  }

  lemma EditedMidTick() returns (steps: seq<Step>)
    ensures Runs(Start(1, Home), steps) && DatesGoForward(Start(1, Home), steps)
    ensures Exec(Start(1, Home), steps)
         == State(Some(Schedule(true, {}, 1000, Away, "West", None, None)), [Claiming(2, true, Away)], Home, [], [],
             None)
  {
    var s := Start(1, Home);
    var make := Make(Input(true, {}, 0, Away, "UTC"), LocalNow(720, 0, 0));
    var edit := Edit(Input(true, {}, 1000, Away, "West"), LocalNow(960, 1, 1));
    RunsSnoc(s, [], make);
    steps := [] + [make];
    steps := ReadAndJudge(s, steps, LocalNow(0, 2, 2));
    RunsSnoc(s, steps, edit);
    steps := steps + [edit];
    assert Exec(s, steps).runners == [Claiming(2, true, Away)];
  }

  /** The first runner reads the row and judges it due. */
  lemma ReadAndJudge(s: State, steps: seq<Step>, local: LocalNow) returns (more: seq<Step>)
    requires Runs(s, steps) && DatesGoForward(s, steps)
    requires var t := Exec(s, steps);
             && |t.runners| == 1 && t.runners[0].Resting? && t.row.Some? && t.row.value.enabled
                 && t.row.value.mode == Away
             && (t.today.Some? ==> t.today.value <= local.dateKey)
             && EvaluateDue(t.row.value, local, 60).Due?
    ensures Runs(s, more) && DatesGoForward(s, more)
    ensures Exec(s, more)
        == Exec(s, steps).(runners := [Claiming(local.dateKey, true, Away)], today := Some(local.dateKey))
  {
    RunsSnoc(s, steps, Read(0, Some(local)));
    more := steps + [Read(0, Some(local))];
    RunsSnoc(s, more, Judge(0, 0, 60));
    more := more + [Judge(0, 0, 60)];
    assert Exec(s, more).runners == [Claiming(local.dateKey, true, Away)];
  }

  /** The first runner claims its date and changes the mode. */
  lemma ClaimAndSet(s: State, steps: seq<Step>) returns (more: seq<Step>)
    requires Runs(s, steps) && DatesGoForward(s, steps)
    requires var t := Exec(s, steps);
             |t.runners| == 1 && t.runners[0].Claiming? && t.runners[0].fires && ClaimSucceeds(t, 0)
    ensures Runs(s, more) && DatesGoForward(s, more)
    ensures var t := Exec(s, steps);
            var d := t.runners[0].dateKey;
            Exec(s, more) == State(Some(t.row.value.(lastFiredFor := Some(d))), [Resting], t.runners[0].mode,
                                   t.claims + [d], t.sets + [d], t.today)
  {
    RunsSnoc(s, steps, Claim(0));
    more := steps + [Claim(0)];
    RunsSnoc(s, more, SetMode(0));
    more := more + [SetMode(0)];
    assert Exec(s, more).runners == [Resting];
  }

  /** Active every day from midnight. */
  function Nightly(last: int): Schedule { Schedule(true, {}, 0, Away, "UTC", Some(last), None) }

  /** Two hubs, the first stalled with day 1 judged, the second about to claim day 2. */
  lemma TwoHubsHoldDifferentDays() returns (steps: seq<Step>)
    ensures Runs(Start(2, Home), steps)
    ensures Exec(Start(2, Home), steps)
         == State(Some(Nightly(0)), [Claiming(1, true, Away), Claiming(2, true, Away)], Home, [], [], Some(2))
  {
    var s := Start(2, Home);
    steps := [];
    RunsSnoc(s, steps, Make(Input(true, {}, 0, Away, "UTC"), LocalNow(720, 0, 0)));
    steps := steps + [Make(Input(true, {}, 0, Away, "UTC"), LocalNow(720, 0, 0))];
    RunsSnoc(s, steps, Read(0, Some(LocalNow(0, 1, 1))));
    steps := steps + [Read(0, Some(LocalNow(0, 1, 1)))];
    RunsSnoc(s, steps, Judge(0, 0, 60));
    steps := steps + [Judge(0, 0, 60)];
    RunsSnoc(s, steps, Read(1, Some(LocalNow(0, 2, 2))));
    steps := steps + [Read(1, Some(LocalNow(0, 2, 2)))];
    RunsSnoc(s, steps, Judge(1, 0, 60));
    steps := steps + [Judge(1, 0, 60)];
    assert Exec(s, steps).runners == [Claiming(1, true, Away), Claiming(2, true, Away)];
  }

  /** The stale claim of day 1 undoes the claim of day 2, and day 2 fires twice. */
  lemma StaleClaimFiresTwice() returns (steps: seq<Step>)
    ensures Runs(Start(2, Home), steps) && !AllFresh(Start(2, Home), steps)
    ensures Exec(Start(2, Home), steps).claims == [2, 1, 2] && Exec(Start(2, Home), steps).sets == [2, 2]
  {
    var s := Start(2, Home);
    steps := TwoHubsHoldDifferentDays();
    RunsSnoc(s, steps, Claim(1));
    steps := steps + [Claim(1)];
    RunsSnoc(s, steps, SetMode(1));
    steps := steps + [SetMode(1)];
    RunsSnoc(s, steps, Claim(0));
    steps := steps + [Claim(0)];
    RunsSnoc(s, steps, Read(1, Some(LocalNow(5, 2, 2))));
    steps := steps + [Read(1, Some(LocalNow(5, 2, 2)))];
    RunsSnoc(s, steps, Judge(1, 0, 60));
    steps := steps + [Judge(1, 0, 60)];
    RunsSnoc(s, steps, Claim(1));
    steps := steps + [Claim(1)];
    RunsSnoc(s, steps, SetMode(1));
    steps := steps + [SetMode(1)];
    assert Exec(s, steps).claims == [2, 1, 2] && Exec(s, steps).sets == [2, 2];
    ClaimsIncreaseIff(s, steps);
    var claims := Exec(s, steps).claims;
    assert claims[0] == 2 && claims[1] == 1;
    if AlwaysIncreasing(s, steps) { AlwaysAtEnd(s, steps); }
  }
}
