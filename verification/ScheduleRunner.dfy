/** The schedule runner and the schedule table as they run in one hub. */
module ScheduleRunner {
  import opened Options
  import opened AlertRules
  import opened Policy
  import opened LocalTime
  import opened Counting

  const MINUTES_PER_DAY := 24 * 60

  datatype TickResult = TickResult(fired: nat, held: nat, missed: nat) {
    /** `result[outcome] += 1`. */
    function Plus(o: LocalTime.Outcome): TickResult {
      match o
      case Fired => this.(fired := fired + 1)
      case Held => this.(held := held + 1)
      case MissedIt => this.(missed := missed + 1)
      case Nothing => this
    }
  }

  class Runner {
    var schedules: map<string, Schedule>
    var mode: SystemMode
    var openCritical: nat
    var ticking: bool
    const graceMinutes: nat
    /** `localNow`: None when the platform cannot resolve the zone. */
    const clock: (int, string) -> Option<LocalNow>

    constructor (graceMinutes: nat, clock: (int, string) -> Option<LocalNow>, mode: SystemMode)
      ensures this.graceMinutes == graceMinutes && this.clock == clock && this.mode == mode
      ensures schedules == map[] && !ticking
    {
      this.graceMinutes, this.clock, this.mode := graceMinutes, clock, mode;
      schedules, openCritical, ticking := map[], 0, false;
    }

    // ---- Editing ----

    /** An edit is accepted only if every later tick can evaluate it. */
    predicate Acceptable(input: Input, now: int) {
      input.startMinute < MINUTES_PER_DAY && clock(now, input.zone).Some? && forall d <- input.days :: d <= 6
    }

    method CreateSchedule(id: string, input: Input, now: int) returns (saved: Option<Schedule>)
      requires id !in schedules
      modifies this`schedules
      ensures saved.Some? <==>
                input.startMinute < 1440 && clock(now, input.zone).Some? && forall d <- input.days :: d <= 6
      ensures saved.Some? ==>
                && schedules == old(schedules)[id := saved.value]
                && Carries(saved.value, input) && Seeded(saved.value, clock(now, input.zone).value)
                && saved.value.lastFiredAt.None?
      ensures saved.Some? ==> saved.value == Create(input, clock(now, input.zone).value)
      ensures saved.None? ==> schedules == old(schedules)
    {
      if !Acceptable(input, now) { return None; }
      var local := clock(now, input.zone).value;
      var row := Schedule(input.enabled, input.days, input.startMinute, input.mode, input.zone,
                          SeedLastFiredFor(input.startMinute, local), None);
      schedules := schedules[id := row];
      return Some(row);
    }

    /** None for an unknown schedule or an unacceptable edit. */
    method UpdateSchedule(id: string, input: Input, now: int) returns (saved: Option<Schedule>)
      modifies this`schedules
      ensures saved.Some? <==> && id in old(schedules) && input.startMinute < 1440
                               && clock(now, input.zone).Some? && forall d <- input.days :: d <= 6
      ensures saved.Some? ==>
                var existing, local := old(schedules)[id], clock(now, input.zone).value;
                && schedules == old(schedules)[id := saved.value]
                && Carries(saved.value, input) && saved.value.lastFiredAt == existing.lastFiredAt
                && if input.startMinute == existing.startMinute && input.zone == existing.zone
                   then saved.value.lastFiredFor == existing.lastFiredFor else Seeded(saved.value, local)
      ensures saved.Some? ==> saved.value == Update(old(schedules)[id], input, clock(now, input.zone).value)
      ensures saved.None? ==> schedules == old(schedules)
    {
      if id !in schedules { return None; }
      var existing := schedules[id];
      if !Acceptable(input, now) { return None; }
      var local := clock(now, input.zone).value;
      var movedBoundary := input.startMinute != existing.startMinute || input.zone != existing.zone;
      var row := existing.(enabled := input.enabled, days := input.days, startMinute := input.startMinute,
                           mode := input.mode, zone := input.zone);
      if movedBoundary { row := row.(lastFiredFor := SeedLastFiredFor(input.startMinute, local)); }
      schedules := schedules[id := row];
      return Some(row);
    }

    method RemoveSchedule(id: string) returns (found: bool)
      modifies this`schedules
      ensures schedules == old(schedules) - {id} && (found <==> id in old(schedules))
    {
      found := id in schedules;
      schedules := schedules - {id};
    }

    // ---- Ticking ----

    /** What one tick does to one row: nothing if its zone cannot be resolved. */
    function Outcome(s: Schedule, now: int, open: nat): LocalTime.Outcome {
      match clock(now, s.zone) case None => Nothing case Some(local) => OutcomeOf(s, local, open, graceMinutes)
    }

    function Ticked(s: Schedule, now: int, open: nat): Schedule {
      match clock(now, s.zone) case None => s case Some(local) => AfterTick(s, local, open, graceMinutes, now)
    }

    /** A tick acts on an active schedule past its boundary, in its own zone, by its lateness and what is open. */
    lemma TickRule(s: Schedule, now: int, open: nat)
      ensures clock(now, s.zone).None? ==> Outcome(s, now, open) == Nothing && Ticked(s, now, open) == s
      ensures clock(now, s.zone).Some? ==>
                var local, o, t := clock(now, s.zone).value, Outcome(s, now, open), Ticked(s, now, open);
                && (o == Nothing <==> !ActsNow(s, local))
                && (o == MissedIt <==> ActsNow(s, local) && local.minuteOfDay > s.startMinute + graceMinutes)
                && (o == Held ==> s.mode == Disarmed && open > 0)
                && (o == Fired ==> s.mode != Disarmed || open == 0)
                && t == s.(lastFiredFor := t.lastFiredFor, lastFiredAt := t.lastFiredAt)
                && t.lastFiredFor == (if o == Fired || o == MissedIt then Some(local.dateKey) else s.lastFiredFor)
                && t.lastFiredAt == if o == Fired then Some(now) else s.lastFiredAt
    {
      if clock(now, s.zone).Some? {
        OutcomeRule(s, clock(now, s.zone).value, open, graceMinutes);
        TickedRow(s, clock(now, s.zone).value, open, graceMinutes, now);
      }
    }

    lemma DisabledIsQuiet(s: Schedule, now: int, open: nat)
      requires !s.enabled
      ensures Ticked(s, now, open) == s
    {
    }

    /** `UPDATE ... WHERE id AND (lastFiredFor IS NULL OR lastFiredFor <> dateKey)`. */
    method Claim(id: string, dateKey: int, firedAt: Option<int>) returns (claimed: bool)
      modifies this`schedules
      ensures claimed <==> id in old(schedules) && old(schedules)[id].lastFiredFor != Some(dateKey)
      ensures claimed ==> schedules == old(schedules)[id := old(schedules)[id].(lastFiredFor := Some(dateKey),
                            lastFiredAt := if firedAt.Some? then firedAt else old(schedules)[id].lastFiredAt)]
      ensures !claimed ==> schedules == old(schedules)
    {
      if id !in schedules || schedules[id].lastFiredFor == Some(dateKey) { return false; }
      var row := schedules[id];
      schedules := schedules[id := row.(lastFiredFor := Some(dateKey),
                                        lastFiredAt := if firedAt.Some? then firedAt else row.lastFiredAt)];
      return true;
    }

    /** Verdict, policy, claim, mode, in that order, so that a refusal by the policy uses nothing up. */
    method Evaluate(id: string, schedule: Schedule, now: int) returns (outcome: LocalTime.Outcome)
      requires id in schedules && schedules[id] == schedule
      modifies this`schedules, this`mode
      ensures outcome == Outcome(schedule, now, openCritical)
      ensures schedules == old(schedules)[id := Ticked(schedule, now, openCritical)]
      ensures mode == if outcome == Fired then schedule.mode else old(mode)
    {
      var resolved := clock(now, schedule.zone);
      if resolved.None? { return Nothing; }
      var local := resolved.value;
      var verdict := EvaluateDue(schedule, local, graceMinutes);
      match verdict {
        case Idle => return Nothing;
        case Missed(dateKey, _) =>
          var claimed := Claim(id, dateKey, None);
          return if claimed then MissedIt else Nothing;
        case Due(dateKey, _) =>
          var decision := CanScheduleSetMode(schedule.mode, openCritical);
          if !decision.Allowed? { return Held; }
          var claimed := Claim(id, dateKey, Some(now));
          if !claimed { return Nothing; }
          mode := schedule.mode;
          return Fired;
      }
    }

    /** The enabled schedules with a given outcome at this tick. */
    function With(rows: map<string, Schedule>, now: int, open: nat, outcome: LocalTime.Outcome): set<string> {
      set id | id in rows && rows[id].enabled && Outcome(rows[id], now, open) == outcome
    }

    /** One tick over every enabled schedule, in whatever order the database lists them. */
    method Tick(now: int) returns (result: Option<TickResult>)
      modifies this
      ensures openCritical == old(openCritical) && ticking == old(ticking)
      ensures old(ticking) ==> result.None? && schedules == old(schedules) && mode == old(mode)
      ensures !old(ticking) ==>
                && result == Some(TickResult(|With(old(schedules), now, openCritical, Fired)|,
                                             |With(old(schedules), now, openCritical, Held)|,
                                             |With(old(schedules), now, openCritical, MissedIt)|))
                && schedules.Keys == old(schedules).Keys
                && forall id <- old(schedules) :: schedules[id] == Ticked(old(schedules)[id], now, openCritical)
      ensures mode != old(mode) ==>
                exists id :: id in With(old(schedules), now, openCritical, Fired) && mode == old(schedules)[id].mode
    {
      if ticking { return None; }
      ticking := true;
      ghost var rows := schedules;
      var tally, outcomes := EvaluateAll(now);
      ticking := false;
      result := Some(tally);
      forall o | o != Nothing ensures WithKey(outcomes, o) == With(rows, now, openCritical, o) {}
    }

    /** The loop of a tick: every enabled schedule is evaluated once, and the outcomes are tallied. */
    method EvaluateAll(now: int) returns (tally: TickResult, ghost outcomes: map<string, LocalTime.Outcome>)
      modifies this`schedules, this`mode
      ensures outcomes.Keys == set id | id in old(schedules) && old(schedules)[id].enabled
      ensures forall id <- outcomes :: outcomes[id] == Outcome(old(schedules)[id], now, openCritical)
      ensures Tallied(tally, outcomes)
      ensures schedules.Keys == old(schedules).Keys
      ensures forall id <- old(schedules) :: schedules[id] == Ticked(old(schedules)[id], now, openCritical)
      ensures mode != old(mode) ==>
          exists id :: id in outcomes && outcomes[id] == Fired && mode == old(schedules)[id].mode
    {
      var rows := schedules;
      var enabled := set id | id in rows && rows[id].enabled;
      var todo := enabled;
      outcomes, tally := map[], TickResult(0, 0, 0);
      assert forall o: LocalTime.Outcome :: WithKey(outcomes, o) == {};
      while todo != {}
        invariant todo <= enabled && forall id :: id in outcomes <==> id in enabled && id !in todo
        invariant schedules.Keys == rows.Keys
        invariant forall id <- rows ::
                    schedules[id] == if id in outcomes then Ticked(rows[id], now, openCritical) else rows[id]
        invariant forall id <- outcomes :: outcomes[id] == Outcome(rows[id], now, openCritical)
        invariant Tallied(tally, outcomes)
        invariant mode != old(mode) ==> exists id :: id in outcomes && outcomes[id] == Fired && mode == rows[id].mode
        decreases |todo|
      {
        var id :| id in todo;
        todo := todo - {id};
        var outcome := Evaluate(id, rows[id], now);
        TallyOne(tally, outcomes, id, outcome);
        outcomes := outcomes[id := outcome];
        tally := tally.Plus(outcome);
      }
      forall id <- rows | !rows[id].enabled ensures Ticked(rows[id], now, openCritical) == rows[id] {
        DisabledIsQuiet(rows[id], now, openCritical);
      }
    }
  }

  /** Each counter is the number of schedules with that outcome. */
  predicate Tallied(t: TickResult, outcomes: map<string, LocalTime.Outcome>) {
    t == TickResult(|WithKey(outcomes, Fired)|, |WithKey(outcomes, Held)|, |WithKey(outcomes, MissedIt)|)
  }

  lemma CountPlus(outcomes: map<string, LocalTime.Outcome>, id: string, outcome: LocalTime.Outcome,
      o: LocalTime.Outcome)
    requires id !in outcomes
    ensures |WithKey(outcomes[id := outcome], o)| == |WithKey(outcomes, o)| + if o == outcome then 1 else 0
  {
    var before, after := WithKey(outcomes, o), WithKey(outcomes[id := outcome], o);
    assert id !in before;
    assert after == if o == outcome then before + {id} else before;
  }

  lemma TallyOne(t: TickResult, outcomes: map<string, LocalTime.Outcome>, id: string, outcome: LocalTime.Outcome)
    requires Tallied(t, outcomes) && id !in outcomes
    ensures Tallied(t.Plus(outcome), outcomes[id := outcome])
  {
    CountPlus(outcomes, id, outcome, Fired);
    CountPlus(outcomes, id, outcome, Held);
    CountPlus(outcomes, id, outcome, MissedIt);
  }
}
