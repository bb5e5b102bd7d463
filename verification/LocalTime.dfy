/**
 Scheduled arming in local wall time. Instants are turned into local time by an arbitrary clock, so
 minutes may jump or repeat (daylight saving); dates are numbers that grow with the calendar.
 */
module LocalTime {
  import opened Options
  import opened AlertRules
  import opened Policy

  datatype LocalNow = LocalNow(minuteOfDay: nat, dayOfWeek: nat, dateKey: int)

  /** An `ArmSchedule` row. No days means every day; `lastFiredFor` is the local date last acted on. */
  datatype Schedule = Schedule(enabled: bool, days: set<nat>, startMinute: nat, mode: SystemMode, zone: string,
                               lastFiredFor: Option<int>, lastFiredAt: Option<int>)

  datatype Verdict = Idle | Due(dateKey: int, late: nat) | Missed(dateKey: int, late: nat)

  function EvaluateDue(schedule: Schedule, local: LocalNow, grace: nat): Verdict {
    if !schedule.enabled then Idle
    else if schedule.days != {} && local.dayOfWeek !in schedule.days then Idle
    else if schedule.lastFiredFor == Some(local.dateKey) then Idle
    else if local.minuteOfDay < schedule.startMinute then Idle
    else
      var late := local.minuteOfDay - schedule.startMinute;
      if late <= grace then Due(local.dateKey, late) else Missed(local.dateKey, late)
  }

  /** A schedule born, or moved, at or past today's boundary first acts tomorrow. */
  function SeedLastFiredFor(startMinute: nat, local: LocalNow): Option<int> {
    if local.minuteOfDay >= startMinute then Some(local.dateKey) else None
  }

  datatype Input = Input(enabled: bool, days: set<nat>, startMinute: nat, mode: SystemMode, zone: string)

  function Create(input: Input, local: LocalNow): Schedule {
    Schedule(input.enabled, input.days, input.startMinute, input.mode, input.zone,
             SeedLastFiredFor(input.startMinute, local), None)
  }

  predicate MovesBoundary(existing: Schedule, input: Input) {
    input.startMinute != existing.startMinute || input.zone != existing.zone
  }

  /** An edit re-seeds the slot only when it moves the boundary. */
  function Update(existing: Schedule, input: Input, local: LocalNow): Schedule {
    Schedule(input.enabled, input.days, input.startMinute, input.mode, input.zone,
             if MovesBoundary(existing, input) then SeedLastFiredFor(input.startMinute, local)
                 else existing.lastFiredFor,
             existing.lastFiredAt)
  }

  datatype Outcome = Nothing | Fired | Held | MissedIt

  /** One tick for one schedule with nobody else writing: verdict, then policy, then the claim. */
  function OutcomeOf(s: Schedule, local: LocalNow, open: nat, grace: nat): Outcome {
    match EvaluateDue(s, local, grace)
    case Idle => Nothing
    case Missed(_, _) => MissedIt
    case Due(_, _) => if CanScheduleSetMode(s.mode, open).Allowed? then Fired else Held
  }

  function AfterTick(s: Schedule, local: LocalNow, open: nat, grace: nat, now: int): Schedule {
    match OutcomeOf(s, local, open, grace)
    case Fired => s.(lastFiredFor := Some(local.dateKey), lastFiredAt := Some(now))
    case MissedIt => s.(lastFiredFor := Some(local.dateKey))
    case _ => s
  }

  // ---- What the rows say ----

  /** Active, its slot for the local date still free, and the boundary reached. */
  predicate ActsNow(s: Schedule, local: LocalNow) {
    && s.enabled && (s.days == {} || local.dayOfWeek in s.days)
    && s.lastFiredFor != Some(local.dateKey) && s.startMinute <= local.minuteOfDay
  }

  /** The verdict, the date it is about and how late it is. */
  lemma VerdictRule(s: Schedule, local: LocalNow, grace: nat)
    ensures var late := local.minuteOfDay - s.startMinute;
            EvaluateDue(s, local, grace)
            == if !ActsNow(s, local) then Idle
               else if late <= grace then Due(local.dateKey, late)
               else Missed(local.dateKey, late)
  {
  }

  /** What one tick does: it fires, is held or is missed exactly as lateness and the open critical alerts say. */
  lemma OutcomeRule(s: Schedule, local: LocalNow, open: nat, grace: nat)
    ensures OutcomeOf(s, local, open, grace) == Nothing <==> !ActsNow(s, local)
    ensures OutcomeOf(s, local, open, grace) == MissedIt <==>
              ActsNow(s, local) && local.minuteOfDay > s.startMinute + grace
    ensures OutcomeOf(s, local, open, grace) == Held <==>
              ActsNow(s, local) && local.minuteOfDay <= s.startMinute + grace && s.mode == Disarmed && open > 0
  {
  }

  /** A row keeps its settings through a tick; its slot is used up by firing or missing, and only firing is timed. */
  lemma TickedRow(s: Schedule, local: LocalNow, open: nat, grace: nat, now: int)
    ensures var t, o := AfterTick(s, local, open, grace, now), OutcomeOf(s, local, open, grace);
            && t.enabled == s.enabled && t.days == s.days && t.startMinute == s.startMinute && t.mode == s.mode
            && t.zone == s.zone
            && t.lastFiredFor == (if o == Fired || o == MissedIt then Some(local.dateKey) else s.lastFiredFor)
            && t.lastFiredAt == if o == Fired then Some(now) else s.lastFiredAt
  {
  }

  /** A row carries what was asked for. */
  predicate Carries(s: Schedule, input: Input) {
    && s.enabled == input.enabled && s.days == input.days && s.startMinute == input.startMinute
    && s.mode == input.mode && s.zone == input.zone
  }

  /** Today's slot counts as used exactly if the boundary has passed. */
  predicate Seeded(s: Schedule, local: LocalNow) {
    s.lastFiredFor == if local.minuteOfDay >= s.startMinute then Some(local.dateKey) else None
  }

  lemma CreatedRow(input: Input, local: LocalNow)
    ensures var s := Create(input, local); Carries(s, input) && Seeded(s, local) && s.lastFiredAt.None?
  {
  }

  /** The slot is seeded anew exactly when the time or the zone moves. */
  lemma UpdatedRow(existing: Schedule, input: Input, local: LocalNow)
    ensures var s := Update(existing, input, local);
            && Carries(s, input) && s.lastFiredAt == existing.lastFiredAt
            && if input.startMinute == existing.startMinute && input.zone == existing.zone
               then s.lastFiredFor == existing.lastFiredFor else Seeded(s, local)
  {
  }

  // ---- A day of ticks ----

  /** What a tick sees: the local time, the open critical alerts, and the instant. */
  datatype Tick = Tick(local: LocalNow, open: nat, now: int)

  function Outcomes(s: Schedule, ticks: seq<Tick>, grace: nat): (os: seq<Outcome>)
    ensures |os| == |ticks|
    decreases |ticks|
  {
    if ticks == [] then []
    else [OutcomeOf(s, ticks[0].local, ticks[0].open, grace)]
         + Outcomes(AfterTick(s, ticks[0].local, ticks[0].open, grace, ticks[0].now), ticks[1..], grace)
  }

  function Final(s: Schedule, ticks: seq<Tick>, grace: nat): Schedule
    decreases |ticks|
  {
    if ticks == [] then s
    else Final(AfterTick(s, ticks[0].local, ticks[0].open, grace, ticks[0].now), ticks[1..], grace)
  }

  /** All the ticks fall on one local date on which the schedule is active. */
  predicate OnDate(s: Schedule, ticks: seq<Tick>, date: int) {
    s.enabled && forall i :: 0 <= i < |ticks| ==>
      ticks[i].local.dateKey == date && (s.days == {} || ticks[i].local.dayOfWeek in s.days)
  }

  predicate HeldBack(s: Schedule, t: Tick, grace: nat) {
    && s.startMinute <= t.local.minuteOfDay <= s.startMinute + grace
    && s.mode == Disarmed && t.open > 0
  }

  /** At or past the boundary, and not held by the policy inside the grace window. */
  predicate Decisive(s: Schedule, t: Tick, grace: nat) {
    t.local.minuteOfDay >= s.startMinute && !HeldBack(s, t, grace)
  }

  /**
   The exact outcome of a day: up to the first decisive tick the schedule is silent or held and its slot
   stays free; that tick fires if it is late by at most the grace and is missed otherwise; nothing follows.
   */
  lemma {:induction false} DayOutcome(s: Schedule, ticks: seq<Tick>, grace: nat, date: int, j: nat)
    requires OnDate(s, ticks, date) && s.lastFiredFor != Some(date)
    requires j <= |ticks| && forall i :: 0 <= i < j ==> !Decisive(s, ticks[i], grace)
    requires j < |ticks| ==> Decisive(s, ticks[j], grace)
    ensures forall i :: 0 <= i < j ==>
        Outcomes(s, ticks, grace)[i] == if HeldBack(s, ticks[i], grace) then Held else Nothing
    ensures j < |ticks| ==> Outcomes(s, ticks, grace)[j]
                            == if ticks[j].local.minuteOfDay <= s.startMinute + grace then Fired else MissedIt
    ensures forall i :: j < i < |ticks| ==> Outcomes(s, ticks, grace)[i] == Nothing
    ensures j == |ticks| ==> Final(s, ticks, grace) == s
    ensures j < |ticks| ==> Final(s, ticks, grace).lastFiredFor == Some(date)
    decreases |ticks|
  {
    if ticks != [] {
      var next := AfterTick(s, ticks[0].local, ticks[0].open, grace, ticks[0].now);
      if j == 0 {
        ClaimedDayIsSilent(next, ticks[1..], grace, date);
      } else {
        DayOutcome(s, ticks[1..], grace, date, j - 1);
      }
    }
  }

  /** Once a local date is claimed, or seeded as claimed, no tick on it does anything. */
  lemma {:induction false} ClaimedDayIsSilent(s: Schedule, ticks: seq<Tick>, grace: nat, date: int)
    requires s.lastFiredFor == Some(date) && forall i :: 0 <= i < |ticks| ==> ticks[i].local.dateKey == date
    ensures forall i :: 0 <= i < |ticks| ==> Outcomes(s, ticks, grace)[i] == Nothing
    ensures Final(s, ticks, grace) == s
    decreases |ticks|
  {
    if ticks != [] { ClaimedDayIsSilent(s, ticks[1..], grace, date); }
  }

  /** A day on which the schedule is switched off, or not active, is silent too. */
  lemma {:induction false} InactiveDayIsSilent(s: Schedule, ticks: seq<Tick>, grace: nat)
    requires !s.enabled || forall i :: 0 <= i < |ticks| ==> s.days != {} && ticks[i].local.dayOfWeek !in s.days
    ensures forall i :: 0 <= i < |ticks| ==> Outcomes(s, ticks, grace)[i] == Nothing
    ensures Final(s, ticks, grace) == s
    decreases |ticks|
  {
    if ticks != [] { InactiveDayIsSilent(s, ticks[1..], grace); }
  }

  /**
   Creating a schedule, or moving its boundary, at or past the boundary yields no outcome that date;
   before it, the day is decided as if the slot had always been free.
   */
  lemma SeededDay(existing: Schedule, input: Input, local: LocalNow, ticks: seq<Tick>, grace: nat, edited: bool)
    requires edited ==> MovesBoundary(existing, input)
    requires forall i :: 0 <= i < |ticks| ==> ticks[i].local.dateKey == local.dateKey
    ensures var s := if edited then Update(existing, input, local) else Create(input, local);
            if local.minuteOfDay >= input.startMinute
            then forall i :: 0 <= i < |ticks| ==> Outcomes(s, ticks, grace)[i] == Nothing
            else s.lastFiredFor != Some(local.dateKey)
  {
    var s := if edited then Update(existing, input, local) else Create(input, local);
    if local.minuteOfDay >= input.startMinute { ClaimedDayIsSilent(s, ticks, grace, local.dateKey); }
  }

  /** An edit that keeps the boundary cannot make a schedule act twice on one date. */
  lemma OtherEditsKeepTheSlot(existing: Schedule, input: Input, local: LocalNow, ticks: seq<Tick>, grace: nat)
    requires !MovesBoundary(existing, input) && existing.lastFiredFor == Some(local.dateKey)
    requires forall i :: 0 <= i < |ticks| ==> ticks[i].local.dateKey == local.dateKey
    ensures forall i :: 0 <= i < |ticks| ==> Outcomes(Update(existing, input, local), ticks, grace)[i] == Nothing
  {
    ClaimedDayIsSilent(Update(existing, input, local), ticks, grace, local.dateKey);
  }
}
