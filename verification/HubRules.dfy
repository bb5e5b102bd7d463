/**
 What each step of the hub does, told by the fields it changes, and where every alert of a sensor comes from. `t` is
 always the state after the step.
 */
module HubRules {
  import opened Options
  import opened AlertRules
  import opened Policy
  import opened Hub
  import opened HubProofs
  import opened HubTheorems
  import opened Timeline
  import EventLog

  // ---- Sensor alerts ----

  /** What a sensor event asks for in a mode. */
  predicate Asks(event: EventLog.EventType, mode: SystemMode, kind: AlertType, severity: Severity) {
    match event
    case MotionDetected => mode == Away && kind == IntrusionMotion && severity == Critical
    case CameraMotion => mode == Away && kind == AlertType.CameraMotion && severity == Warning
    case DoorOpened =>
      mode != Disarmed && kind == IntrusionDoor && severity == if mode == Away then Critical else Warning
    case DoorClosed => false
  }

  lemma RulesAsk(event: EventLog.EventType, mode: SystemMode, kind: AlertType, severity: Severity)
    ensures Evaluate(event, mode) == Some(Outcome(kind, severity)) <==> Asks(event, mode, kind, severity)
  {
  }

  /** An open alert of this type and agent lies inside the cooldown. */
  predicate Covered(s: State, c: Config, kind: AlertType, agent: string) {
    c.cooldownMs > 0 && exists id <- s.alerts ::
      && s.alerts[id].kind == kind && s.alerts[id].agent == agent && s.alerts[id].ackedAt.None?
      && s.clock - s.alerts[id].at <= c.cooldownMs
  }

  /** The event asks for an alert in the mode the system is in, and none of that type and agent covers it. */
  predicate Passes(s: State, c: Config, agent: string, event: EventLog.EventType) {
    exists kind, severity :: Asks(event, s.mode, kind, severity) && !Covered(s, c, kind, agent)
  }

  /**
   An event is let through exactly when it asks for an alert in the mode the system is in, and none of that type and
   agent is open inside the cooldown; that mode is what it will be raised under.
   */
  lemma JudgeRule(s: State, c: Config, k: nat, t: State)
    requires Enabled(s, c, Judge(k)) && t == Apply(s, c, Judge(k))
    ensures var Recorded(agent, event) := s.flights[k];
            t == s.(flights := if Passes(s, c, agent, event) then s.flights[k := Passed(agent, event, s.mode)]
                               else s.flights - {k})
  {
    var Recorded(agent, event) := s.flights[k];
    var o := Evaluate(event, s.mode);
    if o.Some? {
      RulesAsk(event, s.mode, o.value.kind, o.value.severity);
      assert Suppressed(s, c, o.value.kind, agent) <==> Covered(s, c, o.value.kind, agent);
    }
    forall kind, severity | Asks(event, s.mode, kind, severity) ensures o == Some(Outcome(kind, severity)) {
      RulesAsk(event, s.mode, kind, severity);
    }
  }

  /** The alert inserted is the one asked for in the mode the event was judged in. */
  lemma InsertRule(s: State, c: Config, k: nat, t: State, kind: AlertType, severity: Severity)
    requires Enabled(s, c, Insert(k)) && t == Apply(s, c, Insert(k))
    requires Asks(s.flights[k].event, s.flights[k].mode, kind, severity)
    ensures var alert := Alert(kind, severity, s.flights[k].agent, s.clock, None);
            t == s.(alerts := s.alerts[|s.raised| := alert], raised := s.raised + [alert], flights := s.flights - {k})
  {
    RulesAsk(s.flights[k].event, s.flights[k].mode, kind, severity);
  }

  // ---- Silence and recovery ----

  /**
   The sweep turns to the next agent exactly when this one's alert lies inside the cooldown, else it keeps the mode.
   */
  lemma CheckRule(s: State, c: Config, t: State)
    requires Enabled(s, c, CheckNext) && t == Apply(s, c, CheckNext)
    ensures var todo := s.phase.todo;
            if Covered(s, c, AgentOffline, todo[0])
            then t == s.(phase := t.phase) && t.phase == s.phase.(todo := todo[1..], checked := None)
            else t == s.(phase := t.phase) && t.phase == s.phase.(checked := Some(s.mode))
  {
    assert Suppressed(s, c, AgentOffline, s.phase.todo[0]) <==> Covered(s, c, AgentOffline, s.phase.todo[0]);
  }

  /** A silence alerts in every mode, critically unless the system was disarmed when it was checked. */
  lemma RaiseRule(s: State, c: Config, t: State)
    requires Enabled(s, c, RaiseNext) && t == Apply(s, c, RaiseNext)
    ensures var severity := if s.phase.checked == Some(Disarmed) then Warning else Critical;
            var alert := Alert(AgentOffline, severity, s.phase.todo[0], s.clock, None);
            && t.alerts == s.alerts[|s.raised| := alert] && t.raised == s.raised + [alert]
            && t.phase == s.phase.(todo := s.phase.todo[1..], checked := None)
            && t == s.(alerts := t.alerts, raised := t.raised, phase := t.phase)
  {
  }

  /** A recovery acknowledges, now, exactly the open offline alerts of its agent. */
  lemma SettleRule(s: State, c: Config, k: nat, t: State)
    requires Enabled(s, c, Settle(k)) && t == Apply(s, c, Settle(k))
    ensures t == s.(alerts := t.alerts, flights := s.flights[k := Settled(s.flights[k].call)])
    ensures t.alerts.Keys == s.alerts.Keys && forall id <- s.alerts ::
              var a := s.alerts[id];
              t.alerts[id] == if a.kind == AgentOffline && a.agent == s.flights[k].call.agent && a.ackedAt.None?
                              then a.(ackedAt := Some(s.clock)) else a
  {
  }

  lemma NotifyRule(s: State, c: Config, k: nat, t: State)
    requires Enabled(s, c, Notify(k)) && t == Apply(s, c, Notify(k))
    ensures var alert := Alert(AgentRecovered, Info, s.flights[k].call.agent, s.clock, None);
            && t.alerts == s.alerts[|s.raised| := alert] && t.raised == s.raised + [alert]
            && t == s.(alerts := t.alerts, raised := t.raised, flights := t.flights)
  {
  }

  // ---- Agents ----

  /** Row by row: a sign of life, a browser camera, a batch marked offline, and nothing else. */
  lemma RowRule(s: State, c: Config, step: Step, t: State, a: string)
    requires Enabled(s, c, step) && t == Apply(s, c, step)
    ensures var known := a in s.agents;
            if step.Write? && s.flights[step.k].call.agent == a && (known || s.flights[step.k].call.Enrollment?) then
              var call := s.flights[step.k].call;
              && a in t.agents && t.agents[a].status == Online && t.agents[a].lastSeen == s.clock
              && t.agents[a].origin == (if known then s.agents[a].origin else Device)
              && t.agents[a].location == if call.Enrollment? then call.location else s.agents[a].location
            else if step.ProvisionBrowser? && step.agent == a then
              a in t.agents && t.agents[a] == Agent(Online, Browser, s.clock, step.location, 0)
            else if step.FlipBatch? && known && s.agents[a].status == Online && s.agents[a].origin == Device
                    && s.agents[a].lastSeen + c.timeoutMs < s.phase.now then
              a in t.agents && t.agents[a] == s.agents[a].(status := Offline, episode := |s.raised|)
            else
              (a in t.agents <==> known) && (known ==> t.agents[a] == s.agents[a])
  {
    if !MovesAgents(step) { AgentsFrame(s, c, step); }
  }

  /** The first statement keeps the status it reads, for an agent the hub knows or one that may enroll. */
  lemma ReadRule(s: State, c: Config, call: Call, t: State)
    requires Enabled(s, c, Read(call)) && t == Apply(s, c, Read(call))
    ensures var known := call.agent in s.agents;
            if (if call.Enrollment? then !("browser-" <= call.agent) else known)
            then t == s.(next := s.next + 1, flights := s.flights[s.next :=
                           Loaded(call, known && s.agents[call.agent].status == Offline)])
            else t == s
  {
  }

  // ---- The sweep ----

  /** A boot starts the clock of the grace period and owes a repair; no table is touched. */
  lemma BootRule(s: State, c: Config, t: State)
    requires FlightsInv(s) && Enabled(s, c, Boot) && t == Apply(s, c, Boot)
    ensures t.up && t.bootedAt == s.clock && !t.reconciled && t.flights == map[]
    ensures t.agents == s.agents && t.alerts == s.alerts && t.raised == s.raised && t.mode == s.mode
  {
  }

  /** A tick does nothing in the grace period; past it the first one of a process selects for the repair. */
  lemma BeginRule(s: State, c: Config, t: State)
    requires Enabled(s, c, BeginSweep) && t == Apply(s, c, BeginSweep)
    ensures if s.clock < s.bootedAt + c.timeoutMs then t == s.(lastTick := s.clock)
            else t == s.(phase := t.phase, reconciled := true)
                 && t.phase == if s.reconciled then Flipping(s.clock) else Selecting(s.clock)
  {
  }

  /** The repair lists exactly the silent devices with no open offline alert, each once. */
  lemma SelectRule(s: State, c: Config, order: seq<string>, t: State)
    requires Enabled(s, c, Select(order)) && t == Apply(s, c, Select(order))
    ensures forall a :: a in order <==>
              && a in s.agents && s.agents[a].status == Offline && s.agents[a].origin == Device
              && forall id <- s.alerts ::
                   s.alerts[id].kind == AgentOffline && s.alerts[id].agent == a ==> s.alerts[id].ackedAt.Some?
    ensures forall i, j :: 0 <= i < j < |order| ==> order[i] != order[j]
    ensures t == s.(phase := Repairing(s.phase.now, order, None))
  {
    forall a ensures a in order <==> a in Unannounced(s) { }
  }

  /** A failing raise ends the repair, but in a batch costs that agent only. */
  lemma FailRule(s: State, c: Config, t: State)
    requires Enabled(s, c, RaiseFails) && t == Apply(s, c, RaiseFails)
    ensures t == s.(phase := t.phase)
    ensures t.phase == if s.phase.Repairing? then Flipping(s.phase.now)
        else Raising(s.phase.now, s.phase.todo[1..], None)
  {
  }

  /** This process, or the next one, has still to ask who is unannounced. */
  predicate OwesRepair(s: State) { !s.up || !s.reconciled || s.phase.Selecting? }

  /** Nothing is marked offline by a process before its repair has asked who is unannounced. */
  lemma {:induction false} RepairComesFirst(s: State, c: Config, steps: seq<Step>, i: nat) returns (j: nat)
    requires BaseInv(s, c) && OwesRepair(s) && Runs(s, c, steps)
    requires i < |steps| && steps[i].FlipBatch?
    ensures j < i && (steps[j].Select? || steps[j].SelectFails?)
    decreases |steps|
  {
    var t := Apply(s, c, steps[0]);
    StepKeepsBase(s, c, steps[0]);
    if steps[0].Select? || steps[0].SelectFails? {
      j := 0;
      assert i != 0;
    } else {
      StillOwed(s, c, steps[0]);
      j := RepairComesFirst(t, c, steps[1..], i - 1);
      j := j + 1;
    }
  }

  lemma StillOwed(s: State, c: Config, step: Step)
    requires Timing(s, c) && OwesRepair(s) && Enabled(s, c, step)
    requires !step.Select? && !step.SelectFails?
    ensures !step.FlipBatch? && OwesRepair(Apply(s, c, step))
  {
    match step
    case Write(_) =>
    case _ =>
  }

  // ---- Housekeeping ----

  /** A prune may take exactly alerts that are acknowledged and older than its window. */
  lemma PruneRule(s: State, c: Config, days: nat, ids: set<nat>)
    requires s.up && days > 0
    ensures Enabled(s, c, PruneAlerts(days, ids)) <==>
              forall id <- ids :: && id in s.alerts && s.alerts[id].ackedAt.Some?
                                  && s.alerts[id].at < s.clock - days * DAY_MS
  {
  }

  // ---- Where sensor alerts come from ----

  lemma {:induction false} RunsInit(s: State, c: Config, steps: seq<Step>)
    requires steps != [] && Runs(s, c, steps)
    ensures var init, last := steps[..|steps| - 1], steps[|steps| - 1];
            && Runs(s, c, init) && Enabled(Exec(s, c, init), c, last)
            && Exec(s, c, steps) == Apply(Exec(s, c, init), c, last)
    decreases |steps|
  {
    if |steps| > 1 {
      var rest := steps[1..];
      RunsInit(Apply(s, c, steps[0]), c, rest);
      assert rest[..|rest| - 1] == steps[..|steps| - 1][1..] && rest[|rest| - 1] == steps[|steps| - 1];
    } else {
      assert steps[1..] == [];
    }
  }

  /** Step `j` of the run judged this event of this agent, in this mode. */
  predicate WasJudged(now: nat, c: Config, steps: seq<Step>, j: nat, agent: string, event: EventLog.EventType,
      mode: SystemMode)
  {
    && j < |steps| && steps[j].Judge? && Runs(Fresh(now), c, steps[..j])
    && var s := Exec(Fresh(now), c, steps[..j]);
       steps[j].k in s.flights && s.flights[steps[j].k] == Recorded(agent, event) && s.mode == mode
  }

  ghost predicate FlightJudged(now: nat, c: Config, steps: seq<Step>, f: Flight) {
    f.Passed? ==> exists j :: WasJudged(now, c, steps, j, f.agent, f.event, f.mode)
  }

  predicate OfSensor(a: Alert) { a.kind != AgentOffline && a.kind != AgentRecovered }

  ghost predicate AlertJudged(now: nat, c: Config, steps: seq<Step>, a: Alert) {
    OfSensor(a) ==> exists j, event, mode ::
      WasJudged(now, c, steps, j, a.agent, event, mode) && Asks(event, mode, a.kind, a.severity)
  }

  lemma JudgedLonger(now: nat, c: Config, steps: seq<Step>, more: seq<Step>, j: nat, agent: string,
                     event: EventLog.EventType, mode: SystemMode)
    requires WasJudged(now, c, steps, j, agent, event, mode) && |steps| <= |more| && more[..|steps|] == steps
    ensures WasJudged(now, c, more, j, agent, event, mode)
  {
    assert more[..j] == steps[..j] && more[j] == more[..|steps|][j];
  }

  lemma FlightLonger(now: nat, c: Config, steps: seq<Step>, more: seq<Step>, f: Flight)
    requires FlightJudged(now, c, steps, f) && |steps| <= |more| && more[..|steps|] == steps
    ensures FlightJudged(now, c, more, f)
  {
    if f.Passed? {
      var j :| WasJudged(now, c, steps, j, f.agent, f.event, f.mode);
      JudgedLonger(now, c, steps, more, j, f.agent, f.event, f.mode);
    }
  }

  lemma AlertLonger(now: nat, c: Config, steps: seq<Step>, more: seq<Step>, a: Alert)
    requires AlertJudged(now, c, steps, a) && |steps| <= |more| && more[..|steps|] == steps
    ensures AlertJudged(now, c, more, a)
  {
    if OfSensor(a) {
      var j, event, mode :| WasJudged(now, c, steps, j, a.agent, event, mode) && Asks(event, mode, a.kind, a.severity);
      JudgedLonger(now, c, steps, more, j, a.agent, event, mode);
    }
  }

  /** The first statement of a request. */
  predicate Starts(step: Step) { step.Read? || step.Decide? || step.DecideSchedule? }

  /** Only judging starts a passed flight. */
  lemma PassedBefore(s: State, c: Config, step: Step, k: nat)
    requires Enabled(s, c, step) && k in Apply(s, c, step).flights && Apply(s, c, step).flights[k].Passed?
    requires !(step.Judge? && step.k == k)
    ensures k in s.flights && s.flights[k] == Apply(s, c, step).flights[k]
  {
    if (Continues(step) && k == step.k) || (Starts(step) && k == s.next) {
      OwnIsNotPassed(s, c, step, k);
    } else if !step.Stop? {
      FlightsFrame(s, c, step, k);
    }
  }

  /** No step but judging leaves its own request, or a new one, passed. */
  lemma OwnIsNotPassed(s: State, c: Config, step: Step, k: nat)
    requires Enabled(s, c, step) && !step.Judge? && k in Apply(s, c, step).flights
    requires (Continues(step) && k == step.k) || (Starts(step) && k == s.next)
    ensures !Apply(s, c, step).flights[k].Passed? || (k in s.flights && s.flights[k] == Apply(s, c, step).flights[k])
  {
    match step
    case Write(_) =>
    case _ =>
  }

  lemma FlightsJudged(now: nat, c: Config, steps: seq<Step>, k: nat)
    requires steps != [] && Runs(Fresh(now), c, steps) && k in Exec(Fresh(now), c, steps).flights
    requires var init := steps[..|steps| - 1];
             Runs(Fresh(now), c, init) && forall i <- Exec(Fresh(now), c, init).flights ::
               FlightJudged(now, c, init, Exec(Fresh(now), c, init).flights[i])
    ensures FlightJudged(now, c, steps, Exec(Fresh(now), c, steps).flights[k])
  {
    var init, last := steps[..|steps| - 1], steps[|steps| - 1];
    RunsInit(Fresh(now), c, steps);
    var s, t := Exec(Fresh(now), c, init), Exec(Fresh(now), c, steps);
    if t.flights[k].Passed? {
      if last.Judge? && last.k == k {
        JudgeRule(s, c, k, t);
        assert WasJudged(now, c, steps, |init|, t.flights[k].agent, t.flights[k].event, t.flights[k].mode);
      } else {
        PassedBefore(s, c, last, k);
        FlightLonger(now, c, init, steps, t.flights[k]);
      }
    }
  }

  lemma NewAlertJudged(now: nat, c: Config, init: seq<Step>, s: State, last: Step)
    requires Enabled(s, c, last) && Inserts(s, c, last).Some?
    requires forall i <- s.flights :: FlightJudged(now, c, init, s.flights[i])
    ensures var p := Inserts(s, c, last).value;
            AlertJudged(now, c, init, Alert(p.outcome.kind, p.outcome.severity, p.agent, s.clock, None))
  {
    var p := Inserts(s, c, last).value;
    WhoInserts(s, c, last);
    if last.Insert? {
      var f := s.flights[last.k];
      RulesAsk(f.event, f.mode, p.outcome.kind, p.outcome.severity);
      assert FlightJudged(now, c, init, f);
    }
  }

  lemma {:induction false} AllJudged(now: nat, c: Config, steps: seq<Step>)
    requires Runs(Fresh(now), c, steps)
    ensures var t := Exec(Fresh(now), c, steps);
            && (forall k <- t.flights :: FlightJudged(now, c, steps, t.flights[k]))
            && (forall i :: 0 <= i < |t.raised| ==> AlertJudged(now, c, steps, t.raised[i]))
    decreases |steps|
  {
    if steps != [] {
      var init, last := steps[..|steps| - 1], steps[|steps| - 1];
      RunsInit(Fresh(now), c, steps);
      AllJudged(now, c, init);
      var s, t := Exec(Fresh(now), c, init), Exec(Fresh(now), c, steps);
      forall k <- t.flights ensures FlightJudged(now, c, steps, t.flights[k]) { FlightsJudged(now, c, steps, k); }
      InsertsFrame(s, c, last);
      if Inserts(s, c, last).Some? { NewAlertJudged(now, c, init, s, last); }
      forall i | 0 <= i < |t.raised| ensures AlertJudged(now, c, steps, t.raised[i]) {
        AlertLonger(now, c, init, steps, t.raised[i]);
      }
    }
  }

  /**
   Over every run and every interleaving, each alert of a sensor ever raised goes back to one judging of an event of
   that very agent, and has the type and severity that event asks for in the mode the system was in at that moment.
   */
  lemma SensorAlertsWereAskedFor(now: nat, c: Config, steps: seq<Step>, i: nat)
    returns (j: nat, event: EventLog.EventType, mode: SystemMode)
    requires Runs(Fresh(now), c, steps) && i < |Exec(Fresh(now), c, steps).raised|
    requires Exec(Fresh(now), c, steps).raised[i].kind !in {AgentOffline, AgentRecovered}
    ensures var a := Exec(Fresh(now), c, steps).raised[i];
            WasJudged(now, c, steps, j, a.agent, event, mode) && Asks(event, mode, a.kind, a.severity)
  {
    var a := Exec(Fresh(now), c, steps).raised[i];
    AllJudged(now, c, steps);
    assert AlertJudged(now, c, steps, a);
    j, event, mode :| WasJudged(now, c, steps, j, a.agent, event, mode) && Asks(event, mode, a.kind, a.severity);
  }

  /** So no sensor raises anything while events are judged in a disarmed system. */
  lemma DisarmedIsQuiet(now: nat, c: Config, steps: seq<Step>, i: nat)
    requires Runs(Fresh(now), c, steps) && i < |Exec(Fresh(now), c, steps).raised|
    requires forall j, agent, event, mode :: WasJudged(now, c, steps, j, agent, event, mode) ==> mode == Disarmed
    ensures Exec(Fresh(now), c, steps).raised[i].kind in {AgentOffline, AgentRecovered}
  {
    if Exec(Fresh(now), c, steps).raised[i].kind !in {AgentOffline, AgentRecovered} {
      var j, event, mode := SensorAlertsWereAskedFor(now, c, steps, i);
    }
  }
}
