/**
 The hub's services as they run, over tables updated in place. Whatever else the hub does goes on between any two of
 their statements. Each method is shown to be a run of the state machine, so its theorems hold of these methods.
 */
module HubService {
  import opened Options
  import opened AlertRules
  import opened Policy
  import opened Hub
  import opened HubProofs
  import opened HubTheorems
  import opened HubRules
  import opened Counting
  import EventLog
  import Timeline

  // ---- Stretches of a run ----

  predicate Leads(s: State, c: Config, steps: seq<Step>, t: State) { Runs(s, c, steps) && Exec(s, c, steps) == t }

  lemma {:induction false} RunsAppend(s: State, c: Config, xs: seq<Step>, ys: seq<Step>)
    requires Runs(s, c, xs) && Runs(Exec(s, c, xs), c, ys)
    ensures Runs(s, c, xs + ys) && Exec(s, c, xs + ys) == Exec(Exec(s, c, xs), c, ys)
    decreases |xs|
  {
    if xs == [] {
      assert xs + ys == ys;
    } else {
      assert (xs + ys)[1..] == xs[1..] + ys;
      RunsAppend(Apply(s, c, xs[0]), c, xs[1..], ys);
    }
  }

  lemma LeadsOn(s: State, c: Config, xs: seq<Step>, t: State, ys: seq<Step>, u: State)
    requires Leads(s, c, xs, t) && Leads(t, c, ys, u)
    ensures Leads(s, c, xs + ys, u)
  {
    RunsAppend(s, c, xs, ys);
  }

  lemma StepLeads(s: State, c: Config, xs: seq<Step>, t: State, step: Step)
    requires Leads(s, c, xs, t) && Enabled(t, c, step)
    ensures Leads(s, c, xs + [step], Apply(t, c, step))
  {
    assert [step][1..] == [];
    LeadsOn(s, c, xs, t, [step], Apply(t, c, step));
  }

  lemma OneStep(s: State, c: Config, step: Step)
    requires Enabled(s, c, step)
    ensures Leads(s, c, [step], Apply(s, c, step))
  {
    StepLeads(s, c, [], s, step);
    assert [] + [step] == [step];
  }

  // ---- What an `await` lets through ----

  predicate OfSweep(step: Step) {
    || step.BeginSweep? || step.Select? || step.SelectFails? || step.CheckNext? || step.RaiseNext? || step.RaiseFails?
    || step.EndRepair? || step.FlipBatch? || step.FlipFails? || step.EndSweep?
  }

  /** A step of anybody else: not of these requests and, when a sweep is waiting, not of that sweep. */
  predicate Foreign(step: Step, mine: set<nat>, sweep: bool) {
    !step.Boot? && !step.Stop? && (Continues(step) ==> step.k !in mine) && (sweep ==> !OfSweep(step))
  }

  predicate AllForeign(steps: seq<Step>, mine: set<nat>, sweep: bool) {
    forall step <- steps :: Foreign(step, mine, sweep)
  }

  /** What whoever waits finds unchanged. */
  predicate Around(s: State, t: State, mine: set<nat>, sweep: bool) {
    && t.up == s.up && t.bootedAt == s.bootedAt && s.clock <= t.clock && s.next <= t.next
    && (forall k <- mine :: k in s.flights && k in t.flights && t.flights[k] == s.flights[k])
    && (sweep ==> t.phase == s.phase && t.reconciled == s.reconciled && t.lastTick == s.lastTick)
  }

  lemma ForeignKeepsProcess(s: State, c: Config, step: Step, mine: set<nat>, sweep: bool)
    requires Enabled(s, c, step) && Foreign(step, mine, sweep)
    ensures var t := Apply(s, c, step);
            && t.up == s.up && t.bootedAt == s.bootedAt && s.clock <= t.clock && s.next <= t.next
            && (sweep ==> t.phase == s.phase && t.reconciled == s.reconciled && t.lastTick == s.lastTick)
  {
    match step
    case Write(_) =>
    case _ =>
  }

  lemma ForeignStep(s: State, c: Config, step: Step, mine: set<nat>, sweep: bool)
    requires FlightsInv(s) && Enabled(s, c, step) && Foreign(step, mine, sweep) && mine <= s.flights.Keys
    ensures Around(s, Apply(s, c, step), mine, sweep)
  {
    ForeignKeepsProcess(s, c, step, mine, sweep);
    forall k <- mine ensures k in Apply(s, c, step).flights && Apply(s, c, step).flights[k] == s.flights[k] {
      FlightsFrame(s, c, step, k);
    }
  }

  lemma FlipIs(s: State, c: Config, order: seq<string>)
    requires s.up && s.phase.Flipping? && IsListing(order, Stale(s, s.phase.now - c.timeoutMs))
    ensures Enabled(s, c, FlipBatch(order))
    ensures Apply(s, c, FlipBatch(order))
         == Flip(s, Stale(s, s.phase.now - c.timeoutMs))
             .(phase := Raising(s.phase.now, order, None), lastTick := s.phase.now)
  {
  }

  // ---- Deleted rows ----

  /** No acknowledged alert older than this is left. */
  predicate NoneAged(alerts: Alerts, cutoff: int) {
    forall id <- alerts :: cutoff <= alerts[id].at || alerts[id].ackedAt.None?
  }

  /** Deleted rows, whose numbers are never used again. */
  predicate Gone(s: State, ids: set<nat>) { ids !! s.alerts.Keys && forall id <- ids :: id < |s.raised| }

  lemma MoreGone(s: State, t: State, ids: set<nat>, more: set<nat>)
    requires Gone(s, ids) && AddsLater(s, t) && Gone(t, more) && more <= s.alerts.Keys
    ensures Gone(t, ids + more) && |ids + more| == |ids| + |more|
  {
    assert ids !! more;
  }

  lemma PruneIsStep(s: State, c: Config, days: nat, ids: set<nat>)
    requires BaseInv(s, c) && s.up && days > 0 && ids <= Prunable(s, days)
    ensures var t := s.(alerts := s.alerts - ids);
            Leads(s, c, [Step.PruneAlerts(days, ids)], t) && BaseInv(t, c) && AddsLater(s, t) && Gone(t, ids)
  {
    assert forall id <- ids :: Row(s, id);
    OneStep(s, c, Step.PruneAlerts(days, ids));
    StepKeepsBase(s, c, Step.PruneAlerts(days, ids));
  }

  /** New rows are numbered past everything raised before. */
  predicate AddsLater(s: State, t: State) {
    |s.raised| <= |t.raised| && forall id <- t.alerts :: id in s.alerts || |s.raised| <= id
  }

  lemma {:induction false} RunAddsLater(s: State, c: Config, steps: seq<Step>)
    requires Tables(s) && Runs(s, c, steps)
    ensures AddsLater(s, Exec(s, c, steps))
    decreases |steps|
  {
    if steps != [] {
      StepKeepsTables(s, c, steps[0]);
      StepEvolves(s, c, steps[0]);
      RunAddsLater(Apply(s, c, steps[0]), c, steps[1..]);
    }
  }

  /** The rows of a query, in whatever order the database returns them. */
  method FindMany(rows: set<string>) returns (order: seq<string>)
    ensures IsListing(order, rows)
  {
    order := [];
    var rest := rows;
    while rest != {}
      invariant forall i, j :: 0 <= i < j < |order| ==> order[i] != order[j]
      invariant rest <= rows && forall a <- order :: a in rows && a !in rest
      invariant forall a <- rows :: a in order || a in rest
      decreases |rest|
    {
      var a :| a in rest;
      order, rest := order + [a], rest - {a};
    }
  }

  datatype SweepOutcome = Graced | Skipped | Failed | Swept

  /** Nothing is done for this request but that it may fail. */
  predicate OnlyDrops(steps: seq<Step>, k: nat) {
    forall step <- steps :: Continues(step) && step.k == k ==> step.Drop?
  }

  predicate NoRecovery(steps: seq<Step>, k: nat) { Settle(k) !in steps && Notify(k) !in steps }

  /** How a request ended: refused for its agent, given up over a failing statement, or through. */
  datatype Reply = Refused | Broken | Done

  class Service {
    const config: Config
    var agents: Agents
    var alerts: Alerts
    var raised: seq<Alert>
    var mode: SystemMode
    var clock: int
    var up: bool
    var bootedAt: int
    var sweeping: bool
    var reconciled: bool
    var phase: Phase
    var flights: map<nat, Flight>
    var next: nat
    var lastTick: int

    function View(): State
      reads this
    {
      State(agents, alerts, raised, mode, clock, up, bootedAt, reconciled, phase, flights, next, lastTick)
    }

    /** A running hub in a state of the machine; the flag is up while a sweep runs. */
    predicate Valid()
      reads this
    {
      up && BaseInv(View(), config) && (sweeping <==> !phase.Resting?)
    }

    constructor (config: Config, now: nat)
      ensures View() == Fresh(now) && this.config == config && BaseInv(View(), config)
    {
      this.config := config;
      agents, alerts, raised, mode, clock := map[], map[], [], Disarmed, now;
      up, bootedAt, sweeping, reconciled := false, now, false, false;
      phase, flights, next, lastTick := Resting, map[], 0, now;
      new;
      FreshInv(now, config, "");
    }

    /** Start of a hub process over the tables the last one left. */
    method OnModuleInit()
      requires !up && BaseInv(View(), config)
      modifies this
      ensures View() == Apply(old(View()), config, Boot) && Valid()
    {
      up, bootedAt, sweeping, reconciled := true, clock, false, false;
      lastTick := clock;
      StepKeepsBase(old(View()), config, Boot);
    }

    // ---- Between two statements ----

    /** The process has made this step. */
    method Take(ghost s: State, step: Step)
      requires s == View() && BaseInv(s, config) && Enabled(s, config, step) && !step.Boot? && !step.Stop? && up
      modifies this
      ensures View() == Apply(s, config, step) && Valid()
    {
      StepKeepsBase(s, config, step);
      ForeignKeepsProcess(s, config, step, {}, false);
      Store(Apply(View(), config, step));
    }

    method Store(t: State)
      modifies this
      ensures View() == t && (sweeping <==> !phase.Resting?)
    {
      agents, alerts, raised, mode, clock, up, bootedAt, reconciled, phase, flights, next, lastTick, sweeping :=
        t.agents, t.alerts, t.raised, t.mode, t.clock, t.up, t.bootedAt, t.reconciled, t.phase, t.flights, t.next,
        t.lastTick, !t.phase.Resting?;
    }

    /** What an `await` lets through: any number of steps of anybody else. */
    method Await(mine: set<nat>, sweep: bool) returns (ghost steps: seq<Step>)
      requires Valid() && mine <= flights.Keys
      modifies this
      ensures Valid() && Leads(old(View()), config, steps, View())
      ensures AllForeign(steps, mine, sweep) && Around(old(View()), View(), mine, sweep)
    {
      steps := [];
      var n: nat :| true;
      for i := 0 to n
        invariant Valid() && Leads(old(View()), config, steps, View())
        invariant AllForeign(steps, mine, sweep) && Around(old(View()), View(), mine, sweep)
      {
        var step: Step := *;
        if Enabled(View(), config, step) && Foreign(step, mine, sweep) {
          ghost var before := View();
          ForeignStep(before, config, step, mine, sweep);
          StepLeads(old(View()), config, steps, before, step);
          Take(before, step);
          steps := steps + [step];
        }
      }
    }

    // ---- Alerts ----

    method IsSuppressed(kind: AlertType, agent: string) returns (suppressed: bool)
      ensures suppressed <==> Suppressed(View(), config, kind, agent)
    {
      var cooldown := config.cooldownMs;
      if cooldown <= 0 { return false; }
      suppressed := exists id <- alerts :: alerts[id].kind == kind && alerts[id].agent == agent && alerts[id].Open()
                                           && alerts[id].at >= clock - cooldown;
    }

    method CreateAlert(o: Outcome, agent: string) returns (id: nat)
      modifies this`alerts, this`raised
      ensures View() == Create(old(View()), o, agent) && id == |old(raised)|
      ensures raised == old(raised) + [alerts[id]] && alerts == old(alerts)[id := alerts[id]]
      ensures alerts[id] == Alert(o.kind, o.severity, agent, clock, None)
    {
      var alert := Alert(o.kind, o.severity, agent, clock, None);
      id := |raised|;
      alerts, raised := alerts[|raised| := alert], raised + [alert];
    }

    method AcknowledgeOpenOfflineAlerts(agent: string) returns (count: nat)
      modifies this`alerts
      ensures alerts == AckedOffline(old(alerts), agent, clock)
      ensures count == |set id | id in alerts && alerts[id] != old(alerts)[id]|
    {
      var cleared := set id | id in alerts && alerts[id].kind == AgentOffline && alerts[id].agent == agent
          && alerts[id].Open();
      alerts := AckedOffline(alerts, agent, clock);
      assert cleared == set id | id in alerts && alerts[id] != old(alerts)[id];
      count := |cleared|;
    }

    // ---- Requests ----

    /** The handler's first statement. A row it finds is kept until the sign of life is written. */
    method Load(call: Call) returns (found: bool, k: nat)
      requires Valid()
      modifies this`flights, this`next
      ensures View() == Apply(old(View()), config, Read(call)) && Valid()
      ensures k == old(next) && (found <==> Accepts(old(View()), call))
      ensures found ==> flights == old(flights)[k := Loaded(call, IsOffline(View(), call.agent))]
    {
      k := next;
      StepKeepsBase(View(), config, Read(call));
      found := if call.Enrollment? then !(BROWSER_CAMERA_ID_PREFIX <= call.agent) else call.agent in agents;
      if found {
        var wasOffline := call.agent in agents && agents[call.agent].status == Offline;
        flights, next := flights[k := Loaded(call, wasOffline)], next + 1;
      }
    }

    /** The next statement of a request: anything may come before it, and it may fail, which ends the request. */
    method Resume(k: nat) returns (ok: bool, ghost steps: seq<Step>)
      requires Valid() && k in flights
      modifies this
      ensures Valid() && Leads(old(View()), config, steps, View())
      ensures if ok then k in flights && flights[k] == old(flights[k]) else k !in flights
      ensures OnlyDrops(steps, k)
    {
      steps := Await({k}, false);
      ok := *;
      if !ok {
        ghost var ready := View();
        StepKeepsBase(ready, config, Drop(k));
        StepLeads(old(View()), config, steps, ready, Drop(k));
        flights := flights - {k};
        steps := steps + [Drop(k)];
      }
    }

    /** The update of a known agent's row, or an enrollment's upsert. */
    method WriteRow(k: nat)
      requires Valid() && k in flights && flights[k].Loaded?
      modifies this`agents, this`flights
      ensures View() == Apply(old(View()), config, Write(k)) && Valid()
    {
      StepKeepsBase(View(), config, Write(k));
      var call := flights[k].call;
      if call.agent in agents {
        var row := agents[call.agent].(status := Online, lastSeen := clock);
        agents := agents[call.agent := if call.Enrollment? then row.(location := call.location) else row];
      } else if call.Enrollment? {
        agents := agents[call.agent := Agent(Online, Device, clock, call.location, 0)];
      }
      flights := if flights[k].wasOffline then flights[k := Returned(call)] else Onward(flights, k, call);
    }

    /** What remains of a request after its sign of life. */
    predicate Through(k: nat, call: Call)
      reads this
    {
      if call.Event? then k in flights && flights[k] == Recorded(call.agent, call.event) else k !in flights
    }

    /**
     Marks the agent seen and online, and handles its return if the row read for it said offline: first what is
     open for the silence is acknowledged, then the notice goes out. Any statement may fail and end the request.
     */
    method RecordActivity(k: nat) returns (ok: bool, ghost steps: seq<Step>)
      requires Valid() && k in flights && flights[k].Loaded?
      modifies this
      ensures Valid() && Leads(old(View()), config, steps, View())
      ensures if ok then Through(k, old(flights[k].call)) else k !in flights
      ensures ok ==> Write(k) in steps && (Settle(k) in steps <==> old(flights[k].wasOffline))
      ensures ok ==> (Notify(k) in steps <==> old(flights[k].wasOffline))
    {
      ok, steps := Resume(k);
      if !ok { return; }
      ghost var ready := View();
      var call, returned := flights[k].call, flights[k].wasOffline;
      WriteRow(k);
      StepLeads(old(View()), config, steps, ready, Write(k));
      steps := steps + [Write(k)];
      if returned {
        ghost var written := View();
        ghost var more;
        ok, more := HandleRecovery(k);
        LeadsOn(old(View()), config, steps, written, more, View());
        steps := steps + more;
      }
    }

    method HandleRecovery(k: nat) returns (ok: bool, ghost steps: seq<Step>)
      requires Valid() && k in flights && flights[k].Returned?
      modifies this
      ensures Valid() && Leads(old(View()), config, steps, View())
      ensures if ok then Through(k, old(flights[k].call)) else k !in flights
      ensures ok ==> Settle(k) in steps && Notify(k) in steps
    {
      ghost var more;
      ok, steps := ClearAlerts(k);
      if !ok { return; }
      ghost var cleared := View();
      ok, more := PostNotice(k);
      LeadsOn(old(View()), config, steps, cleared, more, View());
      steps := steps + more;
    }

    method ClearAlerts(k: nat) returns (ok: bool, ghost steps: seq<Step>)
      requires Valid() && k in flights && flights[k].Returned?
      modifies this
      ensures Valid() && Leads(old(View()), config, steps, View())
      ensures if ok then k in flights && flights[k] == Settled(old(flights[k].call)) else k !in flights
      ensures ok ==> Settle(k) in steps
    {
      ok, steps := Resume(k);
      if ok {
        StepLeads(old(View()), config, steps, View(), Settle(k));
        var _ := UpdateAlerts(k);
        steps := steps + [Settle(k)];
      }
    }

    method UpdateAlerts(k: nat) returns (count: nat)
      requires Valid() && k in flights && flights[k].Returned?
      modifies this`alerts, this`flights
      ensures View() == Apply(old(View()), config, Settle(k)) && Valid()
    {
      StepKeepsBase(View(), config, Settle(k));
      count := AcknowledgeOpenOfflineAlerts(flights[k].call.agent);
      flights := flights[k := Settled(flights[k].call)];
    }

    method PostNotice(k: nat) returns (ok: bool, ghost steps: seq<Step>)
      requires Valid() && k in flights && flights[k].Settled?
      modifies this
      ensures Valid() && Leads(old(View()), config, steps, View())
      ensures if ok then Through(k, old(flights[k].call)) else k !in flights
      ensures ok ==> Notify(k) in steps
    {
      ok, steps := Resume(k);
      if ok {
        StepLeads(old(View()), config, steps, View(), Notify(k));
        RaiseAgentRecovered(k);
        steps := steps + [Notify(k)];
      }
    }

    /** Past the cooldown. */
    method RaiseAgentRecovered(k: nat)
      requires Valid() && k in flights && flights[k].Settled?
      modifies this`alerts, this`raised, this`flights
      ensures View() == Apply(old(View()), config, Notify(k)) && Valid() && Through(k, old(flights[k].call))
    {
      StepKeepsBase(View(), config, Notify(k));
      var call := flights[k].call;
      var _ := CreateAlert(RecoveredOutcome(), call.agent);
      flights := Onward(flights, k, call);
    }

    /** Refused, with nothing changed, for an id in the namespace reserved to the hub. */
    method Register(agent: string, location: string) returns (reply: Reply, ghost steps: seq<Step>)
      requires Valid()
      modifies this
      ensures Valid() && Leads(old(View()), config, [Read(Enrollment(agent, location))] + steps, View())
      ensures reply == Refused <==> BROWSER_CAMERA_ID_PREFIX <= agent
      ensures reply == Refused ==> View() == old(View())
      ensures reply == Done ==> Answered(old(View()), agent, old(next), steps)
    {
      reply, steps := Handle(Enrollment(agent, location));
    }

    /** Refused, with nothing changed, for an agent the hub does not know. */
    method Heartbeat(agent: string) returns (reply: Reply, ghost steps: seq<Step>)
      requires Valid()
      modifies this
      ensures Valid() && Leads(old(View()), config, [Read(Call.Heartbeat(agent))] + steps, View())
      ensures reply == Refused <==> agent !in old(agents)
      ensures reply == Refused ==> View() == old(View())
      ensures reply == Done ==> Answered(old(View()), agent, old(next), steps)
    {
      reply, steps := Handle(Call.Heartbeat(agent));
    }

    /** Request `k` has written its agent's row, and a notice exactly if it had read the agent offline. */
    ghost predicate Answered(s: State, agent: string, k: nat, steps: seq<Step>) {
      && Write(k) in steps
      && (Settle(k) in steps <==> IsOffline(s, agent)) && (Notify(k) in steps <==> IsOffline(s, agent))
    }

    method Handle(call: Call) returns (reply: Reply, ghost steps: seq<Step>)
      requires Valid()
      modifies this
      ensures Valid() && Leads(old(View()), config, [Read(call)] + steps, View())
      ensures reply == Refused <==> !Accepts(old(View()), call)
      ensures reply == Refused ==> View() == old(View())
      ensures reply == Done ==> Answered(old(View()), call.agent, old(next), steps) && Through(old(next), call)
    {
      OneStep(old(View()), config, Read(call));
      var found, k := Load(call);
      if !found { return Refused, []; }
      ghost var loaded := View();
      var ok, more := RecordActivity(k);
      LeadsOn(old(View()), config, [Read(call)], loaded, more, View());
      return if ok then Done else Broken, more;
    }

    /** Sign of life first, rules last. */
    method Ingest(agent: string, event: EventLog.EventType) returns (reply: Reply, ghost steps: seq<Step>)
      requires Valid()
      modifies this
      ensures Valid() && Leads(old(View()), config, [Read(Event(agent, event))] + steps, View())
      ensures reply == Refused <==> agent !in old(agents)
      ensures reply == Refused ==> View() == old(View())
      ensures reply == Done ==> Answered(old(View()), agent, old(next), steps) && Judge(old(next)) in steps
    {
      var k := next;
      reply, steps := Handle(Event(agent, event));
      if reply == Done {
        ghost var judging, first := View(), [Read(Event(agent, event))] + steps;
        var ok, more := EvaluateEvent(k);
        LeadsOn(old(View()), config, first, judging, more, View());
        assert first + more == [Read(Event(agent, event))] + (steps + more);
        reply, steps := if ok then Done else Broken, steps + more;
      }
    }

    /** The rules under the mode as it is then, the cooldown, and the insert. */
    method EvaluateEvent(k: nat) returns (ok: bool, ghost steps: seq<Step>)
      requires Valid() && k in flights && flights[k].Recorded?
      modifies this
      ensures Valid() && Leads(old(View()), config, steps, View())
      ensures k !in flights && NoRecovery(steps, k) && (ok ==> Judge(k) in steps)
    {
      ok, steps := Resume(k);
      if !ok { return; }
      ghost var ready := View();
      var passed := CheckRules(k);
      StepLeads(old(View()), config, steps, ready, Judge(k));
      steps := steps + [Judge(k)];
      if passed {
        ghost var judged := View();
        ghost var more;
        ok, more := InsertAlert(k);
        LeadsOn(old(View()), config, steps, judged, more, View());
        steps := steps + more;
      }
    }

    method CheckRules(k: nat) returns (passed: bool)
      requires Valid() && k in flights && flights[k].Recorded?
      modifies this`flights
      ensures View() == Apply(old(View()), config, Judge(k)) && Valid()
      ensures var Recorded(agent, event) := old(flights[k]);
              && (passed <==> Passes(old(View()), config, agent, event))
              && (if passed then k in flights && flights[k] == Passed(agent, event, mode) else k !in flights)
    {
      StepKeepsBase(View(), config, Judge(k));
      JudgeRule(View(), config, k, Apply(View(), config, Judge(k)));
      var Recorded(agent, event) := flights[k];
      var outcome := Evaluate(event, mode);
      passed := false;
      if outcome.Some? {
        var suppressed := IsSuppressed(outcome.value.kind, agent);
        passed := !suppressed;
      }
      flights := if passed then flights[k := Passed(agent, event, mode)] else flights - {k};
    }

    method InsertAlert(k: nat) returns (ok: bool, ghost steps: seq<Step>)
      requires Valid() && k in flights && flights[k].Passed?
      modifies this
      ensures Valid() && Leads(old(View()), config, steps, View())
      ensures k !in flights && NoRecovery(steps, k)
    {
      ok, steps := Resume(k);
      assert NoRecovery(steps, k);
      if ok {
        ghost var ready := View();
        StepLeads(old(View()), config, steps, ready, Insert(k));
        CreatePassed(k);
        steps := steps + [Insert(k)];
      }
    }

    method CreatePassed(k: nat)
      requires Valid() && k in flights && flights[k].Passed?
      modifies this`alerts, this`raised, this`flights
      ensures View() == Apply(old(View()), config, Insert(k)) && Valid()
    {
      StepKeepsBase(View(), config, Insert(k));
      var Passed(agent, event, judgedIn) := flights[k];
      var outcome := Evaluate(event, judgedIn);
      if outcome.Some? { var _ := CreateAlert(outcome.value, agent); }
      flights := flights - {k};
    }

    /**
     Acknowledgement as the controller performs it: the policy first, then the idempotent update; a missing alert is
     reported.
     */
    method Acknowledge(who: Identity, id: nat) returns (decision: Decision, alert: Option<Alert>)
      requires Valid()
      modifies this`alerts
      ensures View() == Apply(old(View()), config, Ack(who, id)) && Valid()
      ensures decision == CanAcknowledgeAlert(who, AlertLocation(old(View()), id))
      ensures decision.Allowed? <==> Entitled(who, old(View()), id)
      ensures alert.Some? <==> decision.Allowed? && id in old(alerts)
      ensures alert.Some? ==> alert.value == alerts[id] && !alert.value.Open()
    {
      StepKeepsBase(View(), config, Ack(who, id));
      EntitledIff(who, View(), id);
      var known := id in alerts && alerts[id].agent in agents;
      var location := if known then Some(agents[alerts[id].agent].location) else None;
      decision := CanAcknowledgeAlert(who, location);
      if !decision.Allowed? || id !in alerts { return decision, None; }
      if alerts[id].Open() {
        alerts := alerts[id := alerts[id].(ackedAt := Some(clock))];
      }
      return decision, Some(alerts[id]);
    }

    // ---- The liveness sweep ----

    /** One scheduled tick of the liveness sweep. Whatever happens meanwhile, it is a run of the machine. */
    method Sweep() returns (outcome: SweepOutcome, ghost steps: seq<Step>)
      requires Valid()
      modifies this
      ensures Valid() && Leads(old(View()), config, steps, View()) && sweeping == old(sweeping)
      ensures outcome == Graced <==> old(clock) < old(bootedAt) + config.timeoutMs
      ensures outcome == Skipped <==> old(sweeping) && old(clock) >= old(bootedAt) + config.timeoutMs
      ensures outcome == Skipped ==> View() == old(View())
      ensures outcome.Failed? || outcome.Swept? ==>
          steps != [] && steps[0] == BeginSweep && phase.Resting? && reconciled
      ensures outcome.Swept? || (outcome.Graced? && !old(sweeping)) ==> lastTick == old(clock)
    {
      var now := clock;
      steps := [];
      if now - bootedAt < config.timeoutMs {
        if !sweeping {
          StepKeepsBase(View(), config, BeginSweep);
          OneStep(View(), config, BeginSweep);
          lastTick := clock;
          steps := [BeginSweep];
        }
        return Graced, steps;
      }
      if sweeping { return Skipped, []; }
      outcome, steps := Pass(now);
    }

    /** The sweep itself: the repair if this process has not run it yet, then the batch. */
    method Pass(now: int) returns (outcome: SweepOutcome, ghost steps: seq<Step>)
      requires Valid() && now == clock && phase.Resting? && !InGrace(View(), config)
      modifies this
      ensures Valid() && Leads(old(View()), config, steps, View()) && steps != [] && steps[0] == BeginSweep
      ensures phase.Resting? && reconciled && (outcome.Failed? || outcome.Swept?)
      ensures outcome.Swept? ==> lastTick == now
    {
      ghost var repair := RepairOnce(now);
      ghost var ready := View();
      var rows, marking := FlipStale(now);
      LeadsOn(old(View()), config, repair, ready, marking, View());
      steps := repair + marking;
      if rows.None? { return Failed, steps; }
      ghost var marked := View();
      ghost var raising := RaiseBatch(rows.value);
      LeadsOn(old(View()), config, steps, marked, raising, View());
      return Swept, steps + raising;
    }

    /** The flag is set before the repair starts, so it is tried once per boot, whatever becomes of it. */
    method RepairOnce(now: int) returns (ghost steps: seq<Step>)
      requires Valid() && now == clock && phase.Resting? && !InGrace(View(), config)
      modifies this
      ensures Valid() && Leads(old(View()), config, steps, View()) && steps != [] && steps[0] == BeginSweep
      ensures phase == Flipping(now) && reconciled
    {
      StepKeepsBase(View(), config, BeginSweep);
      OneStep(View(), config, BeginSweep);
      var repairing := !reconciled;
      reconciled, sweeping := true, true;
      phase := if repairing then Selecting(now) else Flipping(now);
      steps := [BeginSweep];
      ghost var begun := View();
      if repairing {
        ghost var repair := ReconcileOfflineAgents();
        LeadsOn(old(View()), config, steps, begun, repair, View());
        steps := steps + repair;
      }
    }

    /**
     The one-shot repair after a boot: raise for every offline device with no open offline alert. A failure ends it.
     */
    method ReconcileOfflineAgents() returns (ghost steps: seq<Step>)
      requires Valid() && phase.Selecting? && reconciled
      modifies this
      ensures Valid() && Leads(old(View()), config, steps, View()) && phase == Flipping(old(phase).now) && reconciled
    {
      ghost var now := phase.now;
      steps := Await({}, true);
      ghost var asked := View();
      if * {
        StepKeepsBase(asked, config, SelectFails);
        phase := Flipping(phase.now);
        StepLeads(old(View()), config, steps, asked, SelectFails);
        return steps + [SelectFails];
      }
      var offline := SelectUnannounced();
      StepKeepsBase(asked, config, Select(offline));
      phase := Repairing(phase.now, offline, None);
      StepLeads(old(View()), config, steps, asked, Select(offline));
      steps := steps + [Select(offline)];
      ghost var selected := View();
      ghost var raising := RaiseRepair(offline);
      LeadsOn(old(View()), config, steps, selected, raising, View());
      steps := steps + raising;
    }

    method SelectUnannounced() returns (offline: seq<string>)
      ensures IsListing(offline, Unannounced(View()))
    {
      var rows := set a | a in agents && agents[a].status == Offline && agents[a].origin == Device
                          && !exists id <- alerts ::
                               alerts[id].kind == AgentOffline && alerts[id].agent == a && alerts[id].Open();
      assert rows == Unannounced(View());
      offline := FindMany(rows);
    }

    /** The repair's loop, which a failing raise ends. */
    method RaiseRepair(offline: seq<string>) returns (ghost steps: seq<Step>)
      requires Valid() && reconciled && phase.Repairing? && phase.todo == offline && phase.checked.None?
      modifies this
      ensures Valid() && Leads(old(View()), config, steps, View()) && phase == Flipping(old(phase).now) && reconciled
    {
      ghost var now := phase.now;
      steps := [];
      var i := 0;
      while i < |offline|
        invariant i <= |offline| && Valid() && reconciled && phase == Repairing(now, offline[i..], None)
        invariant Leads(old(View()), config, steps, View())
        decreases |offline| - i
      {
        ghost var before := View();
        var raise, failed := RaiseOne(offline[i]);
        LeadsOn(old(View()), config, steps, before, raise, View());
        steps := steps + raise;
        if failed { return; }
        i := i + 1;
      }
      ghost var done := View();
      StepKeepsBase(done, config, EndRepair);
      phase := Flipping(phase.now);
      StepLeads(old(View()), config, steps, done, EndRepair);
      steps := steps + [EndRepair];
    }

    /** The sweep's place after one agent. */
    function AfterRaise(phase: Phase, failed: bool): Phase
      requires Todo(phase) != []
    {
      if failed && phase.Repairing? then Flipping(phase.now) else Next(phase)
    }

    /** One agent of a batch: the cooldown, then the insert, unless either fails. */
    method RaiseOne(agent: string) returns (ghost steps: seq<Step>, failed: bool)
      requires Valid() && Todo(phase) != [] && agent == phase.todo[0] && phase.checked.None?
      modifies this
      ensures Valid() && Leads(old(View()), config, steps, View())
      ensures phase == AfterRaise(old(phase), failed) && reconciled == old(reconciled) && lastTick == old(lastTick)
    {
      steps := Await({}, true);
      ghost var ready := View();
      if * {
        FailRaise();
        StepLeads(old(View()), config, steps, ready, RaiseFails);
        return steps + [RaiseFails], true;
      }
      StepKeepsBase(ready, config, CheckNext);
      var suppressed := IsSuppressed(AgentOffline, agent);
      phase := if suppressed then Next(phase) else phase.(checked := Some(mode));
      StepLeads(old(View()), config, steps, ready, CheckNext);
      steps, failed := steps + [CheckNext], false;
      if !suppressed {
        ghost var checked := View();
        ghost var more;
        more, failed := RaiseAgentOffline(agent);
        LeadsOn(old(View()), config, steps, checked, more, View());
        steps := steps + more;
      }
    }

    method FailRaise()
      requires Valid() && Todo(phase) != []
      modifies this`phase
      ensures View() == Apply(old(View()), config, RaiseFails) && Valid() && phase == AfterRaise(old(phase), true)
    {
      StepKeepsBase(View(), config, RaiseFails);
      phase := if phase.Repairing? then Flipping(phase.now) else Next(phase);
    }

    /** The silence alert under the mode read before the cooldown was asked. */
    method RaiseAgentOffline(agent: string) returns (ghost steps: seq<Step>, failed: bool)
      requires Valid() && Todo(phase) != [] && agent == phase.todo[0] && phase.checked.Some?
      modifies this
      ensures Valid() && Leads(old(View()), config, steps, View())
      ensures phase == AfterRaise(old(phase), failed) && reconciled == old(reconciled) && lastTick == old(lastTick)
    {
      steps := Await({}, true);
      ghost var ready := View();
      failed := *;
      if failed {
        FailRaise();
        StepLeads(old(View()), config, steps, ready, RaiseFails);
        steps := steps + [RaiseFails];
      } else {
        StepKeepsBase(ready, config, RaiseNext);
        var _ := CreateAlert(OfflineOutcome(phase.checked.value), agent);
        phase := Next(phase);
        StepLeads(old(View()), config, steps, ready, RaiseNext);
        steps := steps + [RaiseNext];
      }
    }

    /** The sweep's transaction: select the rows stale at the sweep's start and mark exactly those offline, or fail. */
    method FlipStale(now: int) returns (rows: Option<seq<string>>, ghost steps: seq<Step>)
      requires Valid() && phase == Flipping(now)
      modifies this
      ensures Valid() && Leads(old(View()), config, steps, View()) && reconciled == old(reconciled)
      ensures rows.None? ==> phase.Resting?
      ensures rows.Some? ==> phase == Raising(now, rows.value, None) && lastTick == now
    {
      steps := Await({}, true);
      ghost var ready := View();
      if * {
        StepKeepsBase(ready, config, FlipFails);
        phase, sweeping := Resting, false;
        StepLeads(old(View()), config, steps, ready, FlipFails);
        return None, steps + [FlipFails];
      }
      var order := MarkBatch();
      StepKeepsBase(ready, config, FlipBatch(order));
      StepLeads(old(View()), config, steps, ready, FlipBatch(order));
      return Some(order), steps + [FlipBatch(order)];
    }

    method MarkBatch() returns (rows: seq<string>)
      requires up && phase.Flipping?
      modifies this`agents, this`phase, this`lastTick
      ensures Enabled(old(View()), config, FlipBatch(rows)) && phase.Raising?
      ensures View() == Apply(old(View()), config, FlipBatch(rows))
    {
      ghost var ready := View();
      rows := MarkStale(phase.now - config.timeoutMs);
      FlipIs(ready, config, rows);
      phase, lastTick := Raising(phase.now, rows, None), phase.now;
    }

    method MarkStale(cutoff: int) returns (rows: seq<string>)
      modifies this`agents
      ensures IsListing(rows, Stale(old(View()), cutoff)) && View() == Flip(old(View()), Stale(old(View()), cutoff))
    {
      var stale := set a | a in agents && agents[a].status == Online && agents[a].origin == Device
          && agents[a].lastSeen < cutoff;
      assert stale == Stale(View(), cutoff);
      rows := FindMany(stale);
      agents := map a | a in agents :: if a in stale then agents[a].(status := Offline, episode := |raised|)
          else agents[a];
    }

    /** One raise after the other; a failing one costs only its own agent. */
    method RaiseBatch(rows: seq<string>) returns (ghost steps: seq<Step>)
      requires Valid() && phase.Raising? && phase.todo == rows && phase.checked.None?
      modifies this
      ensures Valid() && Leads(old(View()), config, steps, View()) && phase.Resting?
      ensures reconciled == old(reconciled) && lastTick == old(lastTick)
    {
      ghost var now := phase.now;
      steps := [];
      for i := 0 to |rows|
        invariant Valid() && phase == Raising(now, rows[i..], None)
        invariant reconciled == old(reconciled) && lastTick == old(lastTick)
        invariant Leads(old(View()), config, steps, View())
      {
        ghost var before := View();
        var raise, _ := RaiseOne(rows[i]);
        LeadsOn(old(View()), config, steps, before, raise, View());
        steps := steps + raise;
      }
      ghost var done := View();
      StepKeepsBase(done, config, EndSweep);
      phase, sweeping := Resting, false;
      StepLeads(old(View()), config, steps, done, EndSweep);
      steps := steps + [EndSweep];
    }

    // ---- The arm mode ----

    method CountOpenCritical() returns (open: nat)
      ensures open == |OpenCriticals(View())|
    {
      var rows := set id | id in alerts && OpenCritical(alerts[id]);
      assert rows == OpenCriticals(View());
      open := |rows|;
    }

    /**
     A person changing the mode: the policy decides before anything changes, and anything else may happen in between,
     another change of the mode included.
     */
    method SetModeBy(who: Identity, target: SystemMode)
      returns (decision: Decision, changed: bool, ghost waited: seq<Step>)
      requires Valid()
      modifies this
      ensures Valid() && decision == CanSetMode(who, target, |OpenCriticals(old(View()))|)
      ensures !decision.Allowed? ==> View() == old(View()) && !changed
      ensures decision.Allowed? ==>
          && mode == target && Leads(old(View()), config, [Decide(who, target)] + waited + [Commit(old(next))], View())
          && Runs(old(View()), config, [Decide(who, target)] + waited)
          && (changed <==> target != Exec(old(View()), config, [Decide(who, target)] + waited).mode)
    {
      var k := next;
      OneStep(View(), config, Decide(who, target));
      decision := DecideMode(who, target);
      changed, waited := false, [];
      if decision.Allowed? {
        ghost var decided := View();
        waited := Await({k}, false);
        LeadsOn(old(View()), config, [Decide(who, target)], decided, waited, View());
        StepLeads(old(View()), config, [Decide(who, target)] + waited, View(), Commit(k));
        changed := CommitMode(k);
      }
    }

    method DecideMode(who: Identity, target: SystemMode) returns (decision: Decision)
      requires Valid()
      modifies this`flights, this`next
      ensures View() == Apply(old(View()), config, Decide(who, target)) && Valid()
      ensures decision == CanSetMode(who, target, |OpenCriticals(old(View()))|)
      ensures decision.Allowed? ==> flights == old(flights)[old(next) := Granted(target, who.role == Admin, |raised|)]
      ensures !decision.Allowed? ==> View() == old(View())
    {
      StepKeepsBase(View(), config, Decide(who, target));
      var open := CountOpenCritical();
      decision := CanSetMode(who, target, open);
      if decision.Allowed? {
        flights, next := flights[next := Granted(target, who.role == Admin, |raised|)], next + 1;
      }
    }

    method CommitMode(k: nat) returns (changed: bool)
      requires Valid() && k in flights && flights[k].Granted?
      modifies this`mode, this`flights
      ensures View() == Apply(old(View()), config, Commit(k)) && Valid()
      ensures mode == old(flights[k].target) && (changed <==> mode != old(mode))
    {
      StepKeepsBase(View(), config, Commit(k));
      changed := SetModeTo(flights[k].target);
      flights := flights - {k};
    }

    /** `SystemService.setMode`: a no-op when the mode is already the requested one. */
    method SetModeTo(target: SystemMode) returns (changed: bool)
      modifies this`mode
      ensures mode == target && (changed <==> target != old(mode))
    {
      if mode == target { return false; }
      mode := target;
      return true;
    }

    // ---- Housekeeping ----

    /**
     Removes alerts that are past the window and acknowledged, a batch at a time. One nobody
     has acknowledged stays, however old.
     */
    method PruneAlerts(days: nat, batchSize: nat, maxBatches: nat)
      returns (deleted: nat, capped: bool, ghost ids: set<nat>, ghost steps: seq<Step>)
      requires Valid()
      modifies this
      ensures Valid() && Leads(old(View()), config, steps, View())
      ensures deleted == |ids| && Gone(View(), ids) && (days == 0 ==> ids == {} && !capped)
      ensures days > 0 && !capped ==> NoneAged(alerts, old(clock) - days * Timeline.DAY_MS)
    {
      deleted, capped, ids, steps := 0, false, {}, [];
      ghost var start := View();
      if days <= 0 { return; }
      var cutoff := clock - days * Timeline.DAY_MS;
      for batch := 0 to maxBatches
        invariant Valid() && Leads(start, config, steps, View()) && start.clock <= clock
        invariant deleted == |ids| && Gone(View(), ids)
      {
        ghost var before := View();
        var count, more, round := PruneRound(days, cutoff, batchSize);
        LeadsOn(start, config, steps, before, round, View());
        MoreGone(before, View(), ids, more);
        ids, deleted, steps := ids + more, deleted + count, steps + round;
        if count < batchSize { return; }
      }
      capped := true;
    }

    /** A batch, and after a full one a pause that lets anything through. */
    method PruneRound(days: nat, cutoff: int, limit: nat)
      returns (count: nat, ghost ids: set<nat>, ghost steps: seq<Step>)
      requires Valid() && days > 0 && cutoff <= clock - days * Timeline.DAY_MS
      modifies this
      ensures Valid() && Leads(old(View()), config, steps, View()) && old(clock) <= clock
      ensures AddsLater(old(View()), View()) && Gone(View(), ids) && ids <= old(alerts).Keys && count == |ids| <= limit
      ensures count < limit ==> NoneAged(alerts, cutoff)
    {
      count, ids, steps := PruneBatch(days, cutoff, limit);
      if count == limit {
        ghost var mid := View();
        ghost var meanwhile := Await({}, false);
        RunAddsLater(mid, config, meanwhile);
        LeadsOn(old(View()), config, steps, mid, meanwhile, View());
        steps := steps + meanwhile;
      }
    }

    /** One batch, as a step of the machine. */
    method PruneBatch(days: nat, cutoff: int, limit: nat)
      returns (count: nat, ghost ids: set<nat>, ghost steps: seq<Step>)
      requires Valid() && days > 0 && cutoff <= clock - days * Timeline.DAY_MS
      modifies this`alerts
      ensures Valid() && Leads(old(View()), config, steps, View())
      ensures ids <= Prunable(old(View()), days) && alerts == old(alerts) - ids && count == |ids| <= limit
      ensures AddsLater(old(View()), View()) && Gone(View(), ids)
      ensures count < limit ==> NoneAged(alerts, cutoff)
    {
      ghost var start := View();
      count, ids := DeleteAcknowledged(cutoff, limit);
      PruneIsStep(start, config, days, ids);
      steps := [Step.PruneAlerts(days, ids)];
    }

    /** The batched delete, which never matches an open alert. */
    method DeleteAcknowledged(cutoff: int, limit: nat) returns (count: nat, ghost ids: set<nat>)
      modifies this`alerts
      ensures ids <= Aged(old(alerts), cutoff) && alerts == old(alerts) - ids && count == |ids| <= limit
      ensures forall id <- ids :: id in old(alerts) && old(alerts)[id].at < cutoff && old(alerts)[id].ackedAt.Some?
      ensures count < limit ==> NoneAged(alerts, cutoff)
    {
      var gone := TakeUpTo(Aged(alerts, cutoff), limit);
      ids, count := gone, |gone|;
      alerts := alerts - gone;
      if count < limit {
        forall id <- alerts ensures cutoff <= alerts[id].at || alerts[id].ackedAt.None? {
          assert id !in Aged(old(alerts), cutoff);
        }
      }
    }
  }
}
