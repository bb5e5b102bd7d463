/**
 What every run of the hub keeps about alerts, silence and cooldown. Every statement of a sweep and of a request is a
 step of its own, so all of these come between each other.
 */
module HubProofs {
  import opened Options
  import opened AlertRules
  import opened Hub

  // ---- The invariant ----

  /** The alert table against everything ever raised: rows never change but for their acknowledgement. */
  predicate Row(s: State, id: nat)
    requires id in s.alerts
  {
    var a := s.alerts[id];
    && id < |s.raised| && a.(ackedAt := None) == s.raised[id]
    && (a.ackedAt.Some? ==> a.at <= a.ackedAt.value <= s.clock)
  }

  predicate Tables(s: State) {
    && (forall id <- s.alerts :: Row(s, id))
    && (forall a <- s.agents :: s.agents[a].episode <= |s.raised|)
    && (forall i :: 0 <= i < |s.raised| ==> s.raised[i].at <= s.clock)
    && (forall i, j :: 0 <= i <= j < |s.raised| ==> s.raised[i].at <= s.raised[j].at)
  }

  predicate AgentsInv(s: State) {
    && (forall a <- s.agents :: s.agents[a].lastSeen <= s.clock)
    && (forall a <- s.agents :: s.agents[a].status == Offline ==> s.agents[a].origin == Device)
    && s.bootedAt <= s.clock && s.lastTick <= s.clock
  }

  /** A sweep under way began past the grace period, and works on agents the hub knows. */
  predicate PhaseInv(s: State, c: Config) {
    !s.phase.Resting? ==>
      && s.up && s.reconciled && s.bootedAt + c.timeoutMs <= s.phase.now <= s.clock
      && forall a <- Todo(s.phase) :: a in s.agents
  }

  function Max(a: int, b: int): int { if a < b then b else a }

  /** A device still online was not yet overdue when the last sweep began. */
  predicate DetectedInTime(s: State, c: Config) {
    s.up ==> forall a <- s.agents :: s.agents[a].status == Online && s.agents[a].origin == Device ==>
      s.lastTick <= Max(s.agents[a].lastSeen, s.bootedAt) + c.timeoutMs
  }

  predicate Timing(s: State, c: Config) { AgentsInv(s) && PhaseInv(s, c) && DetectedInTime(s, c) }

  /** No batch has been marked offline since the boot. */
  predicate Early(s: State) { !s.reconciled || s.phase.Selecting? || s.phase.Repairing? }

  /**
   Requests are numbered, and die with the process. Until the first batch is marked offline, an agent whose row has
   been written since the boot is online.
   */
  predicate FlightsInv(s: State) {
    && (!s.up ==> s.flights == map[])
    && forall k <- s.flights :: k < s.next
        && (Early(s) && s.flights[k].Returned? ==> !IsOffline(s, s.flights[k].call.agent))
  }

  /** What the cooldown has let through for the sweep it still would: nobody else announces a silence. */
  predicate CheckInv(s: State, c: Config) {
    Listing(s.phase) && s.phase.checked.Some? ==>
      s.phase.todo != [] && !Suppressed(s, c, AgentOffline, s.phase.todo[0])
  }

  /** What holds whatever interleaves. */
  predicate BaseInv(s: State, c: Config) { Tables(s) && Timing(s, c) && FlightsInv(s) && BatchInv(s) && CheckInv(s, c) }

  // ---- One agent ----

  /** The recovery of this agent is under way: its row is written, its alerts are still to be acknowledged. */
  predicate Settling(s: State, a: string) {
    exists k <- s.flights :: s.flights[k].Returned? && s.flights[k].call.agent == a
  }

  /** An unacknowledged offline alert of this agent that does not belong to its present silence, if it is silent. */
  predicate Leftover(s: State, a: string) {
    exists id <- s.alerts :: s.alerts[id].kind == AgentOffline && s.alerts[id].agent == a && s.alerts[id].Open()
                             && !(IsOffline(s, a) && s.agents[a].episode <= id)
  }

  /** Every leftover is about to be acknowledged. */
  predicate Clear(s: State, a: string) { Leftover(s, a) ==> Settling(s, a) }

  predicate RaisedSince(raised: seq<Alert>, from: nat, agent: string) {
    exists k :: from <= k < |raised| && raised[k].kind == AgentOffline && raised[k].agent == agent
  }

  /** An offline alert was raised for this agent since it was last marked offline. */
  predicate AnnouncedNow(s: State, a: string)
    requires a in s.agents
  {
    RaisedSince(s.raised, s.agents[a].episode, a)
  }

  /** The running sweep has marked this agent offline and will come to it. */
  predicate Awaits(s: State, a: string) { s.phase.Raising? && a in s.phase.todo }

  /** Silent, not announced, and no raise for it is coming. */
  predicate Lost(s: State, a: string) { IsOffline(s, a) && !AnnouncedNow(s, a) && !Awaits(s, a) }

  /** While a batch is raised for, its list names each agent once, and those still silent are not announced yet. */
  predicate BatchInv(s: State) {
    s.phase.Raising? ==>
      && (forall i, j :: 0 <= i < j < |s.phase.todo| ==> s.phase.todo[i] != s.phase.todo[j])
      && (forall a <- s.phase.todo :: IsOffline(s, a) ==> !AnnouncedNow(s, a))
  }

  /** Whoever the repair has not on its list has been announced. */
  predicate RepairInv(s: State, a: string) {
    s.phase.Repairing? && IsOffline(s, a) && a !in s.phase.todo ==> AnnouncedNow(s, a)
  }

  /** A raise for an agent that has come back since it was marked, or selected, and has settled that already. */
  predicate RaiseOvertaken(s: State, step: Step, a: string) {
    step.RaiseNext? && Todo(s.phase) != [] && s.phase.todo[0] == a && !IsOffline(s, a) && !Settling(s, a)
  }

  /** A sign of life that read the agent online is written under an open offline alert that nobody settles. */
  predicate WriteIsStale(s: State, step: Step, a: string) {
    step.Write? && step.k in s.flights && s.flights[step.k].Loaded? && s.flights[step.k].call.agent == a
    && !s.flights[step.k].wasOffline && HasOpenOffline(s, a) && !Settling(s, a)
  }

  /** Some request other than this one will acknowledge the agent's alerts. */
  predicate SettlingBut(s: State, a: string, k: nat) {
    exists i <- s.flights :: i != k && s.flights[i].Returned? && s.flights[i].call.agent == a
  }

  /** The process, or the last request that would have acknowledged a leftover, ends before it has. */
  predicate Abandons(s: State, step: Step, a: string) {
    Leftover(s, a) && Settling(s, a) && (step.Stop? || (step.Drop? && !SettlingBut(s, a, step.k)))
  }

  /** The three ways to leave an open offline alert that no recovery will acknowledge. */
  predicate Strands(s: State, step: Step, a: string) {
    RaiseOvertaken(s, step, a) || WriteIsStale(s, step, a) || Abandons(s, step, a)
  }

  /** In this run none of them happens to the agent. */
  predicate NeverStranded(s: State, c: Config, steps: seq<Step>, a: string)
    requires Runs(s, c, steps)
    decreases |steps|
  {
    steps == [] || (!Strands(s, steps[0], a) && NeverStranded(Apply(s, c, steps[0]), c, steps[1..], a))
  }

  // ---- What one step does to the tables ----

  datatype Post = Post(outcome: Outcome, agent: string)

  function Posted(p: Post, now: int): Alert { Alert(p.outcome.kind, p.outcome.severity, p.agent, now, None) }

  /** The alert a step inserts. */
  function Inserts(s: State, c: Config, step: Step): Option<Post>
    requires Enabled(s, c, step)
  {
    match step
    case RaiseNext => Some(Post(OfflineOutcome(s.phase.checked.value), s.phase.todo[0]))
    case Notify(k) => Some(Post(RecoveredOutcome(), s.flights[k].call.agent))
    case Insert(k) =>
      var o := Evaluate(s.flights[k].event, s.flights[k].mode);
      if o.Some? then Some(Post(o.value, s.flights[k].agent)) else None
    case _ => None
  }

  /** The rows a step changes or deletes among those there were. */
  predicate Touches(step: Step) { step.Settle? || step.Ack? || step.PruneAlerts? }

  lemma InsertsFrame(s: State, c: Config, step: Step)
    requires Enabled(s, c, step)
    ensures var t, p := Apply(s, c, step), Inserts(s, c, step);
            && t.raised == (if p.None? then s.raised else s.raised + [Posted(p.value, s.clock)])
            && (!Touches(step) ==>
                  t.alerts == if p.None? then s.alerts else s.alerts[|s.raised| := Posted(p.value, s.clock)])
  {
    match step
    case Notify(_) =>
    case _ =>
  }

  predicate MovesAgents(step: Step) { step.Write? || step.FlipBatch? || step.ProvisionBrowser? }

  lemma AgentsFrame(s: State, c: Config, step: Step)
    requires Enabled(s, c, step)
    ensures var t := Apply(s, c, step);
            && s.clock <= t.clock && (!MovesAgents(step) ==> t.agents == s.agents)
  {
    match step
    case BeginSweep =>
    case _ =>
  }

  /** A silence alert is inserted by the sweep only, and a notice by a recovery only. */
  lemma WhoInserts(s: State, c: Config, step: Step)
    requires Enabled(s, c, step) && Inserts(s, c, step).Some?
    ensures Inserts(s, c, step).value.outcome.kind == AgentOffline <==> step.RaiseNext?
    ensures Inserts(s, c, step).value.outcome.kind == AgentRecovered <==> step.Notify?
  {
    if step.Insert? { RulesAreForSensors(s.flights[step.k].event, s.flights[step.k].mode); }
  }

  // ---- The alert tables ----

  lemma SameTables(s: State, t: State)
    requires Tables(s) && t.alerts == s.alerts && t.raised == s.raised && s.clock <= t.clock
    requires forall a <- t.agents :: t.agents[a].episode <= |t.raised|
    ensures Tables(t)
  {
    assert forall id <- t.alerts :: Row(s, id) && Row(t, id);
  }

  lemma CreateKeepsTables(s: State, o: Outcome, agent: string)
    requires Tables(s)
    ensures Tables(Create(s, o, agent)) && |s.raised| !in s.alerts
  {
    var t := Create(s, o, agent);
    assert forall id <- s.alerts :: Row(s, id);
    forall id <- t.alerts ensures Row(t, id) { if id in s.alerts { assert Row(s, id); } }
  }

  /** Every row is as it was, or was open and is acknowledged now. */
  predicate AckedNow(s: State, alerts: Alerts) {
    alerts.Keys <= s.alerts.Keys && forall id <- alerts ::
      alerts[id] == s.alerts[id] || (s.alerts[id].Open() && alerts[id] == s.alerts[id].(ackedAt := Some(s.clock)))
  }

  lemma TouchesAcks(s: State, c: Config, step: Step)
    requires Enabled(s, c, step) && Touches(step)
    ensures AckedNow(s, Apply(s, c, step).alerts)
  {
  }

  /** Acknowledging open alerts now, or deleting any, keeps the tables. */
  lemma AckKeepsTables(s: State, alerts: Alerts)
    requires Tables(s) && AckedNow(s, alerts)
    ensures Tables(s.(alerts := alerts))
  {
    var t := s.(alerts := alerts);
    forall id <- t.alerts ensures Row(t, id) { assert Row(s, id); assert s.raised[id].at <= s.clock; }
  }

  lemma StepKeepsTables(s: State, c: Config, step: Step)
    requires Tables(s) && Enabled(s, c, step)
    ensures Tables(Apply(s, c, step))
  {
    var t := Apply(s, c, step);
    InsertsFrame(s, c, step);
    EpisodesStay(s, c, step);
    if Touches(step) {
      TouchesAcks(s, c, step);
      AckKeepsTables(s, t.alerts);
      SameTables(s.(alerts := t.alerts), t);
    } else if Inserts(s, c, step).Some? {
      var p := Inserts(s, c, step).value;
      CreateKeepsTables(s, p.outcome, p.agent);
      SameTables(Create(s, p.outcome, p.agent), t);
    } else {
      SameTables(s, t);
    }
  }

  lemma EpisodesStay(s: State, c: Config, step: Step)
    requires Tables(s) && Enabled(s, c, step)
    ensures var t := Apply(s, c, step);
            s.clock <= t.clock && forall a <- t.agents :: t.agents[a].episode <= |t.raised|
  {
    InsertsFrame(s, c, step);
    AgentsFrame(s, c, step);
  }

  // ---- Who is silent, and since when ----

  /** Alerts were only added, and whoever is silent already was, in the same silence. */
  predicate Follows(s: State, t: State) {
    && |s.raised| <= |t.raised| && t.raised[..|s.raised|] == s.raised
    && forall a <- t.agents :: t.agents[a].status == Offline ==>
         a in s.agents && s.agents[a].status == Offline && s.agents[a].episode == t.agents[a].episode
  }

  lemma StepFollows(s: State, c: Config, step: Step)
    requires Enabled(s, c, step) && !step.FlipBatch?
    ensures Follows(s, Apply(s, c, step))
  {
    InsertsFrame(s, c, step);
    AgentsFrame(s, c, step);
  }

  lemma StillAnnounced(s: State, t: State, a: string)
    requires Follows(s, t) && IsOffline(s, a) && IsOffline(t, a) && AnnouncedNow(s, a)
    ensures AnnouncedNow(t, a)
  {
    var k :| s.agents[a].episode <= k < |s.raised| && s.raised[k].kind == AgentOffline && s.raised[k].agent == a;
    assert t.raised[k] == t.raised[..|s.raised|][k];
  }

  /** Nothing has announced this agent. */
  predicate NothingNew(s: State, t: State, a: string) {
    forall k :: |s.raised| <= k < |t.raised| ==> !(t.raised[k].kind == AgentOffline && t.raised[k].agent == a)
  }

  /** Only the sweep's raise for this very agent announces it. */
  lemma StepAnnounces(s: State, c: Config, step: Step, a: string)
    requires Enabled(s, c, step) && !(step.RaiseNext? && s.phase.todo[0] == a)
    ensures NothingNew(s, Apply(s, c, step), a)
  {
    InsertsFrame(s, c, step);
    if Inserts(s, c, step).Some? { WhoInserts(s, c, step); }
  }

  lemma StillUnannounced(s: State, t: State, a: string)
    requires Follows(s, t) && NothingNew(s, t, a) && IsOffline(s, a) && IsOffline(t, a) && !AnnouncedNow(s, a)
    ensures !AnnouncedNow(t, a)
  {
    forall k | t.agents[a].episode <= k < |t.raised|
      ensures !(t.raised[k].kind == AgentOffline && t.raised[k].agent == a)
    {
      if k < |s.raised| { assert t.raised[..|s.raised|][k] == s.raised[k]; }
    }
  }

  lemma RaiseAnnounces(s: State, c: Config, a: string)
    requires Tables(s) && Enabled(s, c, RaiseNext) && s.phase.todo[0] == a && IsOffline(s, a)
    ensures AnnouncedNow(Apply(s, c, RaiseNext), a)
  {
    var t := Apply(s, c, RaiseNext);
    assert t.raised[|s.raised|].kind == AgentOffline && t.raised[|s.raised|].agent == a;
  }

  /** What is open for a silent agent, and no leftover, has announced this silence. */
  lemma OpenIsAnnounced(s: State, a: string)
    requires Tables(s) && !Leftover(s, a) && HasOpenOffline(s, a)
    ensures IsOffline(s, a) && AnnouncedNow(s, a)
  {
    var id :| id in s.alerts && s.alerts[id].kind == AgentOffline && s.alerts[id].agent == a && s.alerts[id].Open();
    assert Row(s, id);
  }

  // ---- The list to raise for ----

  lemma SameListKeepsBatch(s: State, t: State)
    requires BatchInv(s) && Follows(s, t)
    requires t.phase.Raising? ==>
        s.phase.Raising? && (t.phase.todo == s.phase.todo || t.phase.todo == Shorter(s.phase.todo))
    requires t.phase.Raising? ==> forall a <- t.phase.todo :: NothingNew(s, t, a)
    ensures BatchInv(t)
  {
    if t.phase.Raising? {
      forall a <- t.phase.todo | IsOffline(t, a) ensures !AnnouncedNow(t, a) { StillUnannounced(s, t, a); }
    }
  }

  function Shorter(todo: seq<string>): seq<string> { if todo == [] then [] else todo[1..] }

  /** The list is set when the batch is marked, and is only ever shortened from the front. */
  lemma ListShrinks(s: State, c: Config, step: Step)
    requires Enabled(s, c, step) && !step.FlipBatch? && !step.Select?
    ensures var t := Apply(s, c, step);
            (t.phase.Raising? || t.phase.Repairing?) ==>
              && Listing(s.phase) && t.phase.Raising? == s.phase.Raising?
              && (t.phase.todo == s.phase.todo || (s.phase.todo != [] && t.phase.todo == s.phase.todo[1..]))
              && (step.RaiseNext? ==> t.phase.todo == s.phase.todo[1..])
  {
    match step
    case CheckNext =>
    case _ =>
  }

  /** Marking a batch offline starts silences that nothing has announced yet. */
  lemma FlipKeepsBatch(s: State, c: Config, order: seq<string>)
    requires Enabled(s, c, FlipBatch(order))
    ensures BatchInv(Apply(s, c, FlipBatch(order)))
  {
    var t := Apply(s, c, FlipBatch(order));
    assert forall a <- order :: t.agents[a].episode == |t.raised|;
  }

  /** Each raise is for the head of the list, and announces nobody else on it. */
  lemma StepKeepsBatch(s: State, c: Config, step: Step)
    requires BatchInv(s) && Enabled(s, c, step)
    ensures BatchInv(Apply(s, c, step))
  {
    var t := Apply(s, c, step);
    if step.FlipBatch? {
      FlipKeepsBatch(s, c, step.order);
    } else if t.phase.Raising? {
      if !step.Select? { ListShrinks(s, c, step); }
      StepFollows(s, c, step);
      forall a <- t.phase.todo ensures NothingNew(s, t, a) {
        if step.RaiseNext? { NotTheHead(s.phase.todo, a); }
        StepAnnounces(s, c, step, a);
      }
      SameListKeepsBatch(s, t);
    }
  }

  lemma NotTheHead(todo: seq<string>, a: string)
    requires todo != [] && a in todo[1..] && forall i, j :: 0 <= i < j < |todo| ==> todo[i] != todo[j]
    ensures a != todo[0]
  {
    var i :| 0 <= i < |todo[1..]| && todo[1..][i] == a;
    assert todo[i + 1] == a;
  }

  // ---- Timing ----

  /** Seen now, or added now: an agent that is online at this instant is not overdue. */
  lemma OnlineNowKeepsTiming(s: State, c: Config, agent: string, row: Agent)
    requires Timing(s, c) && row.status == Online && row.lastSeen == s.clock
    ensures Timing(s.(agents := s.agents[agent := row]), c)
  {
  }

  lemma WriteKeepsTiming(s: State, c: Config, k: nat)
    requires Timing(s, c) && Enabled(s, c, Write(k))
    ensures Timing(Written(s, k), c)
  {
    var call := s.flights[k].call;
    var agents := Touched(s, call);
    if call.agent in agents {
      OnlineNowKeepsTiming(s, c, call.agent, agents[call.agent]);
      assert agents == s.agents[call.agent := agents[call.agent]];
    }
  }

  lemma FlipKeepsTiming(s: State, c: Config, order: seq<string>)
    requires Timing(s, c) && Enabled(s, c, FlipBatch(order))
    ensures Timing(Apply(s, c, FlipBatch(order)), c)
  {
  }

  lemma PhaseStays(s: State, c: Config, step: Step)
    requires Timing(s, c) && Enabled(s, c, step) && !MovesAgents(step)
    ensures PhaseInv(Apply(s, c, step), c)
  {
    AgentsFrame(s, c, step);
  }

  /** A tick in the grace period is too early for anyone to be overdue, and so is a boot. */
  lemma TicksStay(s: State, c: Config, step: Step)
    requires Timing(s, c) && Enabled(s, c, step) && !MovesAgents(step)
    ensures DetectedInTime(Apply(s, c, step), c)
  {
    AgentsFrame(s, c, step);
  }

  lemma StepKeepsTiming(s: State, c: Config, step: Step)
    requires Timing(s, c) && Enabled(s, c, step)
    ensures Timing(Apply(s, c, step), c)
  {
    if step.Write? {
      WriteKeepsTiming(s, c, step.k);
    } else if step.FlipBatch? {
      FlipKeepsTiming(s, c, step.order);
    } else if step.ProvisionBrowser? {
      OnlineNowKeepsTiming(s, c, step.agent, Agent(Online, Browser, s.clock, step.location, 0));
    } else {
      AgentsFrame(s, c, step);
      PhaseStays(s, c, step);
      TicksStay(s, c, step);
    }
  }

  // ---- Requests in flight ----

  predicate Continues(step: Step) {
    step.Write? || step.Settle? || step.Notify? || step.Judge? || step.Insert? || step.Drop? || step.Commit?
  }

  /** Every step but a start and an end leaves alone the requests it is not a part of. */
  lemma FlightsFrame(s: State, c: Config, step: Step, k: nat)
    requires Enabled(s, c, step) && !step.Stop?
    requires step.Read? || step.Decide? || step.DecideSchedule? ==> k != s.next
    requires Continues(step) ==> k != step.k
    ensures var t := Apply(s, c, step);
            (k in t.flights <==> k in s.flights) && (k in s.flights ==> t.flights[k] == s.flights[k])
  {
    match step
    case Write(_) =>
    case _ =>
  }

  lemma StepKeepsFlights(s: State, c: Config, step: Step)
    requires Timing(s, c) && FlightsInv(s) && Enabled(s, c, step)
    ensures FlightsInv(Apply(s, c, step))
  {
    var t := Apply(s, c, step);
    forall k <- t.flights
      ensures k < t.next && (Early(t) && t.flights[k].Returned? ==> !IsOffline(t, t.flights[k].call.agent))
    {
      NumbersStay(s, c, step, k);
      if Early(t) && t.flights[k].Returned? {
        EarlyStays(s, c, step);
        ReturnedIsOnline(s, c, step, k);
      }
    }
  }

  lemma NumbersStay(s: State, c: Config, step: Step, k: nat)
    requires FlightsInv(s) && Enabled(s, c, step) && k in Apply(s, c, step).flights
    ensures k < Apply(s, c, step).next
    ensures Apply(s, c, step).flights[k].Returned? ==>
              k in s.flights && (Apply(s, c, step).flights[k] == s.flights[k] || (step.Write? && step.k == k))
  {
    match step
    case Read(_) =>
    case Write(_) =>
    case Judge(_) =>
    case _ =>
  }

  lemma EarlyStays(s: State, c: Config, step: Step)
    requires Timing(s, c) && FlightsInv(s) && Enabled(s, c, step) && Early(Apply(s, c, step))
    ensures !step.FlipBatch? && (Early(s) || s.flights == map[])
  {
  }

  lemma ReturnedIsOnline(s: State, c: Config, step: Step, k: nat)
    requires FlightsInv(s) && Enabled(s, c, step) && !step.FlipBatch? && Early(s) && k in Apply(s, c, step).flights
    requires var f := Apply(s, c, step).flights[k];
             f.Returned? && k in s.flights && (f == s.flights[k] || (step.Write? && step.k == k))
    ensures !IsOffline(Apply(s, c, step), Apply(s, c, step).flights[k].call.agent)
  {
    StepFollows(s, c, step);
  }

  // ---- Between the sweep's check and its raise ----

  /** Suppression needs an open alert no older than the cooldown, so it only wears off until one is inserted. */
  lemma SuppressionWearsOff(s: State, c: Config, step: Step, kind: AlertType, agent: string)
    requires Enabled(s, c, step) && Suppressed(Apply(s, c, step), c, kind, agent)
    requires var p := Inserts(s, c, step); p.Some? ==> p.value.outcome.kind != kind || p.value.agent != agent
    ensures Suppressed(s, c, kind, agent)
  {
    var t := Apply(s, c, step);
    InsertsFrame(s, c, step);
    AgentsFrame(s, c, step);
    if Touches(step) { TouchesAcks(s, c, step); }
    var id :| id in t.alerts && t.alerts[id].kind == kind && t.alerts[id].agent == agent && t.alerts[id].Open()
              && t.alerts[id].at >= t.clock - c.cooldownMs;
    assert s.alerts[id] == t.alerts[id];
  }

  lemma StepKeepsCheck(s: State, c: Config, step: Step)
    requires CheckInv(s, c) && Enabled(s, c, step)
    ensures CheckInv(Apply(s, c, step), c)
  {
    var t := Apply(s, c, step);
    if !step.CheckNext? && Listing(t.phase) && t.phase.checked.Some? {
      CheckedStays(s, c, step);
      if Suppressed(t, c, AgentOffline, t.phase.todo[0]) {
        if Inserts(s, c, step).Some? { WhoInserts(s, c, step); }
        SuppressionWearsOff(s, c, step, AgentOffline, t.phase.todo[0]);
      }
    }
  }

  lemma CheckedStays(s: State, c: Config, step: Step)
    requires Enabled(s, c, step) && !step.CheckNext?
    requires Listing(Apply(s, c, step).phase) && Apply(s, c, step).phase.checked.Some?
    ensures !step.RaiseNext? && Apply(s, c, step).phase == s.phase
  {
    match step
    case RaiseNext =>
    case _ =>
  }

  // ---- Every step and every run, whatever interleaves ----

  lemma StepKeepsBase(s: State, c: Config, step: Step)
    requires BaseInv(s, c) && Enabled(s, c, step)
    ensures BaseInv(Apply(s, c, step), c)
  {
    StepKeepsTables(s, c, step);
    StepKeepsTiming(s, c, step);
    StepKeepsFlights(s, c, step);
    StepKeepsBatch(s, c, step);
    StepKeepsCheck(s, c, step);
  }

  lemma {:induction false} RunKeepsBase(s: State, c: Config, steps: seq<Step>)
    requires BaseInv(s, c) && Runs(s, c, steps)
    ensures BaseInv(Exec(s, c, steps), c)
    decreases |steps|
  {
    if steps != [] {
      StepKeepsBase(s, c, steps[0]);
      RunKeepsBase(Apply(s, c, steps[0]), c, steps[1..]);
    }
  }

  // ---- An agent stays clear unless an alert is stranded ----

  /** A recovery under way goes on until it acknowledges, its request fails, or the process ends. */
  lemma SettlingStays(s: State, c: Config, step: Step, a: string)
    requires FlightsInv(s) && Enabled(s, c, step) && Settling(s, a) && !step.Stop?
    requires step.Drop? ==> SettlingBut(s, a, step.k)
    requires step.Settle? ==> s.flights[step.k].call.agent != a
    ensures Settling(Apply(s, c, step), a)
  {
    var k :| k in s.flights && s.flights[k].Returned? && s.flights[k].call.agent == a && (step.Drop? ==> k != step.k);
    FlightsFrame(s, c, step, k);
  }

  /** The steps that can leave behind what was not left over before. */
  predicate Leaves(step: Step) { step.RaiseNext? || step.Write? || step.FlipBatch? }

  lemma LeftoverEarlier(s: State, c: Config, step: Step, a: string)
    requires Enabled(s, c, step) && !Leaves(step) && Leftover(Apply(s, c, step), a)
    ensures Leftover(s, a)
  {
    var t := Apply(s, c, step);
    AgentsFrame(s, c, step);
    var id :| id in t.alerts && t.alerts[id].kind == AgentOffline && t.alerts[id].agent == a && t.alerts[id].Open()
              && !(IsOffline(t, a) && t.agents[a].episode <= id);
    OpenEarlier(s, c, step, id);
    if step.ProvisionBrowser? { assert IsOffline(s, a) ==> t.agents[a] == s.agents[a]; }
  }

  /** Of silence alerts, only the sweep's raise brings a new one. */
  lemma OpenEarlier(s: State, c: Config, step: Step, id: nat)
    requires Enabled(s, c, step) && !step.RaiseNext? && id in Apply(s, c, step).alerts
    requires var alert := Apply(s, c, step).alerts[id]; alert.kind == AgentOffline && alert.Open()
    ensures id in s.alerts && s.alerts[id] == Apply(s, c, step).alerts[id]
  {
    InsertsFrame(s, c, step);
    if Touches(step) { TouchesAcks(s, c, step); }
    if Inserts(s, c, step).Some? { WhoInserts(s, c, step); }
  }

  /** Acknowledging leaves nothing open for its agent. */
  lemma SettledIsClear(s: State, c: Config, k: nat)
    requires Enabled(s, c, Settle(k))
    ensures Clear(Apply(s, c, Settle(k)), s.flights[k].call.agent)
  {
  }

  /** Only agents that are online are marked offline, and what is open for those is left over already. */
  lemma FlipKeepsClear(s: State, c: Config, order: seq<string>, a: string)
    requires Clear(s, a) && Enabled(s, c, FlipBatch(order))
    ensures Clear(Apply(s, c, FlipBatch(order)), a)
  {
    var t := Apply(s, c, FlipBatch(order));
    if Leftover(t, a) {
      var id :| id in t.alerts && t.alerts[id].kind == AgentOffline && t.alerts[id].agent == a && t.alerts[id].Open()
                && !(IsOffline(t, a) && t.agents[a].episode <= id);
      assert id in s.alerts && Leftover(s, a);
    }
  }

  lemma RaiseKeepsClear(s: State, c: Config, a: string)
    requires Tables(s) && FlightsInv(s) && Clear(s, a) && Enabled(s, c, RaiseNext) && !RaiseOvertaken(s, RaiseNext, a)
    ensures Clear(Apply(s, c, RaiseNext), a)
  {
    var t := Apply(s, c, RaiseNext);
    if Leftover(t, a) {
      var id :| id in t.alerts && t.alerts[id].kind == AgentOffline && t.alerts[id].agent == a && t.alerts[id].Open()
                && !(IsOffline(t, a) && t.agents[a].episode <= id);
      if id in s.alerts && id != |s.raised| { assert Leftover(s, a); }
      assert Settling(s, a);
      SettlingStays(s, c, RaiseNext, a);
    }
  }

  lemma WriteKeepsClear(s: State, c: Config, k: nat, a: string)
    requires FlightsInv(s) && Clear(s, a) && Enabled(s, c, Write(k)) && !WriteIsStale(s, Write(k), a)
    ensures Clear(Apply(s, c, Write(k)), a)
  {
    var t := Apply(s, c, Write(k));
    if Leftover(t, a) {
      var id :| id in t.alerts && t.alerts[id].kind == AgentOffline && t.alerts[id].agent == a && t.alerts[id].Open()
                && !(IsOffline(t, a) && t.agents[a].episode <= id);
      if s.flights[k].call.agent == a && s.flights[k].wasOffline {
        assert t.flights[k].Returned? && t.flights[k].call.agent == a;
      } else {
        if s.flights[k].call.agent != a { assert Leftover(s, a); } else { assert HasOpenOffline(s, a); }
        SettlingStays(s, c, Write(k), a);
      }
    }
  }

  lemma StepKeepsClear(s: State, c: Config, step: Step, a: string)
    requires Tables(s) && FlightsInv(s) && Clear(s, a) && Enabled(s, c, step) && !Strands(s, step, a)
    ensures Clear(Apply(s, c, step), a)
  {
    if step.RaiseNext? {
      RaiseKeepsClear(s, c, a);
    } else if step.Write? {
      WriteKeepsClear(s, c, step.k, a);
    } else if step.FlipBatch? {
      FlipKeepsClear(s, c, step.order, a);
    } else if step.Settle? && s.flights[step.k].call.agent == a {
      SettledIsClear(s, c, step.k);
    } else if Leftover(Apply(s, c, step), a) {
      LeftoverEarlier(s, c, step, a);
      SettlingStays(s, c, step, a);
    }
  }

  /** An overtaken raise leaves its online agent with an open offline alert. */
  lemma OvertakenRaiseBreaksClear(s: State, c: Config, a: string)
    requires Enabled(s, c, RaiseNext) && RaiseOvertaken(s, RaiseNext, a)
    ensures !Clear(Apply(s, c, RaiseNext), a)
  {
    var t := Apply(s, c, RaiseNext);
    assert t.alerts[|s.raised|].Open() && t.alerts[|s.raised|].agent == a && t.alerts[|s.raised|].kind == AgentOffline;
    assert t.flights == s.flights;
  }

  /** So does a stale write, which acknowledges nothing. */
  lemma StaleWriteBreaksClear(s: State, c: Config, k: nat, a: string)
    requires Clear(s, a) && Enabled(s, c, Write(k)) && WriteIsStale(s, Write(k), a)
    ensures !Clear(Apply(s, c, Write(k)), a)
  {
    var t := Apply(s, c, Write(k));
    var id :| id in s.alerts && s.alerts[id].kind == AgentOffline && s.alerts[id].agent == a && s.alerts[id].Open();
    assert !Leftover(s, a) && IsOffline(s, a);
    assert t.alerts[id] == s.alerts[id] && !IsOffline(t, a);
    assert Leftover(t, a);
    forall i <- t.flights ensures !(t.flights[i].Returned? && t.flights[i].call.agent == a) {
      if i != k { assert t.flights[i] == s.flights[i]; }
    }
  }

  /** And so does a recovery cut short before it acknowledges. */
  lemma AbandonedBreaksClear(s: State, c: Config, step: Step, a: string)
    requires Enabled(s, c, step) && Abandons(s, step, a)
    ensures !Clear(Apply(s, c, step), a)
  {
    var t := Apply(s, c, step);
    var id :| id in s.alerts && s.alerts[id].kind == AgentOffline && s.alerts[id].agent == a && s.alerts[id].Open()
              && !(IsOffline(s, a) && s.agents[a].episode <= id);
    assert t.alerts[id] == s.alerts[id] && t.agents == s.agents;
    assert Leftover(t, a);
    forall i <- t.flights ensures !(t.flights[i].Returned? && t.flights[i].call.agent == a) {
      assert t.flights[i] == s.flights[i] && i != step.k;
    }
  }

  // ---- The repair ----

  /** While the repair runs no recovery of a silent agent is under way: none was marked offline since the boot. */
  lemma NothingToSettle(s: State, a: string)
    requires FlightsInv(s) && Early(s) && IsOffline(s, a)
    ensures !Settling(s, a)
  {
  }

  /** The repair selects exactly the silences with nothing open; for the others something is. */
  lemma SelectKeepsRepair(s: State, c: Config, order: seq<string>, a: string)
    requires Tables(s) && AgentsInv(s) && FlightsInv(s) && Clear(s, a) && Enabled(s, c, Select(order))
    ensures RepairInv(Apply(s, c, Select(order)), a)
  {
    if IsOffline(s, a) && a !in order {
      assert a !in Unannounced(s);
      NothingToSettle(s, a);
      OpenIsAnnounced(s, a);
    }
  }

  lemma SuppressedIsOpen(s: State, c: Config, a: string)
    requires Suppressed(s, c, AgentOffline, a)
    ensures HasOpenOffline(s, a)
  {
  }

  /** The cooldown swallows an alert of the repair only for a silence that has been announced. */
  lemma CheckKeepsRepair(s: State, c: Config, a: string)
    requires Tables(s) && FlightsInv(s) && Clear(s, a) && RepairInv(s, a) && Enabled(s, c, CheckNext)
    ensures RepairInv(Apply(s, c, CheckNext), a)
  {
    var todo := s.phase.todo;
    assert todo == [todo[0]] + todo[1..];
    if s.phase.Repairing? && IsOffline(s, a) && a == todo[0] && Suppressed(s, c, AgentOffline, a) {
      SuppressedIsOpen(s, c, a);
      NothingToSettle(s, a);
      OpenIsAnnounced(s, a);
    }
  }

  /** Each of its raises takes one agent off the list and announces it. */
  lemma RaiseNextKeepsRepair(s: State, c: Config, a: string)
    requires Tables(s) && RepairInv(s, a) && Enabled(s, c, RaiseNext)
    ensures RepairInv(Apply(s, c, RaiseNext), a)
  {
    var todo, t := s.phase.todo, Apply(s, c, RaiseNext);
    assert todo == [todo[0]] + todo[1..];
    if t.phase.Repairing? && IsOffline(t, a) && a !in todo[1..] {
      StepFollows(s, c, RaiseNext);
      if a == todo[0] { RaiseAnnounces(s, c, a); } else { StillAnnounced(s, t, a); }
    }
  }

  lemma SamePhase(s: State, c: Config, step: Step)
    requires Enabled(s, c, step) && !step.Select? && !step.CheckNext? && !step.RaiseNext? && !step.RaiseFails?
    ensures Apply(s, c, step).phase.Repairing? ==> Apply(s, c, step).phase == s.phase
  {
  }

  lemma StepKeepsRepair(s: State, c: Config, step: Step, a: string)
    requires BaseInv(s, c) && Clear(s, a) && RepairInv(s, a) && Enabled(s, c, step)
    ensures RepairInv(Apply(s, c, step), a)
  {
    var t := Apply(s, c, step);
    if step.Select? {
      SelectKeepsRepair(s, c, step.order, a);
    } else if step.CheckNext? {
      CheckKeepsRepair(s, c, a);
    } else if step.RaiseNext? {
      RaiseNextKeepsRepair(s, c, a);
    } else if t.phase.Repairing? && IsOffline(t, a) && a !in t.phase.todo && !step.RaiseFails? {
      SamePhase(s, c, step);
      StepFollows(s, c, step);
      StillAnnounced(s, t, a);
    }
  }

  /** Whatever happens to the others, an agent with nothing stranded stays clear, and the repair announces it. */
  lemma {:induction false} RunKeepsClear(s: State, c: Config, steps: seq<Step>, a: string)
    requires BaseInv(s, c) && Clear(s, a) && RepairInv(s, a) && Runs(s, c, steps) && NeverStranded(s, c, steps, a)
    ensures BaseInv(Exec(s, c, steps), c) && Clear(Exec(s, c, steps), a) && RepairInv(Exec(s, c, steps), a)
    decreases |steps|
  {
    if steps != [] {
      StepKeepsBase(s, c, steps[0]);
      StepKeepsClear(s, c, steps[0], a);
      StepKeepsRepair(s, c, steps[0], a);
      RunKeepsClear(Apply(s, c, steps[0]), c, steps[1..], a);
    }
  }
}
