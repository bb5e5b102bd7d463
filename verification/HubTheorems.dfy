/**
 What the hub promises: silences are announced once and in time, repeats are spaced, and a disarm cannot hide an
 incident.
 */
module HubTheorems {
  import opened Options
  import opened AlertRules
  import opened Policy
  import opened Hub
  import opened HubProofs
  import opened Counting

  lemma FreshInv(now: nat, c: Config, a: string)
    ensures BaseInv(Fresh(now), c) && GateInv(Fresh(now)) && Clear(Fresh(now), a) && RepairInv(Fresh(now), a)
  {
  }

  // ---- An agent that is online has nothing open ----

  predicate AlwaysClear(s: State, c: Config, steps: seq<Step>, a: string)
    requires Runs(s, c, steps)
    decreases |steps|
  {
    Clear(s, a) && (steps != [] ==> AlwaysClear(Apply(s, c, steps[0]), c, steps[1..], a))
  }

  lemma StrandedBreaksClear(s: State, c: Config, step: Step, a: string)
    requires Clear(s, a) && Enabled(s, c, step) && Strands(s, step, a)
    ensures !Clear(Apply(s, c, step), a)
  {
    if RaiseOvertaken(s, step, a) {
      OvertakenRaiseBreaksClear(s, c, a);
    } else if WriteIsStale(s, step, a) {
      StaleWriteBreaksClear(s, c, step.k, a);
    } else {
      AbandonedBreaksClear(s, c, step, a);
    }
  }

  /**
   An agent's open offline alerts all belong to its present silence, or its recovery is just about to acknowledge them:
   this holds all through a run exactly when no raise for that agent is overtaken by its recovery, no sign of life that
   read it online is written under an open offline alert, and no recovery of it is cut short before it acknowledges.
   */
  lemma {:induction false} ClearIffNeverStranded(s: State, c: Config, steps: seq<Step>, a: string)
    requires BaseInv(s, c) && Clear(s, a) && Runs(s, c, steps)
    ensures AlwaysClear(s, c, steps, a) <==> NeverStranded(s, c, steps, a)
    decreases |steps|
  {
    if steps != [] {
      var t := Apply(s, c, steps[0]);
      StepKeepsBase(s, c, steps[0]);
      if Strands(s, steps[0], a) {
        StrandedBreaksClear(s, c, steps[0], a);
        assert !AlwaysClear(t, c, steps[1..], a);
      } else {
        StepKeepsClear(s, c, steps[0], a);
        ClearIffNeverStranded(t, c, steps[1..], a);
      }
    }
  }

  // ---- A silence is announced ----

  /**
   What loses a silent agent that the sweep was going to announce: the process ends first, the raise for it fails, or
   the cooldown swallows that raise.
   */
  predicate Loses(s: State, c: Config, step: Step, a: string) {
    IsOffline(s, a) && Awaits(s, a) &&
    (step.Stop?
     || (s.phase.todo[0] == a && (step.RaiseFails? || (step.CheckNext? && Suppressed(s, c, AgentOffline, a)))))
  }

  /** Exactly which silence a step leaves unannounced with no raise for it to come. */
  lemma LostIff(s: State, c: Config, step: Step, a: string)
    requires BaseInv(s, c) && Enabled(s, c, step) && !Lost(s, a)
    ensures Lost(Apply(s, c, step), a) <==> Loses(s, c, step, a)
  {
    var t := Apply(s, c, step);
    if step.FlipBatch? {
      FlipLosesNobody(s, c, step.order, a);
    } else {
      StepFollows(s, c, step);
      if IsOffline(s, a) && !AnnouncedNow(s, a) {
        AwaitingLostIff(s, c, step, a);
      } else {
        assert !Loses(s, c, step, a);
        if IsOffline(t, a) { StillAnnounced(s, t, a); }
      }
    }
  }

  lemma AwaitingLostIff(s: State, c: Config, step: Step, a: string)
    requires BaseInv(s, c) && Enabled(s, c, step) && !step.FlipBatch?
    requires IsOffline(s, a) && Awaits(s, a)
    ensures Lost(Apply(s, c, step), a) <==> Loses(s, c, step, a)
  {
    var todo, t := s.phase.todo, Apply(s, c, step);
    assert todo == [todo[0]] + todo[1..];
    if step.RaiseNext? && todo[0] == a {
      RaiseAnnounces(s, c, a);
    } else {
      StepAnnounces(s, c, step, a);
      StepFollows(s, c, step);
      if IsOffline(t, a) { StillUnannounced(s, t, a); }
      ListShrinks(s, c, step);
    }
  }

  lemma FlipLosesNobody(s: State, c: Config, order: seq<string>, a: string)
    requires Enabled(s, c, FlipBatch(order)) && !Lost(s, a)
    ensures !Lost(Apply(s, c, FlipBatch(order)), a)
  {
  }

  predicate AlwaysHeard(s: State, c: Config, steps: seq<Step>, a: string)
    requires Runs(s, c, steps)
    decreases |steps|
  {
    !Lost(s, a) && (steps != [] ==> AlwaysHeard(Apply(s, c, steps[0]), c, steps[1..], a))
  }

  predicate NeverLost(s: State, c: Config, steps: seq<Step>, a: string)
    requires Runs(s, c, steps)
    decreases |steps|
  {
    steps == [] || (!Loses(s, c, steps[0], a) && NeverLost(Apply(s, c, steps[0]), c, steps[1..], a))
  }

  /**
   All through a run an agent that is offline has been announced in its present silence, or the sweep is about to
   announce it, exactly when none of those three things happens to it. No other agent matters.
   */
  lemma {:induction false} HeardIffNeverLost(s: State, c: Config, steps: seq<Step>, a: string)
    requires BaseInv(s, c) && !Lost(s, a) && Runs(s, c, steps)
    ensures AlwaysHeard(s, c, steps, a) <==> NeverLost(s, c, steps, a)
    ensures NeverLost(s, c, steps, a) ==> !Lost(Exec(s, c, steps), a)
    decreases |steps|
  {
    if steps != [] {
      var t := Apply(s, c, steps[0]);
      StepKeepsBase(s, c, steps[0]);
      LostIff(s, c, steps[0], a);
      if Loses(s, c, steps[0], a) {
        assert !AlwaysHeard(t, c, steps[1..], a);
      } else {
        HeardIffNeverLost(t, c, steps[1..], a);
      }
    }
  }

  /** The sweep does not get to this agent, fails for it, or comes while an earlier recovery of it is unsettled. */
  predicate CutsOff(s: State, step: Step, a: string) {
    IsOffline(s, a) && Awaits(s, a) &&
    (step.Stop? || (s.phase.todo[0] == a && (step.RaiseFails? || (step.CheckNext? && Settling(s, a)))))
  }

  predicate NeverCutOff(s: State, c: Config, steps: seq<Step>, a: string)
    requires Runs(s, c, steps)
    decreases |steps|
  {
    steps == [] || (!CutsOff(s, steps[0], a) && NeverCutOff(Apply(s, c, steps[0]), c, steps[1..], a))
  }

  /** The cooldown swallows the first alert of a silence only if an alert of an earlier one was left open. */
  lemma OnlyLeftoversSwallow(s: State, c: Config, a: string)
    requires BaseInv(s, c) && IsOffline(s, a) && Awaits(s, a) && Suppressed(s, c, AgentOffline, a)
    ensures Leftover(s, a)
  {
    if !Leftover(s, a) {
      SuppressedIsOpen(s, c, a);
      OpenIsAnnounced(s, a);
      assert false;
    }
  }

  lemma {:induction false} ClearIsHeard(s: State, c: Config, steps: seq<Step>, a: string)
    requires BaseInv(s, c) && Clear(s, a) && !Lost(s, a) && Runs(s, c, steps)
    requires NeverStranded(s, c, steps, a) && NeverCutOff(s, c, steps, a)
    ensures NeverLost(s, c, steps, a)
    decreases |steps|
  {
    if steps != [] {
      if Loses(s, c, steps[0], a) {
        OnlyLeftoversSwallow(s, c, a);
        assert false;
      }
      StepKeepsBase(s, c, steps[0]);
      StepKeepsClear(s, c, steps[0], a);
      LostIff(s, c, steps[0], a);
      ClearIsHeard(Apply(s, c, steps[0]), c, steps[1..], a);
    }
  }

  /**
   Silences are always announced. Over every run in which no alert of this agent is stranded, whatever happens to
   others: once it is back and that is settled, nothing is open for it; and unless the sweep is cut off before it comes
   to this agent, it has been announced in its present silence or the running sweep is about to.
   */
  lemma SilenceIsAnnounced(now: nat, c: Config, steps: seq<Step>, a: string)
    requires Runs(Fresh(now), c, steps) && NeverStranded(Fresh(now), c, steps, a)
    ensures var t := Exec(Fresh(now), c, steps);
            && (!IsOffline(t, a) && !Settling(t, a) ==> !HasOpenOffline(t, a))
            && (NeverCutOff(Fresh(now), c, steps, a) && IsOffline(t, a) ==> AnnouncedNow(t, a) || Awaits(t, a))
  {
    FreshInv(now, c, a);
    RunKeepsClear(Fresh(now), c, steps, a);
    if NeverCutOff(Fresh(now), c, steps, a) {
      ClearIsHeard(Fresh(now), c, steps, a);
      HeardIffNeverLost(Fresh(now), c, steps, a);
    }
  }

  /** What a stranded alert costs: while younger than the cooldown it swallows the announcement of the next silence. */
  lemma LeftoverSwallowsNext(s: State, c: Config, a: string, id: nat)
    requires BaseInv(s, c) && Enabled(s, c, CheckNext) && IsOffline(s, a) && Awaits(s, a) && s.phase.todo[0] == a
    requires id in s.alerts && s.alerts[id].kind == AgentOffline && s.alerts[id].agent == a && s.alerts[id].Open()
    requires s.clock - s.alerts[id].at <= c.cooldownMs && c.cooldownMs > 0
    ensures Lost(Apply(s, c, CheckNext), a)
  {
    assert Suppressed(s, c, AgentOffline, a);
    assert !Lost(s, a) && Loses(s, c, CheckNext, a);
    LostIff(s, c, CheckNext, a);
  }

  // ---- Repair ----

  /** Wherever a crash struck, once the repair is through an offline agent with nothing stranded has been announced. */
  lemma RepairAnnounces(now: nat, c: Config, steps: seq<Step>, a: string)
    requires Runs(Fresh(now), c, steps) && NeverStranded(Fresh(now), c, steps, a)
    requires Enabled(Exec(Fresh(now), c, steps), c, EndRepair) && IsOffline(Exec(Fresh(now), c, steps), a)
    ensures AnnouncedNow(Exec(Fresh(now), c, steps), a) && !Lost(Apply(Exec(Fresh(now), c, steps), c, EndRepair), a)
  {
    FreshInv(now, c, a);
    RunKeepsClear(Fresh(now), c, steps, a);
  }

  /** A silent agent off the repair's list has an open offline alert. */
  predicate OpenUnlessListed(s: State, a: string) {
    s.phase.Repairing? && IsOffline(s, a) && a !in s.phase.todo ==> HasOpenOffline(s, a)
  }

  /** The repair goes on, whatever else does, and no operator acknowledges anything. */
  predicate RepairOnly(steps: seq<Step>) {
    forall i :: 0 <= i < |steps| ==>
      !steps[i].Stop? && !steps[i].RaiseFails? && !steps[i].EndRepair? && !steps[i].Ack?
  }

  /** The repair leaves an offline agent with an open offline alert, whatever comes in while it raises. */
  lemma {:induction false} RepairLeavesOpen(s: State, c: Config, steps: seq<Step>, a: string)
    requires BaseInv(s, c) && s.phase.Repairing? && OpenUnlessListed(s, a)
    requires RepairOnly(steps) && Runs(s, c, steps)
    ensures Exec(s, c, steps).phase.Repairing? && OpenUnlessListed(Exec(s, c, steps), a)
    decreases |steps|
  {
    if steps != [] {
      StepKeepsBase(s, c, steps[0]);
      RepairStep(s, c, steps[0], a);
      assert RepairOnly(steps[1..]);
      RepairLeavesOpen(Apply(s, c, steps[0]), c, steps[1..], a);
    }
  }

  /** The selection starts the repair off: whoever is not selected has something open. */
  lemma SelectedAreTheRest(s: State, c: Config, order: seq<string>, a: string)
    requires AgentsInv(s) && Enabled(s, c, Select(order))
    ensures var t := Apply(s, c, Select(order)); t.phase.Repairing? && OpenUnlessListed(t, a)
  {
    var t := Apply(s, c, Select(order));
    if IsOffline(s, a) && a !in order { assert a !in Unannounced(s); }
    assert HasOpenOffline(s, a) ==> HasOpenOffline(t, a);
  }

  /** What is open for an agent that is silent since before the boot is closed by nobody but an operator. */
  lemma StaysOpen(s: State, c: Config, step: Step, a: string)
    requires BaseInv(s, c) && Early(s) && Enabled(s, c, step) && !step.Ack? && HasOpenOffline(s, a)
    requires IsOffline(s, a)
    ensures HasOpenOffline(Apply(s, c, step), a)
  {
    var id :| id in s.alerts && s.alerts[id].kind == AgentOffline && s.alerts[id].agent == a && s.alerts[id].Open();
    NothingToSettle(s, a);
    assert StillOpen(s, id) && !Closes(s, step, id);
    ClosedIff(s, c, step, id);
    assert HasOpenOffline(Apply(s, c, step), a) by { KeyStays(s, c, step, id); }
  }

  lemma RepairStep(s: State, c: Config, step: Step, a: string)
    requires BaseInv(s, c) && s.phase.Repairing? && OpenUnlessListed(s, a)
    requires Enabled(s, c, step) && RepairOnly([step])
    ensures Apply(s, c, step).phase.Repairing? && OpenUnlessListed(Apply(s, c, step), a)
  {
    var todo, t := s.phase.todo, Apply(s, c, step);
    assert [step][0] == step;
    RepairGoesOn(s, c, step);
    StepFollows(s, c, step);
    if IsOffline(t, a) && a !in t.phase.todo {
      assert todo != [] ==> todo == [todo[0]] + todo[1..];
      if step.RaiseNext? && a == todo[0] {
        assert t.alerts[|s.raised|].Open();
      } else {
        if step.CheckNext? && a in todo { SuppressedIsOpen(s, c, a); }
        StaysOpen(s, c, step, a);
      }
    }
  }

  lemma RepairGoesOn(s: State, c: Config, step: Step)
    requires s.phase.Repairing? && Enabled(s, c, step) && !step.Stop? && !step.RaiseFails? && !step.EndRepair?
    ensures var t := Apply(s, c, step);
            && t.phase.Repairing? && !step.FlipBatch?
            && (if step.RaiseNext? || (step.CheckNext? && Suppressed(s, c, AgentOffline, s.phase.todo[0]))
                then t.phase.todo == s.phase.todo[1..] else t.phase.todo == s.phase.todo)
  {
    match step
    case CheckNext =>
    case _ =>
  }

  /** A repair that has failed is not tried again before the next boot. */
  lemma {:induction false} FailedRepairIsNotRetried(s: State, c: Config, steps: seq<Step>)
    requires s.up && s.reconciled && !s.phase.Selecting? && !s.phase.Repairing? && Runs(s, c, steps)
    requires forall i :: 0 <= i < |steps| ==> !steps[i].Stop?
    ensures forall i :: 0 <= i < |steps| ==> !steps[i].Select? && !steps[i].EndRepair?
    decreases |steps|
  {
    if steps != [] {
      NoRepairStarts(s, c, steps[0]);
      FailedRepairIsNotRetried(Apply(s, c, steps[0]), c, steps[1..]);
    }
  }

  lemma NoRepairStarts(s: State, c: Config, step: Step)
    requires s.up && s.reconciled && !s.phase.Selecting? && !s.phase.Repairing? && Enabled(s, c, step) && !step.Stop?
    ensures var t := Apply(s, c, step); t.up && t.reconciled && !t.phase.Selecting? && !t.phase.Repairing?
  {
    match step
    case CheckNext =>
    case _ =>
  }

  // ---- Announcing recovery ----

  /** How many recovery notices were ever posted for an agent. */
  function Notices(raised: seq<Alert>, agent: string): nat {
    if raised == [] then 0
    else
      var last := raised[|raised| - 1];
      Notices(raised[..|raised| - 1], agent) + if last.kind == AgentRecovered && last.agent == agent then 1 else 0
  }

  lemma NoticesSnoc(raised: seq<Alert>, alert: Alert, agent: string)
    ensures Notices(raised + [alert], agent)
         == Notices(raised, agent) + if alert.kind == AgentRecovered && alert.agent == agent then 1 else 0
  {
    assert (raised + [alert])[..|raised|] == raised;
  }

  function One(b: bool): nat { if b then 1 else 0 }

  /** A request that will post a notice for this agent. */
  predicate Owes(f: Flight, a: string) { (f.Returned? || f.Settled?) && f.call.agent == a }

  function Owing(s: State, a: string): set<nat> { set k | k in s.flights && Owes(s.flights[k], a) }

  /** The notices posted for an agent, and those on their way. */
  function Owed(s: State, a: string): nat { Notices(s.raised, a) + |Owing(s, a)| }

  /** The agent was offline and this step has brought it back. */
  predicate Recovers(s: State, t: State, a: string) { IsOffline(s, a) && a in t.agents && !IsOffline(t, a) }

  /** A sign of life of this agent is written, and the row read for it said offline, or online. */
  predicate Writes(s: State, step: Step, a: string, wasOffline: bool) {
    step.Write? && step.k in s.flights && s.flights[step.k].Loaded? && s.flights[step.k].call.agent == a
    && s.flights[step.k].wasOffline == wasOffline
  }

  /** Somebody else has brought the agent back since it was read: a second notice for one recovery. */
  predicate Repeated(s: State, step: Step, a: string) { Writes(s, step, a, true) && !IsOffline(s, a) }

  /** The agent was marked offline after it was read: a recovery without a notice. */
  predicate Missed(s: State, step: Step, a: string) { Writes(s, step, a, false) && IsOffline(s, a) }

  /** The notices that go with a request that fails, or with the process. */
  function Dropped(s: State, step: Step, a: string): nat {
    match step
    case Stop => |Owing(s, a)|
    case Drop(k) => One(k in Owing(s, a))
    case _ => 0
  }

  /** A notice is posted by exactly one kind of step: the last of a sign of life of this agent that read it offline. */
  lemma NoticeIff(s: State, c: Config, step: Step, a: string)
    requires Enabled(s, c, step)
    ensures Notices(Apply(s, c, step).raised, a)
         == Notices(s.raised, a) + One(step.Notify? && s.flights[step.k].call.agent == a)
  {
    InsertsFrame(s, c, step);
    if Inserts(s, c, step).Some? {
      var p := Inserts(s, c, step).value;
      WhoInserts(s, c, step);
      NoticesSnoc(s.raised, Alert(p.outcome.kind, p.outcome.severity, p.agent, s.clock, None), a);
    }
  }

  /** An agent is brought back by exactly one kind of step: a sign of life written while it is offline. */
  lemma RecoversIff(s: State, c: Config, step: Step, a: string)
    requires Enabled(s, c, step)
    ensures Recovers(s, Apply(s, c, step), a)
       <==> IsOffline(s, a) && (Writes(s, step, a, true) || Writes(s, step, a, false))
  {
    AgentsFrame(s, c, step);
  }

  lemma OwingIs(s: State, c: Config, step: Step, a: string)
    requires FlightsInv(s) && Enabled(s, c, step)
    ensures Owing(Apply(s, c, step), a)
         == if step.Stop? then {}
            else if Writes(s, step, a, true) then Owing(s, a) + {step.k}
            else if step.Notify? || step.Drop? then Owing(s, a) - {step.k}
            else Owing(s, a)
  {
    if !step.Stop? {
      forall k ensures OwesOn(s, c, step, a, k) { FlightGoesOn(s, c, step, a, k); }
    }
  }

  /** One request goes on owing a notice unless it posts it or fails, and one starts to when it has read offline. */
  predicate OwesOn(s: State, c: Config, step: Step, a: string, k: nat)
    requires Enabled(s, c, step)
  {
    k in Owing(Apply(s, c, step), a) <==>
      || (k in Owing(s, a) && !((step.Notify? || step.Drop?) && k == step.k))
      || (Writes(s, step, a, true) && k == step.k)
  }

  lemma FlightGoesOn(s: State, c: Config, step: Step, a: string, k: nat)
    requires FlightsInv(s) && Enabled(s, c, step) && !step.Stop?
    ensures OwesOn(s, c, step, a, k)
  {
    if Continues(step) && k == step.k {
      OwnFlight(s, c, step, a);
    } else if k == s.next {
      NextFlight(s, c, step, a);
    } else {
      FlightsFrame(s, c, step, k);
    }
  }

  lemma OwnFlight(s: State, c: Config, step: Step, a: string)
    requires FlightsInv(s) && Enabled(s, c, step) && Continues(step)
    ensures step.k in Owing(Apply(s, c, step), a)
       <==> Writes(s, step, a, true) || (step.Settle? && step.k in Owing(s, a))
    ensures step.Write? || step.Judge? || step.Insert? || step.Commit? ==> step.k !in Owing(s, a)
  {
    match step
    case Write(_) =>
    case _ =>
  }

  lemma NextFlight(s: State, c: Config, step: Step, a: string)
    requires FlightsInv(s) && Enabled(s, c, step)
    ensures s.next !in Owing(s, a) && s.next !in Owing(Apply(s, c, step), a)
  {
    match step
    case Write(_) =>
    case _ =>
  }

  /** What a step does to the notices posted or on their way. */
  lemma StepOwes(s: State, c: Config, step: Step, a: string)
    requires FlightsInv(s) && Enabled(s, c, step)
    ensures Owed(Apply(s, c, step), a) + Dropped(s, step, a) == Owed(s, a) + One(Writes(s, step, a, true))
  {
    NoticeIff(s, c, step, a);
    OwingIs(s, c, step, a);
    if Writes(s, step, a, true) { assert step.k !in Owing(s, a); }
    if step.Notify? { assert step.k in Owing(s, a) <==> s.flights[step.k].call.agent == a; }
  }

  function Recoveries(s: State, c: Config, steps: seq<Step>, a: string): nat
    requires Runs(s, c, steps)
    decreases |steps|
  {
    if steps == [] then 0
    else
      var t := Apply(s, c, steps[0]);
      One(Recovers(s, t, a)) + Recoveries(t, c, steps[1..], a)
  }

  function Repeats(s: State, c: Config, steps: seq<Step>, a: string): nat
    requires Runs(s, c, steps)
    decreases |steps|
  {
    if steps == [] then 0 else One(Repeated(s, steps[0], a)) + Repeats(Apply(s, c, steps[0]), c, steps[1..], a)
  }

  function Misses(s: State, c: Config, steps: seq<Step>, a: string): nat
    requires Runs(s, c, steps)
    decreases |steps|
  {
    if steps == [] then 0 else One(Missed(s, steps[0], a)) + Misses(Apply(s, c, steps[0]), c, steps[1..], a)
  }

  function Drops(s: State, c: Config, steps: seq<Step>, a: string): nat
    requires Runs(s, c, steps)
    decreases |steps|
  {
    if steps == [] then 0 else Dropped(s, steps[0], a) + Drops(Apply(s, c, steps[0]), c, steps[1..], a)
  }

  /**
   The account of recovery notices, over every run: one for each recovery, posted or on its way, less those missed or
   dropped, plus those repeated.
   */
  lemma {:induction false} RecoveriesAreAnnounced(s: State, c: Config, steps: seq<Step>, a: string)
    requires BaseInv(s, c) && Runs(s, c, steps)
    ensures Owed(Exec(s, c, steps), a) + Misses(s, c, steps, a) + Drops(s, c, steps, a)
         == Owed(s, a) + Recoveries(s, c, steps, a) + Repeats(s, c, steps, a)
    decreases |steps|
  {
    if steps != [] {
      StepKeepsBase(s, c, steps[0]);
      StepOwes(s, c, steps[0], a);
      RecoversIff(s, c, steps[0], a);
      RecoveriesAreAnnounced(Apply(s, c, steps[0]), c, steps[1..], a);
    }
  }

  /** Each recovery of this agent brings one notice, at once on its way, and nothing else brings or loses one. */
  predicate OneNoticeEach(s: State, c: Config, steps: seq<Step>, a: string)
    requires Runs(s, c, steps)
    decreases |steps|
  {
    steps == [] ||
    (var t := Apply(s, c, steps[0]);
     Owed(t, a) == Owed(s, a) + One(Recovers(s, t, a)) && OneNoticeEach(t, c, steps[1..], a))
  }

  /**
   The status read for each sign of life of this agent is still its status when that is written, and no recovery is
   cut short before its notice.
   */
  predicate ReadsAreFresh(s: State, c: Config, steps: seq<Step>, a: string)
    requires Runs(s, c, steps)
    decreases |steps|
  {
    steps == [] ||
    (!Repeated(s, steps[0], a) && !Missed(s, steps[0], a) && Dropped(s, steps[0], a) == 0
     && ReadsAreFresh(Apply(s, c, steps[0]), c, steps[1..], a))
  }

  /** Every recovery is posted exactly once, and nothing else as one, exactly when every read is fresh at its write. */
  lemma {:induction false} OneNoticeIffFresh(s: State, c: Config, steps: seq<Step>, a: string)
    requires BaseInv(s, c) && Runs(s, c, steps)
    ensures OneNoticeEach(s, c, steps, a) <==> ReadsAreFresh(s, c, steps, a)
    decreases |steps|
  {
    if steps != [] {
      StepKeepsBase(s, c, steps[0]);
      StepOwes(s, c, steps[0], a);
      RecoversIff(s, c, steps[0], a);
      OneNoticeIffFresh(Apply(s, c, steps[0]), c, steps[1..], a);
    }
  }

  // ---- Timing ----

  /**
   Detection bound: whenever the last sweep that marked agents began at most `period` ago, a device silent for
   longer than timeout + period since its last sign of life or the last boot is offline.
   */
  lemma OverdueIsOffline(now: nat, c: Config, steps: seq<Step>, agent: string, period: nat)
    requires Runs(Fresh(now), c, steps)
    requires var t := Exec(Fresh(now), c, steps);
             && t.up && t.clock <= t.lastTick + period
             && agent in t.agents && t.agents[agent].origin == Device
             && t.clock > Max(t.agents[agent].lastSeen, t.bootedAt) + c.timeoutMs + period
    ensures Exec(Fresh(now), c, steps).agents[agent].status == Offline
  {
    FreshInv(now, c, agent);
    RunKeepsBase(Fresh(now), c, steps);
  }

  /** A sweep marks its batch while this device was overdue when the sweep began. */
  predicate MarksOffline(s: State, c: Config, step: Step, agent: string)
    requires agent in s.agents && Enabled(s, c, step)
  {
    step.FlipBatch? && s.agents[agent].origin == Device && s.agents[agent].lastSeen + c.timeoutMs < s.phase.now
  }

  /** Exactly when an online agent is marked offline; no step ever forgets an agent. */
  lemma MarkedOfflineIff(s: State, c: Config, step: Step, agent: string)
    requires Enabled(s, c, step) && agent in s.agents && s.agents[agent].status == Online
    ensures agent in Apply(s, c, step).agents
    ensures Apply(s, c, step).agents[agent].status == Offline <==> MarksOffline(s, c, step, agent)
  {
    if !step.FlipBatch? { AgentsFrame(s, c, step); }
  }

  /** Heard from within the timeout, or the grace period is still on. */
  predicate Lively(s: State, c: Config, agent: string)
    requires agent in s.agents
  {
    s.clock <= s.agents[agent].lastSeen + c.timeoutMs || s.clock < s.bootedAt + c.timeoutMs
  }

  predicate AlwaysLively(s: State, c: Config, steps: seq<Step>, agent: string)
    requires Runs(s, c, steps)
    decreases |steps|
  {
    agent in s.agents && (s.up ==> Lively(s, c, agent)) &&
    (steps != [] ==> AlwaysLively(Apply(s, c, steps[0]), c, steps[1..], agent))
  }

  /** A device that keeps reporting within the timeout is never marked offline, through any restarts and crashes. */
  lemma {:induction false} LivelyStaysOnline(s: State, c: Config, steps: seq<Step>, agent: string)
    requires BaseInv(s, c) && Runs(s, c, steps) && AlwaysLively(s, c, steps, agent) && s.agents[agent].status == Online
    ensures agent in Exec(s, c, steps).agents && Exec(s, c, steps).agents[agent].status == Online
    decreases |steps|
  {
    if steps != [] {
      MarkedOfflineIff(s, c, steps[0], agent);
      StepKeepsBase(s, c, steps[0]);
      LivelyStaysOnline(Apply(s, c, steps[0]), c, steps[1..], agent);
    }
  }

  /** The edge: a sweep that begins exactly one timeout after the boot marks a device last heard from before it. */
  lemma ExactTimeoutAfterBootIsOffline(s: State, c: Config, agent: string, order: seq<string>)
    requires Enabled(s, c, FlipBatch(order)) && s.phase.now == s.bootedAt + c.timeoutMs
    requires agent in s.agents && s.agents[agent].status == Online && s.agents[agent].origin == Device
    requires s.agents[agent].lastSeen < s.bootedAt
    ensures Apply(s, c, FlipBatch(order)).agents[agent].status == Offline
  {
    MarkedOfflineIff(s, c, FlipBatch(order), agent);
  }

  // ---- Spacing ----

  predicate Keyed(a: Alert, kind: AlertType, agent: string) { a.kind == kind && a.agent == agent }

  /** Two alerts inside one cooldown: the earlier was acknowledged before the later was raised. */
  predicate Spaced(a: Alert, b: Alert, cooldown: int) {
    b.at - a.at <= cooldown ==> a.ackedAt.Some? && a.ackedAt.value <= b.at
  }

  ghost predicate KeySpaced(s: State, c: Config, kind: AlertType, agent: string) {
    c.cooldownMs > 0 ==>
      forall i, j {:trigger Spaced(s.alerts[i], s.alerts[j], c.cooldownMs)} ::
        i in s.alerts && j in s.alerts && i < j && Keyed(s.alerts[i], kind, agent)
            && Keyed(s.alerts[j], kind, agent) ==>
          Spaced(s.alerts[i], s.alerts[j], c.cooldownMs)
  }

  /** An alert that the cooldown would have swallowed by the time it is inserted. */
  predicate Doubles(s: State, c: Config, step: Step, kind: AlertType, agent: string)
    requires Enabled(s, c, step)
  {
    var p := Inserts(s, c, step);
    p.Some? && p.value.outcome.kind == kind && p.value.agent == agent && Suppressed(s, c, kind, agent)
  }

  /** A new alert is more than a cooldown after every unacknowledged one of its key. */
  lemma CreateKeepsSpacing(s: State, c: Config, o: Outcome, agent: string, kind: AlertType, about: string)
    requires Tables(s) && KeySpaced(s, c, kind, about)
    requires o.kind == kind && agent == about ==> !Suppressed(s, c, kind, agent)
    ensures KeySpaced(Create(s, o, agent), c, kind, about)
  {
    var t := Create(s, o, agent);
    if c.cooldownMs > 0 {
      forall i <- t.alerts, j <- t.alerts | i < j && Keyed(t.alerts[i], kind, about) && Keyed(t.alerts[j], kind, about)
        ensures Spaced(t.alerts[i], t.alerts[j], c.cooldownMs)
      {
        if i in s.alerts { assert Row(s, i); }
        if j in s.alerts {
          assert Row(s, j) && i in s.alerts;
          assert Spaced(s.alerts[i], s.alerts[j], c.cooldownMs);
        }
      }
    }
  }

  /** Acknowledging or deleting keeps the spacing: what was still open had nothing too close after it. */
  lemma AckKeepsSpacing(s: State, c: Config, alerts: Alerts, kind: AlertType, agent: string)
    requires KeySpaced(s, c, kind, agent) && AckedNow(s, alerts)
    ensures KeySpaced(s.(alerts := alerts), c, kind, agent)
  {
    if c.cooldownMs > 0 {
      forall i <- alerts, j <- alerts | i < j && Keyed(alerts[i], kind, agent) && Keyed(alerts[j], kind, agent)
        ensures Spaced(alerts[i], alerts[j], c.cooldownMs)
      {
        assert Spaced(s.alerts[i], s.alerts[j], c.cooldownMs);
      }
    }
  }

  lemma StepKeepsSpacing(s: State, c: Config, step: Step, kind: AlertType, agent: string)
    requires Tables(s) && KeySpaced(s, c, kind, agent) && Enabled(s, c, step) && !Doubles(s, c, step, kind, agent)
    ensures KeySpaced(Apply(s, c, step), c, kind, agent)
  {
    InsertsFrame(s, c, step);
    if Touches(step) {
      TouchesAcks(s, c, step);
      AckKeepsSpacing(s, c, Apply(s, c, step).alerts, kind, agent);
    } else if Inserts(s, c, step).Some? {
      var p := Inserts(s, c, step).value;
      CreateKeepsSpacing(s, c, p.outcome, p.agent, kind, agent);
    }
  }

  lemma DoubleBreaksSpacing(s: State, c: Config, step: Step, kind: AlertType, agent: string)
    requires Tables(s) && Enabled(s, c, step) && Doubles(s, c, step, kind, agent)
    ensures !KeySpaced(Apply(s, c, step), c, kind, agent)
  {
    var t := Apply(s, c, step);
    InsertsFrame(s, c, step);
    var id :| id in s.alerts && s.alerts[id].kind == kind && s.alerts[id].agent == agent && s.alerts[id].Open()
              && s.alerts[id].at >= s.clock - c.cooldownMs;
    assert Row(s, id) && t.alerts[id] == s.alerts[id];
    assert !Spaced(t.alerts[id], t.alerts[|s.raised|], c.cooldownMs);
  }

  ghost predicate AlwaysSpaced(s: State, c: Config, steps: seq<Step>, kind: AlertType, agent: string)
    requires Runs(s, c, steps)
    decreases |steps|
  {
    KeySpaced(s, c, kind, agent) && (steps != [] ==> AlwaysSpaced(Apply(s, c, steps[0]), c, steps[1..], kind, agent))
  }

  predicate NeverDoubled(s: State, c: Config, steps: seq<Step>, kind: AlertType, agent: string)
    requires Runs(s, c, steps)
    decreases |steps|
  {
    steps == [] ||
    (!Doubles(s, c, steps[0], kind, agent) && NeverDoubled(Apply(s, c, steps[0]), c, steps[1..], kind, agent))
  }

  /**
   The cooldown keeps alerts of one type and agent apart exactly as long as none is inserted that it would swallow by
   then, although it let it through when it was asked.
   */
  lemma {:induction false} SpacedIffNeverDoubled(s: State, c: Config, steps: seq<Step>, kind: AlertType, agent: string)
    requires Tables(s) && KeySpaced(s, c, kind, agent) && Runs(s, c, steps)
    ensures AlwaysSpaced(s, c, steps, kind, agent) <==> NeverDoubled(s, c, steps, kind, agent)
    ensures NeverDoubled(s, c, steps, kind, agent) ==>
              Tables(Exec(s, c, steps)) && KeySpaced(Exec(s, c, steps), c, kind, agent)
    decreases |steps|
  {
    if steps != [] {
      var t := Apply(s, c, steps[0]);
      StepKeepsTables(s, c, steps[0]);
      if Doubles(s, c, steps[0], kind, agent) {
        DoubleBreaksSpacing(s, c, steps[0], kind, agent);
        assert !AlwaysSpaced(t, c, steps[1..], kind, agent);
      } else {
        StepKeepsSpacing(s, c, steps[0], kind, agent);
        SpacedIffNeverDoubled(t, c, steps[1..], kind, agent);
      }
    }
  }

  /** A step of the run inserts an alert of this type and agent. */
  predicate InsertsKey(s: State, c: Config, steps: seq<Step>, kind: AlertType, agent: string)
    requires Runs(s, c, steps)
    decreases |steps|
  {
    steps != [] &&
    (var p := Inserts(s, c, steps[0]);
     (p.Some? && p.value.outcome.kind == kind && p.value.agent == agent)
     || InsertsKey(Apply(s, c, steps[0]), c, steps[1..], kind, agent))
  }

  /** Only overlaps double an alert: another of its key was inserted since the cooldown let this one through. */
  lemma {:induction false} OnlyOverlapsDouble(s: State, c: Config, steps: seq<Step>, kind: AlertType, agent: string)
    requires !Suppressed(s, c, kind, agent) && Runs(s, c, steps) && Suppressed(Exec(s, c, steps), c, kind, agent)
    ensures InsertsKey(s, c, steps, kind, agent)
    decreases |steps|
  {
    var t := Apply(s, c, steps[0]);
    if Suppressed(t, c, kind, agent) {
      if !InsertsKey(s, c, steps, kind, agent) { SuppressionWearsOff(s, c, steps[0], kind, agent); }
    } else {
      OnlyOverlapsDouble(t, c, steps[1..], kind, agent);
    }
  }

  /** The sweep never doubles: nobody else announces a silence between its check and its raise. */
  lemma SilencesAreNeverDoubled(s: State, c: Config, step: Step, agent: string)
    requires BaseInv(s, c) && Enabled(s, c, step)
    ensures !Doubles(s, c, step, AgentOffline, agent)
  {
    if Doubles(s, c, step, AgentOffline, agent) { WhoInserts(s, c, step); }
  }

  lemma {:induction false} RunNeverDoublesSilences(s: State, c: Config, steps: seq<Step>, agent: string)
    requires BaseInv(s, c) && Runs(s, c, steps)
    ensures NeverDoubled(s, c, steps, AgentOffline, agent)
    decreases |steps|
  {
    if steps != [] {
      SilencesAreNeverDoubled(s, c, steps[0], agent);
      StepKeepsBase(s, c, steps[0]);
      RunNeverDoublesSilences(Apply(s, c, steps[0]), c, steps[1..], agent);
    }
  }

  /**
   Two alerts of one type and agent closer than the cooldown: the earlier one was acknowledged before the later was
   raised.
   */
  lemma CloserPairWasAcknowledged(s: State, c: Config, i: nat, j: nat)
    requires Tables(s) && c.cooldownMs > 0 && i in s.alerts && j in s.alerts && i < j
    requires Keyed(s.alerts[j], s.alerts[i].kind, s.alerts[i].agent)
    requires KeySpaced(s, c, s.alerts[i].kind, s.alerts[i].agent) && s.alerts[j].at - s.alerts[i].at <= c.cooldownMs
    ensures s.alerts[i].ackedAt.Some? && s.alerts[i].at <= s.alerts[i].ackedAt.value <= s.alerts[j].at
  {
    assert Spaced(s.alerts[i], s.alerts[j], c.cooldownMs);
    assert Row(s, i);
  }

  /** Unacknowledged alerts of one type and agent. */
  predicate OneOpenKey(s: State, ids: set<nat>, kind: AlertType, agent: string) {
    forall id <- ids :: id in s.alerts && s.alerts[id].Open() && s.alerts[id].kind == kind
        && s.alerts[id].agent == agent
  }

  function Newest(ids: set<nat>): (id: nat)
    requires ids != {}
    ensures id in ids && forall i <- ids :: i <= id
  {
    var xs: set<int> := set i | i in ids :: i as int;
    assert Pick(ids) as int in xs;
    assert forall i <- ids :: i as int in xs;
    MaxOf(xs)
  }

  /** `n` unacknowledged alerts of one type and agent span more than `n - 1` cooldowns. */
  lemma {:induction false} OpenAlertsSpread(s: State, c: Config, ids: set<nat>, kind: AlertType, agent: string)
    returns (first: nat)
    requires KeySpaced(s, c, kind, agent) && c.cooldownMs > 0 && ids != {} && OneOpenKey(s, ids, kind, agent)
    ensures first in ids
    ensures s.alerts[Newest(ids)].at - s.alerts[first].at >= (|ids| - 1) * (c.cooldownMs + 1)
  {
    var last := Newest(ids);
    var rest := ids - {last};
    if rest == {} {
      assert ids == {last};
      first := last;
    } else {
      first := OpenAlertsSpread(s, c, rest, kind, agent);
      var before := Newest(rest);
      OpenPairIsSpaced(s, c, before, last);
      OneMore(|rest|, c.cooldownMs + 1);
    }
  }

  lemma OpenPairIsSpaced(s: State, c: Config, i: nat, j: nat)
    requires i in s.alerts && j in s.alerts && i < j && s.alerts[i].Open() && c.cooldownMs > 0
    requires Keyed(s.alerts[j], s.alerts[i].kind, s.alerts[i].agent)
    requires KeySpaced(s, c, s.alerts[i].kind, s.alerts[i].agent)
    ensures s.alerts[j].at - s.alerts[i].at >= c.cooldownMs + 1
  {
    assert Spaced(s.alerts[i], s.alerts[j], c.cooldownMs);
  }

  lemma OneMore(n: int, step: int)
    ensures n * step == (n - 1) * step + step
  {
  }

  /**
   However many events arrive, over every run that doubles none, a window of L milliseconds holds at most
   ceil(L / (cooldown + 1)) unacknowledged alerts of one type and agent; and silences are never doubled.
   */
  lemma RepeatsAreBounded(now: nat, c: Config, steps: seq<Step>, ids: set<nat>, kind: AlertType, agent: string,
      from: int, length: nat)
    requires Runs(Fresh(now), c, steps) && c.cooldownMs > 0 && length > 0
    requires kind == AgentOffline || NeverDoubled(Fresh(now), c, steps, kind, agent)
    requires OneOpenKey(Exec(Fresh(now), c, steps), ids, kind, agent)
    requires forall id <- ids :: from <= Exec(Fresh(now), c, steps).alerts[id].at < from + length
    ensures |ids| <= (length - 1) / (c.cooldownMs + 1) + 1
  {
    if ids != {} {
      FreshInv(now, c, agent);
      if kind == AgentOffline { RunNeverDoublesSilences(Fresh(now), c, steps, agent); }
      SpacedIffNeverDoubled(Fresh(now), c, steps, kind, agent);
      var first := OpenAlertsSpread(Exec(Fresh(now), c, steps), c, ids, kind, agent);
      FitsIn(|ids| - 1, c.cooldownMs + 1, length - 1);
    }
  }

  lemma FitsIn(n: nat, c: int, room: nat)
    requires c > 0 && n * c <= room
    ensures n <= room / c
  {
    var q := room / c;
    assert n * c <= room < (q + 1) * c;
    assert n >= q + 1 ==> n * c >= (q + 1) * c;
  }

  // ---- Incidents ----

  /** May acknowledge, and the alert's agent is in one of the caller's zones, up to case, unless there are none. */
  predicate Entitled(who: Identity, s: State, id: nat) {
    && AlertsAck in who.permissions
    && (who.zones == []
        || (id in s.alerts && s.alerts[id].agent in s.agents
            && exists z <- who.zones :: SameName(z, s.agents[s.alerts[id].agent].location)))
  }

  lemma EntitledIff(who: Identity, s: State, id: nat)
    ensures CanAcknowledgeAlert(who, AlertLocation(s, id)).Allowed? <==> Entitled(who, s, id)
  {
    AcknowledgeRule(who, AlertLocation(s, id));
  }

  /**
   What ends an alert's being open: a permitted acknowledgement or, for a silence, a recovery of that agent: a sign of
   life that read it offline.
   */
  predicate Closes(s: State, step: Step, id: nat)
    requires id in s.alerts
  {
    || (step.Ack? && step.alert == id && Entitled(step.who, s, id))
    || (s.alerts[id].kind == AgentOffline && step.Settle? && step.k in s.flights && s.flights[step.k].Returned?
        && s.flights[step.k].call.agent == s.alerts[id].agent)
  }

  predicate StillOpen(s: State, id: nat) { id in s.alerts && s.alerts[id].Open() }

  /**
   Neither a sweep, a crash, a prune, a mode change nor anyone else's activity closes an alert; these two things do.
   */
  lemma ClosedIff(s: State, c: Config, step: Step, id: nat)
    requires Tables(s) && Enabled(s, c, step) && StillOpen(s, id)
    ensures !StillOpen(Apply(s, c, step), id) <==> Closes(s, step, id)
    ensures id in Apply(s, c, step).alerts
  {
    assert Row(s, id);
    if Touches(step) { TouchCloses(s, c, step, id); } else { UntouchedStays(s, c, step, id); }
  }

  lemma TouchCloses(s: State, c: Config, step: Step, id: nat)
    requires Enabled(s, c, step) && Touches(step) && StillOpen(s, id)
    ensures !StillOpen(Apply(s, c, step), id) <==> Closes(s, step, id)
    ensures id in Apply(s, c, step).alerts
  {
    match step
    case Ack(who, alert) => EntitledIff(who, s, alert);
    case _ =>
  }

  /** Sweeps, crashes, boots, other requests and mode changes leave every alert as it is. */
  lemma UntouchedStays(s: State, c: Config, step: Step, id: nat)
    requires Enabled(s, c, step) && !Touches(step) && id in s.alerts && id < |s.raised|
    ensures id in Apply(s, c, step).alerts && Apply(s, c, step).alerts[id] == s.alerts[id]
  {
    InsertsFrame(s, c, step);
  }

  lemma KeyStays(s: State, c: Config, step: Step, id: nat)
    requires Tables(s) && Enabled(s, c, step) && id in s.alerts && id in Apply(s, c, step).alerts
    ensures Apply(s, c, step).alerts[id].(ackedAt := None) == s.alerts[id].(ackedAt := None)
  {
    StepEvolves(s, c, step);
  }

  /** Rows never change but for their acknowledgement, and new ones are numbered past everything raised before. */
  predicate Evolved(s: State, t: State) {
    && |s.raised| <= |t.raised|
    && forall id <- t.alerts ::
         if id in s.alerts
         then t.alerts[id] == s.alerts[id]
             || (s.alerts[id].Open() && t.alerts[id] == s.alerts[id].(ackedAt := Some(s.clock)))
         else |s.raised| <= id
  }

  lemma StepEvolves(s: State, c: Config, step: Step)
    requires Tables(s) && Enabled(s, c, step)
    ensures Evolved(s, Apply(s, c, step))
  {
    InsertsFrame(s, c, step);
    if Touches(step) { TouchesAcks(s, c, step); }
    assert forall id <- s.alerts :: Row(s, id);
  }

  /** A step of the run closed this alert: a permitted acknowledgement of it, or its silent agent reporting in. */
  predicate ClosedDuring(s: State, c: Config, steps: seq<Step>, id: nat)
    requires Runs(s, c, steps)
    decreases |steps|
  {
    steps != [] && id in s.alerts &&
    (Closes(s, steps[0], id) || ClosedDuring(Apply(s, c, steps[0]), c, steps[1..], id))
  }

  /** An open alert stays open, with its severity, until one of those two things closes it. */
  lemma {:induction false} OpenUntilClosed(s: State, c: Config, steps: seq<Step>, id: nat)
    requires Tables(s) && Runs(s, c, steps) && StillOpen(s, id) && !ClosedDuring(s, c, steps, id)
    ensures StillOpen(Exec(s, c, steps), id) && Exec(s, c, steps).alerts[id].severity == s.alerts[id].severity
    decreases |steps|
  {
    if steps != [] {
      StepKeepsTables(s, c, steps[0]);
      ClosedIff(s, c, steps[0], id);
      StepEvolves(s, c, steps[0]);
      OpenUntilClosed(Apply(s, c, steps[0]), c, steps[1..], id);
    }
  }

  // ---- The disarm gate ----

  /**
   A request to disarm that no admin has answered for: whatever is critical and open was raised after the policy
   decided.
   */
  predicate Gated(s: State, f: Flight) {
    f.Granted? ==>
      && f.seen <= |s.raised|
      && (f.target == Disarmed && !f.byAdmin ==> forall id <- OpenCriticals(s) :: f.seen <= id)
  }

  predicate GateInv(s: State) { forall k <- s.flights :: Gated(s, s.flights[k]) }

  lemma StillCritical(s: State, c: Config, step: Step, id: nat)
    requires Tables(s) && Enabled(s, c, step) && id in OpenCriticals(Apply(s, c, step)) && id < |s.raised|
    ensures id in OpenCriticals(s)
  {
    StepEvolves(s, c, step);
  }

  lemma GateStays(s: State, c: Config, step: Step, f: Flight)
    requires Tables(s) && Enabled(s, c, step) && Gated(s, f)
    ensures Gated(Apply(s, c, step), f)
  {
    StepEvolves(s, c, step);
    if f.Granted? && f.target == Disarmed && !f.byAdmin {
      forall id <- OpenCriticals(Apply(s, c, step)) ensures f.seen <= id {
        if id < |s.raised| { StillCritical(s, c, step, id); }
      }
    }
  }

  /**
   A mode change is granted only as asked for, as the policy allows on the count at that moment, and by nothing else.
   */
  lemma RequestsAreDecided(s: State, c: Config, step: Step, k: nat)
    requires Enabled(s, c, step) && k in Apply(s, c, step).flights && Apply(s, c, step).flights[k].Granted?
    ensures var f := Apply(s, c, step).flights[k];
            || (k in s.flights && s.flights[k] == f)
            || ((step.Decide? || step.DecideSchedule?) && f.seen == |s.raised| && f.target == step.target
                && (f.byAdmin <==> step.Decide? && step.who.role == Admin)
                && (f.target == Disarmed && !f.byAdmin ==> OpenCriticals(s) == {})
                && (step.Decide? ==>
                    (if f.target == Disarmed then SystemDisarm else SystemArm) in step.who.permissions))
  {
    match step
    case Decide(who, target) => DisarmRule(who, |OpenCriticals(s)|);
    case DecideSchedule(target) =>
    case _ => NothingElseGrants(s, c, step, k);
  }

  lemma NothingElseGrants(s: State, c: Config, step: Step, k: nat)
    requires Enabled(s, c, step) && !step.Decide? && !step.DecideSchedule?
    requires k in Apply(s, c, step).flights && Apply(s, c, step).flights[k].Granted?
    ensures k in s.flights && s.flights[k] == Apply(s, c, step).flights[k]
  {
    match step
    case Write(_) =>
    case _ =>
  }

  lemma StepKeepsGate(s: State, c: Config, step: Step)
    requires Tables(s) && GateInv(s) && Enabled(s, c, step)
    ensures GateInv(Apply(s, c, step))
  {
    var t := Apply(s, c, step);
    forall k <- t.flights ensures Gated(t, t.flights[k]) {
      if t.flights[k].Granted? {
        RequestsAreDecided(s, c, step, k);
        GateStays(s, c, step, t.flights[k]);
      }
    }
  }

  lemma {:induction false} RunKeepsGate(s: State, c: Config, steps: seq<Step>)
    requires Tables(s) && GateInv(s) && Runs(s, c, steps)
    ensures Tables(Exec(s, c, steps)) && GateInv(Exec(s, c, steps))
    decreases |steps|
  {
    if steps != [] {
      StepKeepsTables(s, c, steps[0]);
      StepKeepsGate(s, c, steps[0]);
      RunKeepsGate(Apply(s, c, steps[0]), c, steps[1..]);
    }
  }

  /** Only a commit changes the mode. */
  lemma ModeChangesByCommit(s: State, c: Config, step: Step)
    requires Tables(s) && Enabled(s, c, step) && Apply(s, c, step).mode != s.mode
    ensures step.Commit? && Apply(s, c, step).mode == s.flights[step.k].target
  {
    match step
    case Write(_) =>
    case _ =>
  }

  /** Every critical alert raised since the policy counted has been closed again. */
  predicate LateOnesClosed(s: State, seen: nat) {
    forall id <- s.alerts :: seen <= id && s.alerts[id].severity == Critical ==> !s.alerts[id].Open()
  }

  lemma NoneOpenIff(s: State, seen: nat)
    requires forall id <- OpenCriticals(s) :: seen <= id
    ensures OpenCriticals(s) == {} <==> LateOnesClosed(s, seen)
  {
    if LateOnesClosed(s, seen) {
      forall id ensures id !in OpenCriticals(s) {}
    } else {
      var id :| id in s.alerts && seen <= id && s.alerts[id].severity == Critical && s.alerts[id].Open();
      assert id in OpenCriticals(s);
    }
  }

  /**
   The disarm gate, over every run and every interleaving: the mode changes only by committing a request the
   policy allowed, and when a schedule or a non-admin disarms, every critical alert still open was raised after
   the policy counted. So none is open exactly when all critical alerts raised since have been closed.
   */
  lemma DisarmIsGated(now: nat, c: Config, steps: seq<Step>, step: Step)
    requires Runs(Fresh(now), c, steps)
    requires var s := Exec(Fresh(now), c, steps);
             Enabled(s, c, step) && s.mode != Disarmed && Apply(s, c, step).mode == Disarmed
    ensures step.Commit?
    ensures var s := Exec(Fresh(now), c, steps);
            var f := s.flights[step.k];
            !f.byAdmin ==> (forall id <- OpenCriticals(s) :: f.seen <= id)
                           && (OpenCriticals(s) == {} <==> LateOnesClosed(s, f.seen))
  {
    var s := Exec(Fresh(now), c, steps);
    FreshInv(now, c, "");
    RunKeepsGate(Fresh(now), c, steps);
    ModeChangesByCommit(s, c, step);
    var f := s.flights[step.k];
    assert Gated(s, f);
    if !f.byAdmin { NoneOpenIff(s, f.seen); }
  }

  /**
   A disarm cannot hide an incident. If a critical alert is open, and the system is later disarmed by a schedule or
   by anyone but an admin on a decision taken after that alert was raised, then in between somebody entitled to do so
   acknowledged that very alert, or it was a silence and the silent agent itself came back.
   */
  lemma IncidentIsNotSilenced(s: State, c: Config, steps: seq<Step>, k: nat, id: nat)
    requires Tables(s) && GateInv(s) && Runs(s, c, steps) && Enabled(Exec(s, c, steps), c, Commit(k))
    requires StillOpen(s, id) && s.alerts[id].severity == Critical
    requires var f := Exec(s, c, steps).flights[k]; f.target == Disarmed && !f.byAdmin && id < f.seen
    ensures ClosedDuring(s, c, steps, id)
  {
    var t := Exec(s, c, steps);
    RunKeepsGate(s, c, steps);
    assert id !in OpenCriticals(t) by { assert Gated(t, t.flights[k]); }
    if !ClosedDuring(s, c, steps, id) { OpenUntilClosed(s, c, steps, id); }
  }
}
