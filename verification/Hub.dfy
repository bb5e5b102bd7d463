/**
 The hub's live state: agents, alerts and the arm mode, with every action that changes them as one
 step. `raised` is every alert ever raised; an alert's id is its position there.
 */
module Hub {
  import opened Options
  import opened AlertRules
  import opened Policy
  import EventLog
  import opened Timeline

  datatype Status = Online | Offline
  datatype Origin = Device | Browser

  /** `episode` is the number of alerts raised when the agent was last marked offline; the hub does not store it. */
  datatype Agent = Agent(status: Status, origin: Origin, lastSeen: int, location: string, episode: nat)

  datatype Alert = Alert(kind: AlertType, severity: Severity, agent: string, at: int, ackedAt: Option<int>) {
    predicate Open() { ackedAt.None? }
  }

  datatype Config = Config(timeoutMs: nat, cooldownMs: int)

  type Agents = map<string, Agent>
  type Alerts = map<nat, Alert>

  /**
   Where the running liveness sweep has got to. `now` is the instant it took at its start, `todo` the agents it has
   selected, or marked offline, and not yet raised for, and `checked` the mode it read for the first of them once the
   cooldown has let that one through.
   */
  datatype Phase =
    | Resting
    | Selecting(now: int)
    | Repairing(now: int, todo: seq<string>, checked: Option<SystemMode>)
    | Flipping(now: int)
    | Raising(now: int, todo: seq<string>, checked: Option<SystemMode>)

  /** What a device asks for. */
  datatype Call =
    | Heartbeat(agent: string)
    | Event(agent: string, event: EventLog.EventType)
    | Enrollment(agent: string, location: string)

  /** A request between two of its statements. */
  datatype Flight =
    /** The agent's row has been read, and is still to be written. */
    | Loaded(call: Call, wasOffline: bool)
    /** It has been written, and was read offline: the agent's open offline alerts are still to be acknowledged. */
    | Returned(call: Call)
    /** They have been, and the recovery notice is still to be posted. */
    | Settled(call: Call)
    /** An event's sign of life is recorded, and the rules are still to be asked. */
    | Recorded(agent: string, event: EventLog.EventType)
    /** The rules asked for an alert under this mode, the cooldown let it through, and it is still to be inserted. */
    | Passed(agent: string, event: EventLog.EventType, mode: SystemMode)
    /** The policy has allowed a mode change, when `seen` alerts had been raised, and it is still to be made. */
    | Granted(target: SystemMode, byAdmin: bool, seen: nat)

  /**
   `up`, `bootedAt`, `reconciled`, `phase`, `flights` and `next` are the process's own memory; flights are numbered
   in order of arrival. `lastTick` is when the last sweep that got as far as marking agents offline had begun.
   */
  datatype State = State(agents: Agents, alerts: Alerts, raised: seq<Alert>, mode: SystemMode, clock: int,
                         up: bool, bootedAt: int, reconciled: bool, phase: Phase, flights: map<nat, Flight>, next: nat,
                         lastTick: int)

  // ---- Alerts ----

  /** Something of this type is open for this agent and younger than the cooldown. */
  predicate Suppressed(s: State, c: Config, kind: AlertType, agent: string) {
    c.cooldownMs > 0 &&
    exists id <- s.alerts :: s.alerts[id].kind == kind && s.alerts[id].agent == agent && s.alerts[id].Open()
                          && s.alerts[id].at >= s.clock - c.cooldownMs
  }

  function Create(s: State, o: Outcome, agent: string): State {
    var alert := Alert(o.kind, o.severity, agent, s.clock, None);
    s.(alerts := s.alerts[|s.raised| := alert], raised := s.raised + [alert])
  }

  function AckedOffline(alerts: Alerts, agent: string, now: int): Alerts {
    map id | id in alerts ::
      if alerts[id].kind == AgentOffline && alerts[id].agent == agent && alerts[id].Open()
      then alerts[id].(ackedAt := Some(now)) else alerts[id]
  }

  /** The single-alert acknowledgement: idempotent, and it keeps the original timestamp. */
  function Acknowledged(s: State, id: nat): State {
    if id !in s.alerts || !s.alerts[id].Open() then s
    else s.(alerts := s.alerts[id := s.alerts[id].(ackedAt := Some(s.clock))])
  }

  predicate OpenCritical(a: Alert) { a.Open() && a.severity == Critical }
  function OpenCriticals(s: State): set<nat> { set id | id in s.alerts && OpenCritical(s.alerts[id]) }

  function AlertLocation(s: State, id: nat): Option<string> {
    if id in s.alerts && s.alerts[id].agent in s.agents then Some(s.agents[s.alerts[id].agent].location) else None
  }

  // ---- Signs of life ----

  const BROWSER_CAMERA_ID_PREFIX := "browser-"

  function Launched(s: State, flight: Flight): State { s.(flights := s.flights[s.next := flight], next := s.next + 1) }
  function Landed(s: State, k: nat): State { s.(flights := s.flights - {k}) }

  predicate IsOffline(s: State, agent: string) { agent in s.agents && s.agents[agent].status == Offline }

  /** A reserved id is refused, and so is anything but an enrollment from an agent the hub does not know. */
  predicate Accepts(s: State, call: Call) {
    if call.Enrollment? then !(BROWSER_CAMERA_ID_PREFIX <= call.agent) else call.agent in s.agents
  }

  /** The handler's first statement: it reads the agent's row and keeps it. */
  function Loading(s: State, call: Call): State {
    if Accepts(s, call) then Launched(s, Loaded(call, IsOffline(s, call.agent))) else s
  }

  /** The row after the update, or the upsert, of a sign of life. */
  function Touched(s: State, call: Call): Agents {
    if call.agent in s.agents then
      var row := s.agents[call.agent].(status := Online, lastSeen := s.clock);
      s.agents[call.agent := if call.Enrollment? then row.(location := call.location) else row]
    else if call.Enrollment? then s.agents[call.agent := Agent(Online, Device, s.clock, call.location, 0)]
    else s.agents
  }

  /** The sign of life is dealt with; an event goes on to be judged. */
  function Onward(flights: map<nat, Flight>, k: nat, call: Call): map<nat, Flight> {
    if call.Event? then flights[k := Recorded(call.agent, call.event)] else flights - {k}
  }

  /** Whether it is a recovery is decided by the row read earlier, not by the one overwritten. */
  function Written(s: State, k: nat): State
    requires k in s.flights && s.flights[k].Loaded?
  {
    var call := s.flights[k].call;
    s.(agents := Touched(s, call),
       flights := if s.flights[k].wasOffline then s.flights[k := Returned(call)] else Onward(s.flights, k, call))
  }

  /** Whatever is open for the silence is acknowledged. */
  function Closed(s: State, k: nat): State
    requires k in s.flights && s.flights[k].Returned?
  {
    var call := s.flights[k].call;
    s.(alerts := AckedOffline(s.alerts, call.agent, s.clock), flights := s.flights[k := Settled(call)])
  }

  /** The notice does not ask the cooldown. */
  function Notified(s: State, k: nat): State
    requires k in s.flights && s.flights[k].Settled?
  {
    var call := s.flights[k].call;
    Create(s, RecoveredOutcome(), call.agent).(flights := Onward(s.flights, k, call))
  }

  /** The rule table under the mode as it is now, then the cooldown. */
  function Judged(s: State, c: Config, k: nat): State
    requires k in s.flights && s.flights[k].Recorded?
  {
    var Recorded(agent, event) := s.flights[k];
    match Evaluate(event, s.mode)
    case None => Landed(s, k)
    case Some(o) =>
      if Suppressed(s, c, o.kind, agent) then Landed(s, k)
      else s.(flights := s.flights[k := Passed(agent, event, s.mode)])
  }

  function Inserted(s: State, k: nat): State
    requires k in s.flights && s.flights[k].Passed?
  {
    var Passed(agent, event, mode) := s.flights[k];
    match Evaluate(event, mode) case None => Landed(s, k) case Some(o) => Landed(Create(s, o, agent), k)
  }

  // ---- Liveness ----

  predicate InGrace(s: State, c: Config) { s.clock - s.bootedAt < c.timeoutMs }

  /** Offline devices with no open offline alert. */
  function Unannounced(s: State): set<string> {
    set a | a in s.agents && s.agents[a].status == Offline && s.agents[a].origin == Device && !HasOpenOffline(s, a)
  }

  predicate HasOpenOffline(s: State, agent: string) {
    exists id <- s.alerts :: s.alerts[id].kind == AgentOffline && s.alerts[id].agent == agent && s.alerts[id].Open()
  }

  /** Online devices last heard from before a cutoff. */
  function Stale(s: State, cutoff: int): set<string> {
    set a | a in s.agents && s.agents[a].status == Online && s.agents[a].origin == Device
        && s.agents[a].lastSeen < cutoff
  }

  function Flip(s: State, stale: set<string>): State {
    s.(agents := map a | a in s.agents ::
         if a in stale then s.agents[a].(status := Offline, episode := |s.raised|) else s.agents[a])
  }

  /** The rows of a query, in whatever order the database returns them. */
  predicate IsListing(order: seq<string>, rows: set<string>) {
    && (forall i, j :: 0 <= i < j < |order| ==> order[i] != order[j])
    && (forall a <- order :: a in rows) && (forall a <- rows :: a in order)
  }

  predicate Listing(phase: Phase) { phase.Repairing? || phase.Raising? }

  /** The agents the running sweep still has to raise for. */
  function Todo(phase: Phase): seq<string> { if Listing(phase) then phase.todo else [] }

  /** The sweep is done with the first of them. */
  function Next(phase: Phase): Phase
    requires Todo(phase) != []
  {
    phase.(todo := phase.todo[1..], checked := None)
  }

  /** Whether the cooldown lets the first of them be announced; if not, it is the next one's turn. */
  function Checked(s: State, c: Config): State
    requires Todo(s.phase) != []
  {
    s.(phase := if Suppressed(s, c, AgentOffline, s.phase.todo[0]) then Next(s.phase)
                else s.phase.(checked := Some(s.mode)))
  }

  /** The alert of the first of them, under the mode read when it was checked. */
  function Announced(s: State): State
    requires Todo(s.phase) != [] && s.phase.checked.Some?
  {
    Create(s, OfflineOutcome(s.phase.checked.value), s.phase.todo[0]).(phase := Next(s.phase))
  }

  /** A tick: nothing in the grace period; otherwise the repair first, once per boot. */
  function Begin(s: State, c: Config): State {
    if InGrace(s, c) then s.(lastTick := s.clock)
    else s.(phase := if s.reconciled then Flipping(s.clock) else Selecting(s.clock), reconciled := true)
  }

  /** A failed raise ends the repair, but costs a batch only that agent. */
  function RaiseFailed(s: State): State
    requires Todo(s.phase) != []
  {
    s.(phase := if s.phase.Repairing? then Flipping(s.phase.now) else Next(s.phase))
  }

  // ---- Steps ----

  datatype Step =
    | Wait(ms: nat)
    | Boot
    /** The process ends, in order or in the middle of anything. */
    | Stop
    | BeginSweep
    | Select(order: seq<string>)
    | SelectFails
    | CheckNext
    | RaiseNext
    | RaiseFails
    | EndRepair
    | FlipBatch(order: seq<string>)
    | FlipFails
    | EndSweep
    | Read(call: Call)
    | Write(k: nat)
    | Settle(k: nat)
    | Notify(k: nat)
    | Judge(k: nat)
    | Insert(k: nat)
    /** A statement of a request fails, and the rest of it is not done. */
    | Drop(k: nat)
    | ProvisionBrowser(agent: string, location: string)
    | Ack(who: Identity, alert: nat)
    | PruneAlerts(days: nat, ids: set<nat>)
    | Decide(who: Identity, target: SystemMode)
    | DecideSchedule(target: SystemMode)
    | Commit(k: nat)

  /** Acknowledged alerts raised before a cutoff. */
  function Aged(alerts: Alerts, cutoff: int): set<nat> {
    set id | id in alerts && alerts[id].at < cutoff && !alerts[id].Open()
  }

  /** Acknowledged alerts past the window: the only ones the prune may take. */
  function Prunable(s: State, days: nat): set<nat> { Aged(s.alerts, s.clock - days * DAY_MS) }

  predicate Enabled(s: State, c: Config, step: Step) {
    match step
    case Wait(_) => true
    case Boot => !s.up
    case BeginSweep => s.up && s.phase.Resting?
    case Select(order) => s.up && s.phase.Selecting? && IsListing(order, Unannounced(s))
    case SelectFails => s.up && s.phase.Selecting?
    case CheckNext => s.up && Todo(s.phase) != [] && s.phase.checked.None?
    case RaiseNext => s.up && Todo(s.phase) != [] && s.phase.checked.Some?
    case RaiseFails => s.up && Todo(s.phase) != []
    case EndRepair => s.up && s.phase.Repairing? && s.phase.todo == []
    case FlipBatch(order) => s.up && s.phase.Flipping? && IsListing(order, Stale(s, s.phase.now - c.timeoutMs))
    case FlipFails => s.up && s.phase.Flipping?
    case EndSweep => s.up && s.phase.Raising? && s.phase.todo == []
    case Write(k) => s.up && k in s.flights && s.flights[k].Loaded?
    case Settle(k) => s.up && k in s.flights && s.flights[k].Returned?
    case Notify(k) => s.up && k in s.flights && s.flights[k].Settled?
    case Judge(k) => s.up && k in s.flights && s.flights[k].Recorded?
    case Insert(k) => s.up && k in s.flights && s.flights[k].Passed?
    case Drop(k) => s.up && k in s.flights
    case ProvisionBrowser(agent, _) => s.up && agent !in s.agents && BROWSER_CAMERA_ID_PREFIX <= agent
    case PruneAlerts(days, ids) => s.up && days > 0 && ids <= Prunable(s, days)
    case Commit(k) => s.up && k in s.flights && s.flights[k].Granted?
    case _ => s.up
  }

  /** The policy on the count as it is now; a refusal leaves nothing behind. */
  function Decided(s: State, decision: Decision, target: SystemMode, byAdmin: bool): State {
    if decision.Allowed? then Launched(s, Granted(target, byAdmin, |s.raised|)) else s
  }

  function Apply(s: State, c: Config, step: Step): State
    requires Enabled(s, c, step)
  {
    match step
    case Wait(ms) => s.(clock := s.clock + ms)
    case Boot => s.(up := true, bootedAt := s.clock, reconciled := false, lastTick := s.clock)
    case Stop => s.(up := false, phase := Resting, flights := map[])
    case BeginSweep => Begin(s, c)
    case Select(order) => s.(phase := Repairing(s.phase.now, order, None))
    case SelectFails => s.(phase := Flipping(s.phase.now))
    case CheckNext => Checked(s, c)
    case RaiseNext => Announced(s)
    case RaiseFails => RaiseFailed(s)
    case EndRepair => s.(phase := Flipping(s.phase.now))
    case FlipBatch(order) =>
      Flip(s, Stale(s, s.phase.now - c.timeoutMs)).(phase := Raising(s.phase.now, order, None), lastTick := s.phase.now)
    case FlipFails => s.(phase := Resting)
    case EndSweep => s.(phase := Resting)
    case Read(call) => Loading(s, call)
    case Write(k) => Written(s, k)
    case Settle(k) => Closed(s, k)
    case Notify(k) => Notified(s, k)
    case Judge(k) => Judged(s, c, k)
    case Insert(k) => Inserted(s, k)
    case Drop(k) => Landed(s, k)
    case ProvisionBrowser(agent, location) =>
      s.(agents := s.agents[agent := Agent(Online, Browser, s.clock, location, 0)])
    case Ack(who, id) => if CanAcknowledgeAlert(who, AlertLocation(s, id)).Allowed? then Acknowledged(s, id) else s
    case PruneAlerts(_, ids) => s.(alerts := s.alerts - ids)
    case Decide(who, target) => Decided(s, CanSetMode(who, target, |OpenCriticals(s)|), target, who.role == Admin)
    case DecideSchedule(target) => Decided(s, CanScheduleSetMode(target, |OpenCriticals(s)|), target, false)
    case Commit(k) => Landed(s.(mode := s.flights[k].target), k)
  }

  predicate Runs(s: State, c: Config, steps: seq<Step>)
    decreases |steps|
  {
    steps == [] || (Enabled(s, c, steps[0]) && Runs(Apply(s, c, steps[0]), c, steps[1..]))
  }

  function Exec(s: State, c: Config, steps: seq<Step>): State
    requires Runs(s, c, steps)
    decreases |steps|
  {
    if steps == [] then s else Exec(Apply(s, c, steps[0]), c, steps[1..])
  }

  /** A fresh database and a hub that has not started yet. */
  function Fresh(now: nat): State { State(map[], map[], [], Disarmed, now, false, now, false, Resting, map[], 0, now) }
}
