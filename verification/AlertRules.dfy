/** Alert policy: what a sensor event, a silence or a recovery means in each arm mode. */
module AlertRules {
  import opened Options
  import EventLog

  datatype SystemMode = Disarmed | Home | Away
  datatype AlertType = IntrusionMotion | IntrusionDoor | CameraMotion | AgentOffline | AgentRecovered
  datatype Severity = Info | Warning | Critical
  datatype Outcome = Outcome(kind: AlertType, severity: Severity)

  function Evaluate(event: EventLog.EventType, mode: SystemMode): Option<Outcome> {
    match event
    case MotionDetected => if mode != Away then None else Some(Outcome(IntrusionMotion, Critical))
    case CameraMotion => if mode != Away then None else Some(Outcome(AlertType.CameraMotion, Warning))
    case DoorOpened =>
      if mode == Disarmed then None
      else Some(Outcome(IntrusionDoor, if mode == Away then Critical else Warning))
    case DoorClosed => None
  }

  /** Silence alerts in every mode; only its severity depends on the mode. */
  function OfflineOutcome(mode: SystemMode): Outcome {
    Outcome(AgentOffline, if mode == Disarmed then Warning else Critical)
  }

  function RecoveredOutcome(): Outcome { Outcome(AgentRecovered, Info) }

  function Rank(mode: SystemMode): nat { match mode case Disarmed => 0 case Home => 1 case Away => 2 }
  function Weight(s: Severity): nat { match s case Info => 0 case Warning => 1 case Critical => 2 }

  /** Raising the arm mode, in this order, never loses an alert, never softens one and never changes its type. */
  lemma ArmingOnlyEscalates(event: EventLog.EventType, low: SystemMode, high: SystemMode)
    requires Rank(low) <= Rank(high)
    ensures Evaluate(event, low).Some? ==>
              && Evaluate(event, high).Some?
              && Evaluate(event, high).value.kind == Evaluate(event, low).value.kind
              && Weight(Evaluate(event, low).value.severity) <= Weight(Evaluate(event, high).value.severity)
    ensures Weight(OfflineOutcome(low).severity) <= Weight(OfflineOutcome(high).severity)
    ensures Rank(Disarmed) < Rank(Home) < Rank(Away) && Weight(Info) < Weight(Warning) < Weight(Critical)
  {
  }

  /** The whole table: what alerts, under what name, and when it is critical. */
  lemma RuleTable(event: EventLog.EventType, mode: SystemMode)
    ensures Evaluate(event, mode).Some? <==>
              || (event in {EventLog.MotionDetected, EventLog.CameraMotion} && mode == Away)
              || (event == EventLog.DoorOpened && mode != Disarmed)
    ensures Evaluate(event, mode).Some? ==>
              var o := Evaluate(event, mode).value;
              && (o.kind == IntrusionMotion <==> event == EventLog.MotionDetected)
              && (o.kind == IntrusionDoor <==> event == EventLog.DoorOpened)
              && (o.kind == AlertType.CameraMotion <==> event == EventLog.CameraMotion)
              && (o.severity == Critical <==> mode == Away && event != EventLog.CameraMotion)
              && o.severity != Info
    ensures OfflineOutcome(mode).kind == AgentOffline && OfflineOutcome(mode).severity != Info
    ensures OfflineOutcome(mode).severity == Critical <==> mode != Disarmed
    ensures RecoveredOutcome().kind == AgentRecovered && RecoveredOutcome().severity == Info
  {
  }

  /** The rules never speak of silence or recovery, and nothing but a closing door is silent while away. */
  lemma RulesAreForSensors(event: EventLog.EventType, mode: SystemMode)
    ensures Evaluate(event, mode).Some? ==> Evaluate(event, mode).value.kind !in {AgentOffline, AgentRecovered}
    ensures Evaluate(event, Disarmed).None?
    ensures Evaluate(event, Away).None? <==> event == EventLog.DoorClosed
  {
  }
}
