/** Who may change the mode or acknowledge an alert right now. */
module Policy {
  import opened Options
  import opened AlertRules

  datatype Role = Bootstrap | AgentRole | Viewer | Operator | Admin
  datatype Permission = SystemArm | SystemDisarm | AlertsAck | SchedulesWrite
  datatype Identity = Identity(role: Role, permissions: set<Permission>, zones: seq<string>)

  datatype Decision = Allowed | Denied(requiresRole: Option<Role>)

  /** Lower case as far as ASCII letters go. */
  function Lower(s: string): string {
    seq(|s|, i requires 0 <= i < |s| => if 'A' <= s[i] <= 'Z' then s[i] + 32 as char else s[i])
  }

  predicate ZoneAllows(zones: seq<string>, location: string) {
    zones == [] || exists i :: 0 <= i < |zones| && Lower(zones[i]) == Lower(location)
  }

  /** The zone-scoped part of every read and acknowledgement. */
  function CanAccessLocation(who: Identity, location: string): Decision {
    if ZoneAllows(who.zones, location) then Allowed else Denied(None)
  }

  /** A person moving the system to `target` while `open` critical alerts are unacknowledged. */
  function CanSetMode(who: Identity, target: SystemMode, open: nat): Decision {
    if SystemDisarm !in who.permissions && target == Disarmed then Denied(Some(Operator))
    else if SystemArm !in who.permissions && target != Disarmed then Denied(Some(Operator))
    else if target != Disarmed then Allowed
    else if who.role == Admin then Allowed
    else if open == 0 then Allowed
    else Denied(Some(Admin))
  }

  /** A schedule moving the system: the same rule with no admin override. */
  function CanScheduleSetMode(target: SystemMode, open: nat): Decision {
    if target != Disarmed then Allowed else if open == 0 then Allowed else Denied(Some(Admin))
  }

  /** Who may write a schedule that moves the system to `mode`. */
  function CanManageSchedule(who: Identity, mode: SystemMode): Decision {
    if SchedulesWrite !in who.permissions then Denied(Some(Operator))
    else if (if mode == Disarmed then SystemDisarm else SystemArm) !in who.permissions then Denied(Some(Operator))
    else Allowed
  }

  /** `location` is that of the alert's agent; None for an unknown alert or a system-level one. */
  function CanAcknowledgeAlert(who: Identity, location: Option<string>): Decision {
    if AlertsAck !in who.permissions then Denied(Some(Operator))
    else if who.zones == [] then Allowed
    else if location.None? then Denied(None)
    else CanAccessLocation(who, location.value)
  }

  /**
   Exactly who can disarm while critical alerts are open, and whose help a refusal names. A schedule never can,
   and never more than a person who may disarm at all.
   */
  lemma DisarmRule(who: Identity, open: nat)
    ensures CanSetMode(who, Disarmed, open).Allowed?
       <==> SystemDisarm in who.permissions && (who.role == Admin || open == 0)
    ensures CanScheduleSetMode(Disarmed, open).Allowed? <==> open == 0
    ensures CanScheduleSetMode(Disarmed, open).Allowed? && SystemDisarm in who.permissions ==>
        CanSetMode(who, Disarmed, open).Allowed?
    ensures var d := CanSetMode(who, Disarmed, open);
            d.Denied? ==> d.requiresRole == Some(if SystemDisarm in who.permissions then Admin else Operator)
    ensures CanScheduleSetMode(Disarmed, open).Denied? ==>
              CanScheduleSetMode(Disarmed, open).requiresRole == Some(Admin)
  {
  }

  /** Raising protection is never refused to someone who may arm, whatever is open. */
  lemma ArmingIsNeverHeld(who: Identity, target: SystemMode, open: nat)
    requires target != Disarmed
    ensures CanSetMode(who, target, open) == if SystemArm in who.permissions then Allowed else Denied(Some(Operator))
    ensures CanScheduleSetMode(target, open).Allowed?
  {
  }

  /** A schedule grants nothing its author lacks: whoever may write one may make the same change by hand. */
  lemma SchedulesDelegateNothing(who: Identity, mode: SystemMode, open: nat)
    ensures CanManageSchedule(who, mode).Allowed?
       <==> SchedulesWrite in who.permissions && CanSetMode(who, mode, 0).Allowed?
    ensures CanManageSchedule(who, mode).Allowed? && CanScheduleSetMode(mode, open).Allowed? ==>
              CanSetMode(who, mode, open).Allowed?
  {
  }

  // ---- Zones ----

  /** One character, up to the case of an ASCII letter. */
  predicate SameLetter(a: char, b: char) {
    || a == b
    || ('A' <= a <= 'Z' && b as int == a as int + 32)
    || ('A' <= b <= 'Z' && a as int == b as int + 32)
  }

  predicate SameName(a: string, b: string) { |a| == |b| && forall i :: 0 <= i < |a| ==> SameLetter(a[i], b[i]) }

  /** Lowering two names compares them letter by letter, up to case. */
  lemma LowerComparesNames(a: string, b: string)
    ensures Lower(a) == Lower(b) <==> SameName(a, b)
  {
    if Lower(a) == Lower(b) {
      forall i | 0 <= i < |a| ensures |Lower(a)| == |a| == |b| && SameLetter(a[i], b[i]) {
        assert Lower(a)[i] == Lower(b)[i];
      }
    }
    if SameName(a, b) {
      forall i | 0 <= i < |a| ensures Lower(a)[i] == Lower(b)[i] { assert SameLetter(a[i], b[i]); }
    }
  }

  /** A location is in one of the zones, or there is no restriction. */
  predicate Covers(zones: seq<string>, location: string) {
    zones == [] || exists z <- zones :: SameName(z, location)
  }

  lemma ZoneRule(zones: seq<string>, location: string)
    ensures ZoneAllows(zones, location) <==> Covers(zones, location)
  {
    forall z <- zones { LowerComparesNames(z, location); }
    if Covers(zones, location) && zones != [] {
      var z :| z in zones && SameName(z, location);
      var i :| 0 <= i < |zones| && zones[i] == z;
    }
  }

  /** A zone-restricted caller acknowledges only alerts of agents in its own zones, and never a system-level one. */
  lemma AcknowledgeRule(who: Identity, location: Option<string>)
    ensures CanAcknowledgeAlert(who, location).Allowed?
       <==> AlertsAck in who.permissions
            && (who.zones == [] || (location.Some? && exists z <- who.zones :: SameName(z, location.value)))
    ensures var d := CanAcknowledgeAlert(who, location);
            d.Denied? ==> d.requiresRole == if AlertsAck in who.permissions then None else Some(Operator)
  {
    if location.Some? { ZoneRule(who.zones, location.value); }
  }

  /** Case is all that may differ: a zone never covers a location of another name. */
  lemma OtherZonesAreClosed()
    ensures var who := Identity(Operator, {AlertsAck}, ["Garage"]);
            && CanAcknowledgeAlert(who, Some("garage")).Allowed? && CanAcknowledgeAlert(who, Some("kitchen")).Denied?
            && CanAcknowledgeAlert(who, None).Denied?
  {
    var who := Identity(Operator, {AlertsAck}, ["Garage"]);
    AcknowledgeRule(who, Some("garage"));
    AcknowledgeRule(who, Some("kitchen"));
    assert SameName("Garage", "garage");
  }
}
