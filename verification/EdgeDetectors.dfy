/**
 The firmware's edge detectors over a millisecond clock that wraps at 30 bits. True time never wraps
 and never runs backwards; the detectors only ever see it modulo the wrap.
 */
module EdgeDetectors {
  import opened Options

  const WRAP := 0x4000_0000

  /** What `ticks_ms` reads at a true time. */
  function Ticks(at: nat): nat { at % WRAP }

  /** `(now - since) & 0x3FFFFFFF`. */
  function Elapsed(since: int, now: int): (ms: nat)
    ensures ms < WRAP
  {
    (now - since) % WRAP
  }

  /**
   The masked difference is the true difference modulo the wrap: never more than the truth, and equal to it below the
   wrap.
   */
  lemma ElapsedIsTrue(since: nat, now: nat)
    requires since <= now
    ensures Elapsed(Ticks(since), Ticks(now)) == (now - since) % WRAP <= now - since
    ensures now - since < WRAP ==> Elapsed(Ticks(since), Ticks(now)) == now - since
  {
    var a, b := since / WRAP, now / WRAP;
    assert Ticks(now) - Ticks(since) == now - since - (b - a) * WRAP;
    ModShift(now - since, b - a);
  }

  lemma {:induction false} ModShift(x: int, k: nat)
    ensures (x - k * WRAP) % WRAP == x % WRAP
    decreases k
  {
    if k > 0 {
      ModShift(x, k - 1);
      assert (x - (k - 1) * WRAP - WRAP) % WRAP == (x - (k - 1) * WRAP) % WRAP;
    }
  }

  /** A reading at a true time. */
  datatype Reading = Reading(high: bool, at: nat)

  predicate Chronological(rs: seq<Reading>) { forall i, j :: 0 <= i <= j < |rs| ==> rs[i].at <= rs[j].at }

  // ---- Motion ----

  datatype Motion = Motion(wasHigh: bool, lastFired: Option<int>)

  predicate MotionFires(m: Motion, cooldown: nat, high: bool, now: int) {
    high && !m.wasHigh && (m.lastFired.Some? ==> Elapsed(m.lastFired.value, now) >= cooldown)
  }

  function MotionNext(m: Motion, cooldown: nat, high: bool, now: int): Motion {
    Motion(high, if MotionFires(m, cooldown, high, now) then Some(now) else m.lastFired)
  }

  class MotionDetector {
    const cooldownMs: nat
    var wasHigh: bool
    var lastFired: Option<int>

    function View(): Motion
      reads this
    {
      Motion(wasHigh, lastFired)
    }

    constructor (cooldownMs: nat)
      ensures View() == Motion(false, None) && this.cooldownMs == cooldownMs
    {
      this.cooldownMs, wasHigh, lastFired := cooldownMs, false, None;
    }

    method Update(isHigh: bool, nowMs: int) returns (fired: bool)
      modifies this
      ensures fired == MotionFires(old(View()), cooldownMs, isHigh, nowMs)
      ensures View() == MotionNext(old(View()), cooldownMs, isHigh, nowMs)
    {
      var rising := isHigh && !wasHigh;
      wasHigh := isHigh;
      if !rising { return false; }
      if lastFired.Some? && Elapsed(lastFired.value, nowMs) < cooldownMs { return false; }
      lastFired := Some(nowMs);
      return true;
    }
  }

  function MotionAfter(rs: seq<Reading>, cooldown: nat): Motion {
    if rs == [] then Motion(false, None)
    else MotionNext(MotionAfter(rs[..|rs| - 1], cooldown), cooldown, rs[|rs| - 1].high, Ticks(rs[|rs| - 1].at))
  }

  /** The places in a run of readings at which motion fired. */
  function Fires(rs: seq<Reading>, cooldown: nat): seq<nat> {
    if rs == [] then []
    else
      var before, last := rs[..|rs| - 1], rs[|rs| - 1];
      Fires(before, cooldown)
      + if MotionFires(MotionAfter(before, cooldown), cooldown, last.high, Ticks(last.at)) then [|rs| - 1] else []
  }

  /** The detector remembers the wrapped time of its latest fire, and nothing else about the past but the last level. */
  lemma {:induction false} MotionRemembers(rs: seq<Reading>, cooldown: nat)
    ensures forall i :: 0 <= i < |Fires(rs, cooldown)| ==> Fires(rs, cooldown)[i] < |rs|
    ensures rs != [] ==> MotionAfter(rs, cooldown).wasHigh == rs[|rs| - 1].high
    ensures var fires := Fires(rs, cooldown);
            MotionAfter(rs, cooldown).lastFired == if fires == [] then None else Some(Ticks(rs[fires[|fires| - 1]].at))
  {
    if rs != [] {
      var before := rs[..|rs| - 1];
      MotionRemembers(before, cooldown);
      var fires := Fires(before, cooldown);
      if fires != [] { assert before[fires[|fires| - 1]] == rs[fires[|fires| - 1]]; }
    }
  }

  lemma NewFire(rs: seq<Reading>, cooldown: nat)
    requires Chronological(rs) && rs != [] && Fires(rs, cooldown) != Fires(rs[..|rs| - 1], cooldown)
    ensures var earlier := Fires(rs[..|rs| - 1], cooldown);
            && Fires(rs, cooldown) == earlier + [|rs| - 1] && rs[|rs| - 1].high
            && (earlier != [] ==>
                earlier[|earlier| - 1] < |rs| - 1 && rs[|rs| - 1].at - rs[earlier[|earlier| - 1]].at >= cooldown)
  {
    var before := rs[..|rs| - 1];
    MotionRemembers(before, cooldown);
    var earlier := Fires(before, cooldown);
    if earlier != [] {
      var latest := earlier[|earlier| - 1];
      assert before[latest] == rs[latest];
      ElapsedIsTrue(rs[latest].at, rs[|rs| - 1].at);
    }
  }

  /** High readings in order, at least the cooldown of true time apart. */
  predicate SpacedFires(rs: seq<Reading>, fires: seq<nat>, cooldown: nat) {
    && (forall i :: 0 <= i < |fires| ==> fires[i] < |rs| && rs[fires[i]].high)
    && (forall i, j :: 0 <= i < j < |fires| ==> rs[fires[j]].at - rs[fires[i]].at >= cooldown)
  }

  lemma SpacedFiresSnoc(rs: seq<Reading>, next: Reading, fires: seq<nat>, cooldown: nat)
    requires SpacedFires(rs, fires, cooldown) && Chronological(rs + [next])
    requires next.high && (fires != [] ==> next.at - rs[fires[|fires| - 1]].at >= cooldown)
    ensures SpacedFires(rs + [next], fires + [|rs|], cooldown)
  {
    var more, later := rs + [next], fires + [|rs|];
    forall i | 0 <= i < |later| ensures later[i] < |more| && more[later[i]].high { }
    forall i, j | 0 <= i < j < |later| ensures more[later[j]].at - more[later[i]].at >= cooldown {
      var last := fires[|fires| - 1];
      assert more[later[i]] == rs[fires[i]] && more[last] == rs[last];
      if j < |fires| { assert more[later[j]] == rs[fires[j]]; }
    }
  }

  lemma SpacedFiresLonger(rs: seq<Reading>, next: Reading, fires: seq<nat>, cooldown: nat)
    requires SpacedFires(rs, fires, cooldown)
    ensures SpacedFires(rs + [next], fires, cooldown)
  {
    assert forall i :: 0 <= i < |fires| ==> (rs + [next])[fires[i]] == rs[fires[i]];
  }

  /** Any two motion fires are at least the cooldown of true time apart, across any number of wraps. */
  lemma {:induction false} FiresAreSpaced(rs: seq<Reading>, cooldown: nat)
    requires Chronological(rs)
    ensures SpacedFires(rs, Fires(rs, cooldown), cooldown)
  {
    if rs != [] {
      var before, last := rs[..|rs| - 1], rs[|rs| - 1];
      FiresAreSpaced(before, cooldown);
      assert rs == before + [last];
      if Fires(rs, cooldown) == Fires(before, cooldown) {
        SpacedFiresLonger(before, last, Fires(before, cooldown), cooldown);
      } else {
        NewFire(rs, cooldown);
        SpacedFiresSnoc(before, last, Fires(before, cooldown), cooldown);
      }
    }
  }

  /**
   Exactly when a reading fires: on a rising edge with no earlier fire, or one whose age modulo the wrap is
   at least the cooldown. Below one wrap that is the true age.
   */
  lemma FiresIff(rs: seq<Reading>, cooldown: nat, next: Reading)
    requires Chronological(rs + [next])
    ensures var fires := Fires(rs, cooldown);
            && (forall i :: 0 <= i < |fires| ==> fires[i] < |rs|)
            && (|rs| in Fires(rs + [next], cooldown) <==>
                  && next.high && (rs != [] ==> !rs[|rs| - 1].high)
                  && (fires != [] ==> (next.at - rs[fires[|fires| - 1]].at) % WRAP >= cooldown))
  {
    var fires := Fires(rs, cooldown);
    MotionRemembers(rs, cooldown);
    FiresSnoc(rs, cooldown, next);
    if fires != [] { LatestAge(rs, fires[|fires| - 1], next); }
  }

  lemma FiresSnoc(rs: seq<Reading>, cooldown: nat, next: Reading)
    ensures Fires(rs + [next], cooldown) == Fires(rs, cooldown)
            + if MotionFires(MotionAfter(rs, cooldown), cooldown, next.high, Ticks(next.at)) then [|rs|] else []
  {
    assert (rs + [next])[..|rs|] == rs;
  }

  lemma LatestAge(rs: seq<Reading>, latest: nat, next: Reading)
    requires Chronological(rs + [next]) && latest < |rs|
    ensures Elapsed(Ticks(rs[latest].at), Ticks(next.at)) == (next.at - rs[latest].at) % WRAP
  {
    var all := rs + [next];
    assert all[latest] == rs[latest] && all[|rs|] == next;
    ElapsedIsTrue(rs[latest].at, next.at);
  }

  /** The price of masking: a rising edge whole wraps after the last fire looks as if no time had passed. */
  lemma WholeWrapsAreInvisible(rs: seq<Reading>, cooldown: nat, next: Reading, wraps: nat)
    requires Chronological(rs + [next]) && cooldown > 0 && Fires(rs, cooldown) != []
    requires Fires(rs, cooldown)[|Fires(rs, cooldown)| - 1] < |rs|
    requires next.at == rs[Fires(rs, cooldown)[|Fires(rs, cooldown)| - 1]].at + wraps * WRAP
    ensures |rs| !in Fires(rs + [next], cooldown)
  {
    FiresIff(rs, cooldown, next);
    ModShift(wraps * WRAP, wraps);
  }

  /**
   A sensor that goes high, rests, and goes high again exactly one wrap later: a true gap of twelve days, and no fire.
   */
  lemma OneWrapSilences()
    ensures var rs, next := [Reading(true, 0), Reading(false, 1)], Reading(true, WRAP);
            Fires(rs, 10_000) == [0] && Chronological(rs + [next]) && Fires(rs + [next], 10_000) == [0]
  {
    var rs, next := [Reading(true, 0), Reading(false, 1)], Reading(true, WRAP);
    var all := rs + [next];
    assert [Reading(true, 0)][..0] == [] && rs[..1] == [Reading(true, 0)] && all[..2] == rs;
    assert Fires([], 10_000) == [] && MotionAfter([], 10_000) == Motion(false, None);
    assert Fires([Reading(true, 0)], 10_000) == [0];
    assert Fires(rs, 10_000) == [0];
    WholeWrapsAreInvisible(rs, 10_000, next, 1);
    assert all[2] == next;
  }

  // ---- Doors ----

  /** `candidate` and `changedAt` mean nothing before the first reading. */
  datatype Door = Door(stable: Option<bool>, candidate: bool, changedAt: int)

  function DoorNext(d: Door, debounce: nat, open: bool, now: int): Door {
    if d.stable.None? then Door(Some(open), open, now)
    else
      var seen := if open != d.candidate then d.(candidate := open, changedAt := now) else d;
      if seen.candidate == seen.stable.value || Elapsed(seen.changedAt, now) < debounce then seen
      else seen.(stable := Some(seen.candidate))
  }

  /** The door event a reading emits: the new state. */
  function DoorEmits(d: Door, debounce: nat, open: bool, now: int): Option<bool> {
    var next := DoorNext(d, debounce, open, now);
    if d.stable.Some? && next.stable != d.stable then next.stable else None
  }

  class DoorContact {
    const debounceMs: nat
    const inverted: bool
    var stable: Option<bool>
    var candidate: bool
    var changedAt: int

    function View(): Door
      reads this
    {
      Door(stable, candidate, changedAt)
    }

    constructor (debounceMs: nat, inverted: bool)
      ensures stable.None? && this.debounceMs == debounceMs && this.inverted == inverted
    {
      this.debounceMs, this.inverted, stable, candidate, changedAt := debounceMs, inverted, None, false, 0;
    }

    /**
     A closed circuit means a closed door, unless the contact is inverted. Returns the new state when it has changed.
     */
    method Update(circuitClosed: bool, nowMs: int) returns (event: Option<bool>)
      modifies this
      ensures var open := circuitClosed == inverted;
              event == DoorEmits(old(View()), debounceMs, open, nowMs)
                  && View() == DoorNext(old(View()), debounceMs, open, nowMs)
    {
      var isOpen := if inverted then circuitClosed else !circuitClosed;
      if stable.None? {
        stable, candidate, changedAt := Some(isOpen), isOpen, nowMs;
        return None;
      }
      if isOpen != candidate { candidate, changedAt := isOpen, nowMs; }
      if candidate == stable.value { return None; }
      if Elapsed(changedAt, nowMs) < debounceMs { return None; }
      stable := Some(candidate);
      return stable;
    }
  }

  function DoorAfter(rs: seq<Reading>, debounce: nat): Door {
    if rs == [] then Door(None, false, 0)
    else DoorNext(DoorAfter(rs[..|rs| - 1], debounce), debounce, rs[|rs| - 1].high, Ticks(rs[|rs| - 1].at))
  }

  /** An event at a reading: the door is now open, or closed. */
  datatype Emission = Emission(at: nat, open: bool)

  function Emissions(rs: seq<Reading>, debounce: nat): seq<Emission> {
    if rs == [] then []
    else
      var before, last := rs[..|rs| - 1], rs[|rs| - 1];
      match DoorEmits(DoorAfter(before, debounce), debounce, last.high, Ticks(last.at))
      case None => Emissions(before, debounce)
      case Some(open) => Emissions(before, debounce) + [Emission(|rs| - 1, open)]
  }

  /** Where the unbroken stretch of equal readings at the end began. */
  function StretchStart(rs: seq<Reading>): (k: nat)
    requires rs != []
    ensures k < |rs| && forall i :: k <= i < |rs| ==> rs[i].high == rs[|rs| - 1].high
    ensures k > 0 ==> rs[k - 1].high != rs[|rs| - 1].high
  {
    if |rs| == 1 || rs[|rs| - 2].high != rs[|rs| - 1].high then |rs| - 1 else StretchStart(rs[..|rs| - 1])
  }

  /** Before its first emission a door is as it was at the first reading; after, as the last emission says. */
  function Reported(rs: seq<Reading>, es: seq<Emission>): bool
    requires rs != []
  {
    if es == [] then rs[0].high else es[|es| - 1].open
  }

  lemma {:induction false} DoorRemembers(rs: seq<Reading>, debounce: nat)
    requires rs != []
    ensures var d := DoorAfter(rs, debounce);
            && d.candidate == rs[|rs| - 1].high && d.changedAt == Ticks(rs[StretchStart(rs)].at)
            && d.stable == Some(Reported(rs, Emissions(rs, debounce)))
  {
    var before := rs[..|rs| - 1];
    if before == [] {
      assert DoorAfter(before, debounce) == Door(None, false, 0);
    } else {
      DoorRemembers(before, debounce);
      assert before[0] == rs[0] && before[|before| - 1] == rs[|rs| - 2];
    }
  }

  /**
   An emission rests on an unbroken stretch of readings saying the same, spanning at least the debounce of true time.
   */
  predicate Rests(rs: seq<Reading>, e: Emission, debounce: nat) {
    && e.at < |rs|
    && exists k :: 0 <= k <= e.at && rs[e.at].at - rs[k].at >= debounce
                   && forall i :: k <= i <= e.at ==> rs[i].high == e.open
  }

  lemma RestsLonger(rs: seq<Reading>, next: Reading, e: Emission, debounce: nat)
    requires Rests(rs, e, debounce)
    ensures Rests(rs + [next], e, debounce)
  {
    var k :| 0 <= k <= e.at && rs[e.at].at - rs[k].at >= debounce
             && forall i :: k <= i <= e.at ==> rs[i].high == e.open;
    var more := rs + [next];
    assert more[e.at] == rs[e.at] && more[k] == rs[k];
    assert forall i :: k <= i <= e.at ==> more[i] == rs[i];
  }

  /** What a reading that emits shows. */
  lemma NewEmission(rs: seq<Reading>, debounce: nat)
    requires Chronological(rs) && |rs| > 1 && Emissions(rs, debounce) != Emissions(rs[..|rs| - 1], debounce)
    ensures var earlier, es := Emissions(rs[..|rs| - 1], debounce), Emissions(rs, debounce);
            && es == earlier + [Emission(|rs| - 1, !Reported(rs[..|rs| - 1], earlier))]
            && Rests(rs, es[|earlier|], debounce)
  {
    var before, last := rs[..|rs| - 1], rs[|rs| - 1];
    DoorRemembers(before, debounce);
    DoorRemembers(rs, debounce);
    var k := StretchStart(rs);
    ElapsedIsTrue(rs[k].at, last.at);
    assert rs[|rs| - 1].at - rs[k].at >= debounce;
  }

  /** Emissions in order, alternating from the opposite of the first reading, each one debounced. */
  predicate SoundEvents(rs: seq<Reading>, es: seq<Emission>, debounce: nat) {
    && (es != [] ==> rs != [])
    && (forall i :: 0 <= i < |es| ==> Rests(rs, es[i], debounce))
    && (forall i :: 0 <= i < |es| ==> es[i].open == if i % 2 == 0 then !rs[0].high else rs[0].high)
    && (forall i, j :: 0 <= i < j < |es| ==> es[i].at < es[j].at)
  }

  lemma SoundLonger(rs: seq<Reading>, next: Reading, es: seq<Emission>, debounce: nat)
    requires SoundEvents(rs, es, debounce)
    ensures SoundEvents(rs + [next], es, debounce)
  {
    forall i | 0 <= i < |es| ensures Rests(rs + [next], es[i], debounce) { RestsLonger(rs, next, es[i], debounce); }
    if es != [] { assert (rs + [next])[0] == rs[0]; }
  }

  lemma SoundSnoc(rs: seq<Reading>, es: seq<Emission>, e: Emission, debounce: nat)
    requires SoundEvents(rs, es, debounce) && rs != [] && Rests(rs, e, debounce)
    requires e.open != Reported(rs, es) && forall i :: 0 <= i < |es| ==> es[i].at < e.at
    ensures SoundEvents(rs, es + [e], debounce)
  {
  }

  /** Door events alternate from the opposite of the baseline, and each one is debounced in true time. */
  lemma {:induction false} DoorEventsAreSound(rs: seq<Reading>, debounce: nat)
    requires Chronological(rs)
    ensures SoundEvents(rs, Emissions(rs, debounce), debounce)
  {
    if rs != [] {
      var before, last := rs[..|rs| - 1], rs[|rs| - 1];
      var es := Emissions(before, debounce);
      DoorEventsAreSound(before, debounce);
      assert rs == before + [last];
      SoundLonger(before, last, es, debounce);
      if before == [] {
        assert Emissions(rs, debounce) == es;
      } else if Emissions(rs, debounce) != es {
        NewEmission(rs, debounce);
        assert before[0] == rs[0];
        forall i | 0 <= i < |es| ensures es[i].at < |rs| - 1 { assert Rests(before, es[i], debounce); }
        SoundSnoc(rs, es, Emission(|rs| - 1, !Reported(before, es)), debounce);
      }
    }
  }

  /**
   Nothing debounced is missed: a reading emits exactly when it differs from the reported state and its
   stretch has lasted at least the debounce, measured modulo the wrap.
   */
  lemma EmitsIff(rs: seq<Reading>, debounce: nat)
    requires Chronological(rs) && |rs| > 1
    ensures var earlier, es := Emissions(rs[..|rs| - 1], debounce), Emissions(rs, debounce);
            es != earlier <==>
              && rs[|rs| - 1].high != Reported(rs[..|rs| - 1], earlier)
              && (rs[|rs| - 1].at - rs[StretchStart(rs)].at) % WRAP >= debounce
  {
    var before := rs[..|rs| - 1];
    DoorRemembers(before, debounce);
    var k := StretchStart(rs);
    ElapsedIsTrue(rs[k].at, rs[|rs| - 1].at);
    assert before[|before| - 1] == rs[|rs| - 2];
  }
}
