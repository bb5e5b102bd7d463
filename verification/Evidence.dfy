/**
 The evidence recorder: a rolling pre-roll buffer, and one clip at a time collected after a trigger.
 A frame is known by its place in the order of observation.
 */
module Evidence {
  import opened Options

  /** Waiting clips beyond this are dropped. */
  const MAX_QUEUED_CLIPS := 4

  /**
   A finished clip. `trigger` is how many frames had been observed when it was triggered, `cut` that `close` ended it.
   */
  datatype Clip = Clip(key: string, frames: seq<nat>, trigger: nat, cut: bool, queued: bool)

  datatype Trigger = Trigger(key: string, at: nat)

  /**
   `observed` counts all frames, `finished` lists all clips ever ended and `triggers` the triggers that started one.
   */
  datatype Recorder = Recorder(recent: seq<nat>, collecting: Option<seq<nat>>, pendingKey: Option<string>, waiting: nat,
                               observed: nat, triggers: seq<Trigger>, finished: seq<Clip>)

  datatype Config = Config(pre: nat, post: nat)

  function Range(from: nat, to: nat): seq<nat>
    requires from <= to
  {
    seq(to - from, i => from + i)
  }

  function Max(a: nat, b: nat): nat { if a < b then b else a }
  function Min(a: nat, b: nat): nat { if a < b then a else b }

  /** Ends the clip in hand: it is queued unless it is empty or the queue is full. */
  function Finish(r: Recorder, cut: bool): Recorder
    requires r.collecting.Some? && r.pendingKey.Some? && r.triggers != []
  {
    var frames, queued := r.collecting.value, r.collecting.value != [] && r.waiting < MAX_QUEUED_CLIPS;
    r.(collecting := None, pendingKey := None, recent := [], waiting := if queued then r.waiting + 1 else r.waiting,
       finished := r.finished + [Clip(r.pendingKey.value, frames, r.triggers[|r.triggers| - 1].at, cut, queued)])
  }

  /** `deque(maxlen=pre)`. */
  function Pushed(recent: seq<nat>, frame: nat, pre: nat): seq<nat> {
    var longer := recent + [frame];
    if |longer| <= pre then longer else longer[1..]
  }

  predicate Recording(r: Recorder) { r.collecting.Some? && r.pendingKey.Some? && r.triggers != [] }

  function Observe(r: Recorder, c: Config): Recorder
    requires r.collecting.Some? ==> Recording(r)
  {
    var frame := r.observed;
    if r.collecting.Some? then
      var more := r.(collecting := Some(r.collecting.value + [frame]), observed := frame + 1);
      if |more.collecting.value| >= c.post then Finish(more, false) else more
    else r.(recent := Pushed(r.recent, frame, c.pre), observed := frame + 1)
  }

  function BeginClip(r: Recorder, key: string): Recorder {
    if r.collecting.Some? then r
    else r.(pendingKey := Some(key), collecting := Some(r.recent), triggers := r.triggers + [Trigger(key, r.observed)])
  }

  function Close(r: Recorder): Recorder
    requires r.collecting.Some? ==> Recording(r)
  {
    var done := if r.collecting.Some? then Finish(r, true) else r;
    if done.waiting < MAX_QUEUED_CLIPS then done.(waiting := done.waiting + 1) else done
  }

  /** `Drained`: the worker takes one entry off the queue. */
  datatype Step = Observed | Begun(key: string) | Drained | Closed

  function Apply(r: Recorder, c: Config, step: Step): Recorder
    requires r.collecting.Some? ==> Recording(r)
  {
    match step
    case Observed => Observe(r, c)
    case Begun(key) => BeginClip(r, key)
    case Drained => if r.waiting > 0 then r.(waiting := r.waiting - 1) else r
    case Closed => Close(r)
  }

  const Fresh: Recorder := Recorder([], None, None, 0, 0, [], [])

  // ---- What every step keeps ----

  /**
   A clip is an unbroken stretch of the observed frames around its trigger, of the promised length. `floor` is where the
   clip before it ended: its pre-roll is as much as there has been since, up to the configured length.
   */
  predicate Faithful(clip: Clip, c: Config, floor: nat, start: nat, end: nat) {
    && floor <= clip.trigger <= end && start == clip.trigger - Min(c.pre, clip.trigger - floor)
    && clip.frames == Range(start, end)
    && (!clip.cut ==> end - start == Max(c.post, clip.trigger - start + 1))
    && (clip.cut ==> end - start < Max(c.post, clip.trigger - start + 1))
    && (clip.queued ==> start < end)
  }

  /** Faithful clips, in order and disjoint: each starts no earlier than all before it ended. */
  predicate Chain(clips: seq<Clip>, triggers: seq<Trigger>, c: Config, bounds: seq<(nat, nat)>, end: nat) {
    && |bounds| == |clips| <= |triggers|
    && (forall i {:trigger Link(clips[i], triggers[i], c, Floor(bounds, i), bounds[i], end)} ::
          0 <= i < |clips| ==> Link(clips[i], triggers[i], c, Floor(bounds, i), bounds[i], end))
    && (forall i, j :: 0 <= i < j < |clips| ==> bounds[i].1 <= bounds[j].0)
  }

  /** One clip of them, opened by one trigger. */
  predicate Link(clip: Clip, trigger: Trigger, c: Config, floor: nat, bound: (nat, nat), end: nat) {
    Faithful(clip, c, floor, bound.0, bound.1) && bound.1 <= end && clip.key == trigger.key
        && clip.trigger == trigger.at
  }

  /** Where the clips before one have ended. */
  function Floor(bounds: seq<(nat, nat)>, i: nat): nat
    requires i <= |bounds|
  {
    if i == 0 then 0 else bounds[i - 1].1
  }

  /**
   The recorder in the middle of a run; `bounds` are the finished clips' intervals and `floor` where the last one ended.
   */
  predicate Inv(r: Recorder, c: Config, bounds: seq<(nat, nat)>, floor: nat) {
    && c.pre > 0 && c.post > 0
    && Chain(r.finished, r.triggers, c, bounds, floor) && floor == Floor(bounds, |bounds|) <= r.observed
    && (match r.collecting
        case None =>
          && r.pendingKey.None? && |r.triggers| == |r.finished|
          && |r.recent| == Min(c.pre, r.observed - floor) && r.recent == Range(r.observed - |r.recent|, r.observed)
        case Some(frames) =>
          InHand(r, c, bounds, floor) && (r.observed == r.triggers[|r.finished|].at || |frames| < c.post))
  }

  lemma RangeSnoc(from: nat, to: nat)
    requires from <= to
    ensures Range(from, to) + [to] == Range(from, to + 1)
  {
  }

  lemma ChainSnoc(clips: seq<Clip>, triggers: seq<Trigger>, c: Config, bounds: seq<(nat, nat)>, floor: nat, clip: Clip,
      bound: (nat, nat))
    requires Chain(clips, triggers, c, bounds, floor) && |clips| < |triggers| && floor == Floor(bounds, |bounds|)
    requires Link(clip, triggers[|clips|], c, floor, bound, bound.1)
    ensures Chain(clips + [clip], triggers, c, bounds + [bound], bound.1)
  {
    var more, wider := clips + [clip], bounds + [bound];
    forall i | 0 <= i < |more| ensures Link(more[i], triggers[i], c, Floor(wider, i), wider[i], bound.1) {
      assert Floor(wider, i) == Floor(bounds, i);
      if i < |clips| { assert Link(clips[i], triggers[i], c, Floor(bounds, i), bounds[i], floor); }
    }
    forall i, j | 0 <= i < j < |more| ensures wider[i].1 <= wider[j].0 {
      assert wider[i] == bounds[i];
      assert Link(clips[i], triggers[i], c, Floor(bounds, i), bounds[i], floor);
    }
  }

  /** A clip in hand: the frames from its pre-roll on. */
  predicate InHand(r: Recorder, c: Config, bounds: seq<(nat, nat)>, floor: nat) {
    && Chain(r.finished, r.triggers, c, bounds, floor) && floor == Floor(bounds, |bounds|)
    && |r.triggers| == |r.finished| + 1 && r.collecting.Some?
    && var t := r.triggers[|r.finished|];
    && r.pendingKey == Some(t.key) && floor <= t.at <= r.observed && |r.recent| == Min(c.pre, t.at - floor)
    && r.collecting.value == Range(t.at - |r.recent|, r.observed)
  }

  lemma FinishKeepsInv(r: Recorder, c: Config, bounds: seq<(nat, nat)>, floor: nat, cut: bool)
    returns (bounds': seq<(nat, nat)>)
    requires c.pre > 0 && c.post > 0 && InHand(r, c, bounds, floor)
    requires var promised := Max(c.post, |r.recent| + 1);
             if cut then |r.collecting.value| < promised else |r.collecting.value| == promised
    ensures Inv(Finish(r, cut), c, bounds', r.observed)
  {
    var t, done := r.triggers[|r.finished|], Finish(r, cut);
    var bound := (t.at - |r.recent|, r.observed);
    bounds' := bounds + [bound];
    assert Link(done.finished[|r.finished|], t, c, floor, bound, bound.1);
    ChainSnoc(r.finished, r.triggers, c, bounds, floor, done.finished[|r.finished|], bound);
  }

  /** A clip that fills up is exactly as long as promised. */
  lemma ObserveKeepsInv(r: Recorder, c: Config, bounds: seq<(nat, nat)>, floor: nat)
    returns (bounds': seq<(nat, nat)>, floor': nat)
    requires Inv(r, c, bounds, floor)
    ensures Inv(Observe(r, c), c, bounds', floor')
  {
    bounds', floor' := bounds, floor;
    if r.collecting.Some? {
      RangeSnoc(r.triggers[|r.finished|].at - |r.recent|, r.observed);
      var more := r.(collecting := Some(r.collecting.value + [r.observed]), observed := r.observed + 1);
      assert InHand(more, c, bounds, floor);
      if |more.collecting.value| >= c.post {
        floor' := more.observed;
        bounds' := FinishKeepsInv(more, c, bounds, floor, false);
      }
    } else {
      RangeSnoc(r.observed - |r.recent|, r.observed);
    }
  }

  lemma CloseKeepsInv(r: Recorder, c: Config, bounds: seq<(nat, nat)>, floor: nat)
    returns (bounds': seq<(nat, nat)>, floor': nat)
    requires Inv(r, c, bounds, floor)
    ensures Inv(Close(r), c, bounds', floor')
  {
    bounds', floor' := bounds, floor;
    if r.collecting.Some? {
      floor' := r.observed;
      bounds' := FinishKeepsInv(r, c, bounds, floor, true);
      QueueKeepsInv(Finish(r, true), c, bounds', floor', Close(r).waiting);
    } else {
      QueueKeepsInv(r, c, bounds, floor, Close(r).waiting);
    }
  }

  lemma QueueKeepsInv(r: Recorder, c: Config, bounds: seq<(nat, nat)>, floor: nat, waiting: nat)
    requires Inv(r, c, bounds, floor)
    ensures Inv(r.(waiting := waiting), c, bounds, floor)
  {
  }

  lemma ChainLater(clips: seq<Clip>, triggers: seq<Trigger>, c: Config, bounds: seq<(nat, nat)>, floor: nat,
                   more: seq<Trigger>, end: nat)
    requires Chain(clips, triggers, c, bounds, floor) && floor <= end
    requires |triggers| <= |more| && more[..|triggers|] == triggers
    ensures Chain(clips, more, c, bounds, end)
  {
    forall i | 0 <= i < |clips| ensures Link(clips[i], more[i], c, Floor(bounds, i), bounds[i], end) {
      assert Link(clips[i], triggers[i], c, Floor(bounds, i), bounds[i], floor);
      assert more[i] == more[..|triggers|][i];
    }
  }

  lemma BeginKeepsInv(r: Recorder, c: Config, key: string, bounds: seq<(nat, nat)>, floor: nat)
    requires Inv(r, c, bounds, floor)
    ensures Inv(BeginClip(r, key), c, bounds, floor)
  {
    if r.collecting.None? {
      var more := r.triggers + [Trigger(key, r.observed)];
      ChainLater(r.finished, r.triggers, c, bounds, floor, more, floor);
      assert more[|r.finished|] == Trigger(key, r.observed);
    }
  }

  lemma StepKeepsInv(r: Recorder, c: Config, step: Step, bounds: seq<(nat, nat)>, floor: nat)
    returns (bounds': seq<(nat, nat)>, floor': nat)
    requires Inv(r, c, bounds, floor)
    ensures Inv(Apply(r, c, step), c, bounds', floor')
  {
    match step
    case Observed => bounds', floor' := ObserveKeepsInv(r, c, bounds, floor);
    case Closed => bounds', floor' := CloseKeepsInv(r, c, bounds, floor);
    case Begun(key) =>
      bounds', floor' := bounds, floor;
      BeginKeepsInv(r, c, key, bounds, floor);
    case Drained =>
      bounds', floor' := bounds, floor;
      QueueKeepsInv(r, c, bounds, floor, Apply(r, c, Drained).waiting);
  }

  predicate Runs(r: Recorder, c: Config, steps: seq<Step>)
    decreases |steps|
  {
    steps == [] || ((r.collecting.Some? ==> Recording(r)) && Runs(Apply(r, c, steps[0]), c, steps[1..]))
  }

  function Exec(r: Recorder, c: Config, steps: seq<Step>): Recorder
    requires Runs(r, c, steps)
    decreases |steps|
  {
    if steps == [] then r else Exec(Apply(r, c, steps[0]), c, steps[1..])
  }

  lemma {:induction false} RunKeepsInv(r: Recorder, c: Config, steps: seq<Step>, bounds: seq<(nat, nat)>, floor: nat)
    returns (bounds': seq<(nat, nat)>, floor': nat)
    requires Inv(r, c, bounds, floor)
    ensures Runs(r, c, steps) && Inv(Exec(r, c, steps), c, bounds', floor')
    decreases |steps|
  {
    bounds', floor' := bounds, floor;
    if steps != [] {
      var b, f := StepKeepsInv(r, c, steps[0], bounds, floor);
      bounds', floor' := RunKeepsInv(Apply(r, c, steps[0]), c, steps[1..], b, f);
    }
  }

  /**
   Clips are faithful. For every sequence of observe, begin, drain and close calls, each clip is a
   contiguous interval of the observed frames around the trigger that opened it, carrying that trigger's key, with the
   configured pre-roll or as much as came since the clip before; clips come in order and never share a frame; and one
   not cut short by `close` has exactly max(post, pre-roll held + 1) frames.
   */
  lemma ClipsAreFaithful(c: Config, steps: seq<Step>) returns (bounds: seq<(nat, nat)>)
    requires c.pre > 0 && c.post > 0
    ensures Runs(Fresh, c, steps)
    ensures var t := Exec(Fresh, c, steps); Chain(t.finished, t.triggers, c, bounds, t.observed)
  {
    var floor;
    bounds, floor := RunKeepsInv(Fresh, c, steps, [], 0);
    var t := Exec(Fresh, c, steps);
    ChainLater(t.finished, t.triggers, c, bounds, floor, t.triggers, t.observed);
  }

  /** Otherwise it opens one at once, with the pre-roll held so far. */
  lemma TriggerOpens(r: Recorder, key: string)
    requires r.collecting.None?
    ensures BeginClip(r, key) == r.(collecting := Some(r.recent), pendingKey := Some(key),
                                    triggers := r.triggers + [Trigger(key, r.observed)])
  {
  }

  /**
   Every finished clip with a frame in it is handed to the worker while fewer than four wait, whichever call finishes
   it; no other call but `close`, which wakes the worker, adds to the queue.
   */
  lemma QueueRule(r: Recorder, c: Config, step: Step, t: Recorder)
    requires (r.collecting.Some? ==> Recording(r)) && t == Apply(r, c, step)
    ensures |r.finished| <= |t.finished| <= |r.finished| + 1 && t.finished[..|r.finished|] == r.finished
    ensures |t.finished| > |r.finished| <==>
              r.collecting.Some? && (step.Closed? || (step.Observed? && |r.collecting.value| + 1 >= c.post))
    ensures var ended := |t.finished| > |r.finished|;
            var handed := ended && t.finished[|r.finished|].queued;
            && (handed <==> ended && t.finished[|r.finished|].frames != [] && r.waiting < 4)
            && t.waiting == if step.Drained? then Max(r.waiting, 1) - 1
                            else if step.Closed? && r.waiting + (if handed then 1 else 0) < 4
                            then r.waiting + (if handed then 2 else 1)
                            else r.waiting + if handed then 1 else 0
  {
  }

  /** A trigger while a clip is being collected belongs to that clip: it opens nothing and changes nothing. */
  lemma TriggersMerge(r: Recorder, key: string, other: string)
    ensures BeginClip(BeginClip(r, key), other) == BeginClip(r, key)
  {
  }

  // ---- The recorder ----

  class EvidenceRecorder {
    const config: Config
    var recent: seq<nat>
    var collecting: Option<seq<nat>>
    var pendingKey: Option<string>
    var waiting: nat
    var observed: nat
    ghost var triggers: seq<Trigger>
    ghost var finished: seq<Clip>

    ghost function View(): Recorder
      reads this
    {
      Recorder(recent, collecting, pendingKey, waiting, observed, triggers, finished)
    }

    /** `pre` and `post` are the configured seconds times the frame rate; at least one frame each. */
    constructor (pre: nat, post: nat)
      ensures View() == Fresh && config == Config(Max(1, pre), Max(1, post))
    {
      config := Config(Max(1, pre), Max(1, post));
      recent, collecting, pendingKey, waiting, observed, triggers, finished := [], None, None, 0, 0, [], [];
    }

    method OnFrame()
      requires collecting.Some? ==> Recording(View())
      modifies this
      ensures View() == Observe(old(View()), config)
    {
      var frame := observed;
      observed := observed + 1;
      if collecting.Some? {
        collecting := Some(collecting.value + [frame]);
        if |collecting.value| >= config.post { FinishClip(false); }
        return;
      }
      recent := recent + [frame];
      if |recent| > config.pre { recent := recent[1..]; }
    }

    method OnTrigger(key: string)
      modifies this
      ensures View() == BeginClip(old(View()), key)
    {
      if collecting.Some? { return; }
      pendingKey, collecting := Some(key), Some(recent);
      triggers := triggers + [Trigger(key, observed)];
    }

    method FinishClip(ghost cut: bool)
      requires Recording(View())
      modifies this
      ensures View() == Finish(old(View()), cut)
    {
      var frames, key := collecting.value, pendingKey.value;
      ghost var full := waiting >= MAX_QUEUED_CLIPS;
      collecting, pendingKey, recent := None, None, [];
      finished := finished + [Clip(key, frames, triggers[|triggers| - 1].at, cut, frames != [] && !full)];
      if frames == [] { return; }
      if waiting < MAX_QUEUED_CLIPS { waiting := waiting + 1; }
    }

    method Shutdown()
      requires collecting.Some? ==> Recording(View())
      modifies this
      ensures View() == Close(old(View()))
    {
      if collecting.Some? { FinishClip(true); }
      if waiting < MAX_QUEUED_CLIPS { waiting := waiting + 1; }
    }
  }
}
