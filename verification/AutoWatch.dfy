/**
 Which cameras the dashboard watches. Agent ids and locations are given by their rank in the
 collation order, so that comparing numbers is comparing names.
 */
module AutoWatch {
  import opened Sorting

  const MAX_CONCURRENT_STREAMS := 4

  datatype Camera = Camera(agentId: nat, location: nat, streaming: bool)

  datatype Ui = Ui(watch: seq<nat>, optOut: seq<nat>, paused: seq<nat>)

  /** Location, then id. */
  predicate ByLocation(a: Camera, b: Camera) {
    a.location < b.location || (a.location == b.location && a.agentId <= b.agentId)
  }

  function Ids(cameras: seq<Camera>): (ids: seq<nat>)
    ensures |ids| == |cameras| && forall i :: 0 <= i < |ids| ==> ids[i] == cameras[i].agentId
  {
    seq(|cameras|, i requires 0 <= i < |cameras| => cameras[i].agentId)
  }

  function Present(cameras: seq<Camera>): nat -> bool { (id: nat) => id in Ids(cameras) }

  function Eligible(kept: seq<nat>, optOut: seq<nat>): Camera -> bool {
    (c: Camera) => c.streaming && c.agentId !in optOut && c.agentId !in kept
  }

  function Kept(cameras: seq<Camera>, current: seq<nat>): seq<nat> { Filter(current, Present(cameras)) }

  function Candidates(cameras: seq<Camera>, kept: seq<nat>, optOut: seq<nat>): seq<nat> {
    Ids(Sort(Filter(cameras, Eligible(kept, optOut)), ByLocation))
  }

  /** `slice(0, n)`. */
  function Take(xs: seq<nat>, n: nat): seq<nat> { if n < |xs| then xs[..n] else xs }

  function Room(kept: seq<nat>): nat { if |kept| < MAX_CONCURRENT_STREAMS then MAX_CONCURRENT_STREAMS - |kept| else 0 }

  function SelectAutoWatch(cameras: seq<Camera>, current: seq<nat>, optOut: seq<nat>): seq<nat> {
    var kept := Kept(cameras, current);
    kept + Take(Candidates(cameras, kept, optOut), Room(kept))
  }

  datatype Action =
    | Reconcile(cameras: seq<Camera>)
    | Start(id: nat)
    | Stop(id: nat)
    | TogglePaused(id: nat)
    | ResumeAll

  function Other(id: nat): nat -> bool { (x: nat) => x != id }
  function Without(ids: seq<nat>, id: nat): seq<nat> { Filter(ids, Other(id)) }

  function Apply(s: Ui, action: Action): Ui {
    match action
    case Reconcile(cameras) => s.(watch := SelectAutoWatch(cameras, s.watch, s.optOut))
    case Start(id) =>
      var t := s.(optOut := Without(s.optOut, id));
      if id in s.watch || |s.watch| >= MAX_CONCURRENT_STREAMS then t else t.(watch := s.watch + [id])
    case Stop(id) =>
      Ui(Without(s.watch, id), if id in s.optOut then s.optOut else s.optOut + [id], Without(s.paused, id))
    case TogglePaused(id) => s.(paused := if id in s.paused then Without(s.paused, id) else s.paused + [id])
    case ResumeAll => s.(optOut := [])
  }

  // ---- What the buttons do ----

  /** The list without one id: every other one stays, in order. */
  lemma {:induction false} WithoutIs(ids: seq<nat>, id: nat)
    ensures forall x :: x in Without(ids, id) <==> x in ids && x != id
    ensures forall i, j :: 0 <= i < j < |Without(ids, id)| ==>
              exists k, m :: 0 <= k < m < |ids| && ids[k] == Without(ids, id)[i] && ids[m] == Without(ids, id)[j]
  {
    if ids != [] {
      var init, last, out := ids[..|ids| - 1], ids[|ids| - 1], Without(ids, id);
      var before := Without(init, id);
      WithoutIs(init, id);
      assert out == if last == id then before else before + [last];
      forall i, j | 0 <= i < j < |out|
        ensures exists k, m :: 0 <= k < m < |ids| && ids[k] == out[i] && ids[m] == out[j]
      {
        if j < |before| {
          var k, m :| 0 <= k < m < |init| && init[k] == before[i] && init[m] == before[j];
          assert ids[k] == out[i] && ids[m] == out[j];
        } else {
          assert before[i] in init;
          var k :| 0 <= k < |init| && init[k] == before[i];
          assert ids[k] == out[i] && ids[|ids| - 1] == out[j];
        }
      }
    }
  }

  /** Starting takes a camera off the opt-outs and, while there is room, gives it the last slot; it never evicts. */
  lemma StartRule(s: Ui, id: nat, t: Ui)
    requires t == Apply(s, Start(id))
    ensures t.watch == if id !in s.watch && |s.watch| < 4 then s.watch + [id] else s.watch
    ensures t.paused == s.paused && forall x :: x in t.optOut <==> x in s.optOut && x != id
  {
    WithoutIs(s.optOut, id);
  }

  /** Stopping frees that slot only, forgets its pause, and remembers the choice. */
  lemma StopRule(s: Ui, id: nat, t: Ui)
    requires t == Apply(s, Stop(id))
    ensures forall x :: x in t.watch <==> x in s.watch && x != id
    ensures forall x :: x in t.paused <==> x in s.paused && x != id
    ensures forall x :: x in t.optOut <==> x in s.optOut || x == id
  {
    WithoutIs(s.watch, id);
    WithoutIs(s.paused, id);
  }

  /** Pausing toggles that camera only and keeps its slot; resuming all lifts every opt-out and nothing else. */
  lemma PauseRule(s: Ui, id: nat, t: Ui, u: Ui)
    requires t == Apply(s, TogglePaused(id)) && u == Apply(s, ResumeAll)
    ensures t.watch == s.watch && t.optOut == s.optOut
    ensures forall x :: x in t.paused <==> if x == id then x !in s.paused else x in s.paused
    ensures u == Ui(s.watch, [], s.paused)
  {
    WithoutIs(s.paused, id);
  }

  // ---- Facts about filtering ----

  lemma {:induction false} FilterKeepsDistinct<T>(xs: seq<T>, p: T -> bool)
    requires Distinct(xs)
    ensures Distinct(Filter(xs, p)) && |Filter(xs, p)| <= |xs|
  {
    if xs != [] {
      var init, last := xs[..|xs| - 1], xs[|xs| - 1];
      FilterKeepsDistinct(init, p);
      forall y <- Filter(init, p) ensures y != last { assert y in init; }
    }
  }

  lemma {:induction false} FilterAll<T>(xs: seq<T>, p: T -> bool)
    requires forall x <- xs :: p(x)
    ensures Filter(xs, p) == xs
  {
    if xs != [] {
      assert xs[|xs| - 1] in xs;
      FilterAll(xs[..|xs| - 1], p);
      assert xs == xs[..|xs| - 1] + [xs[|xs| - 1]];
    }
  }

  lemma {:induction false} FilterNone<T>(xs: seq<T>, p: T -> bool)
    requires forall x <- xs :: !p(x)
    ensures Filter(xs, p) == []
  {
    if xs != [] {
      assert xs[|xs| - 1] in xs;
      FilterNone(xs[..|xs| - 1], p);
    }
  }

  lemma {:induction false} FilterCounts<T>(xs: seq<T>, p: T -> bool, x: T)
    ensures multiset(Filter(xs, p))[x] == if p(x) then multiset(xs)[x] else 0
  {
    if xs != [] {
      FilterCounts(xs[..|xs| - 1], p, x);
      assert xs == xs[..|xs| - 1] + [xs[|xs| - 1]];
    }
  }

  lemma ByLocationIsTotal()
    ensures TotalPreorder(ByLocation)
  {
  }

  /** The eligible cameras in display order. */
  function Ranked(cameras: seq<Camera>, kept: seq<nat>, optOut: seq<nat>): seq<Camera> {
    Sort(Filter(cameras, Eligible(kept, optOut)), ByLocation)
  }

  lemma RankedAre(cameras: seq<Camera>, kept: seq<nat>, optOut: seq<nat>)
    ensures forall c :: c in Ranked(cameras, kept, optOut) <==> c in cameras && Eligible(kept, optOut)(c)
  {
    ByLocationIsTotal();
    SortKeepsElements(Filter(cameras, Eligible(kept, optOut)), ByLocation);
  }

  lemma IdIn(cameras: seq<Camera>, id: nat)
    ensures id in Ids(cameras) <==> exists c :: c in cameras && c.agentId == id
  {
    if c :| c in cameras && c.agentId == id {
      var i :| 0 <= i < |cameras| && cameras[i] == c;
      assert Ids(cameras)[i] == id;
    }
    if id in Ids(cameras) {
      var i :| 0 <= i < |cameras| && Ids(cameras)[i] == id;
      assert cameras[i] in cameras;
    }
  }

  /** The candidates are exactly the ids of the eligible cameras. */
  lemma CandidatesAre(cameras: seq<Camera>, kept: seq<nat>, optOut: seq<nat>)
    ensures forall id :: id in Candidates(cameras, kept, optOut) <==>
              exists c :: c in cameras && c.agentId == id && Eligible(kept, optOut)(c)
  {
    RankedAre(cameras, kept, optOut);
    forall id { IdIn(Ranked(cameras, kept, optOut), id); }
  }

  /** Each candidate is listed once. */
  lemma CandidatesAreDistinct(cameras: seq<Camera>, kept: seq<nat>, optOut: seq<nat>)
    requires Distinct(Ids(cameras))
    ensures Distinct(Candidates(cameras, kept, optOut))
  {
    var eligible, ranked := Filter(cameras, Eligible(kept, optOut)), Ranked(cameras, kept, optOut);
    DistinctCameras(cameras);
    FilterKeepsDistinct(cameras, Eligible(kept, optOut));
    ByLocationIsTotal();
    SortIsSorted(eligible, ByLocation);
    PermutationKeepsDistinct(eligible, ranked);
    RankedAre(cameras, kept, optOut);
    forall i, j | 0 <= i < j < |ranked| && ranked[i].agentId == ranked[j].agentId ensures ranked[i] == ranked[j] {
      SameIdSameCamera(cameras, ranked[i], ranked[j]);
    }
  }

  lemma DistinctCameras(cameras: seq<Camera>)
    requires Distinct(Ids(cameras))
    ensures Distinct(cameras)
  {
    assert forall i :: 0 <= i < |cameras| ==> Ids(cameras)[i] == cameras[i].agentId;
  }

  lemma SameIdSameCamera(cameras: seq<Camera>, a: Camera, b: Camera)
    requires Distinct(Ids(cameras)) && a in cameras && b in cameras && a.agentId == b.agentId
    ensures a == b
  {
    var i :| 0 <= i < |cameras| && cameras[i] == a;
    var j :| 0 <= j < |cameras| && cameras[j] == b;
    assert Ids(cameras)[i] == Ids(cameras)[j];
  }

  // ---- Stability ----

  /** Nothing playing is ever evicted: every watched camera still present keeps its slot, in order, at the front. */
  lemma NeverEvicts(cameras: seq<Camera>, current: seq<nat>, optOut: seq<nat>)
    ensures Kept(cameras, current) <= SelectAutoWatch(cameras, current, optOut)
    ensures forall id <- current :: id in Ids(cameras) ==> id in SelectAutoWatch(cameras, current, optOut)
    ensures forall id <- SelectAutoWatch(cameras, current, optOut) :: id in Ids(cameras)
  {
    var kept := Kept(cameras, current);
    CandidatesAre(cameras, kept, optOut);
    forall id <- Candidates(cameras, kept, optOut) ensures id in Ids(cameras) { IdIn(cameras, id); }
  }

  /** Reconciling again changes nothing. */
  lemma ReconcileIsIdempotent(cameras: seq<Camera>, current: seq<nat>, optOut: seq<nat>)
    requires Distinct(Ids(cameras))
    ensures SelectAutoWatch(cameras, SelectAutoWatch(cameras, current, optOut), optOut)
        == SelectAutoWatch(cameras, current, optOut)
  {
    var kept, next := Kept(cameras, current), SelectAutoWatch(cameras, current, optOut);
    var first := Candidates(cameras, kept, optOut);
    NeverEvicts(cameras, current, optOut);
    FilterAll(next, Present(cameras));
    assert Kept(cameras, next) == next;
    if |first| <= Room(kept) {
      CandidatesAre(cameras, kept, optOut);
      forall c <- cameras ensures !Eligible(next, optOut)(c) {
        if Eligible(kept, optOut)(c) { assert c.agentId in first; }
      }
      FilterNone(cameras, Eligible(next, optOut));
    }
  }

  /** The choice does not depend on the order in which the cameras are listed. */
  lemma OrderOfListIsIrrelevant(cameras: seq<Camera>, shuffled: seq<Camera>, current: seq<nat>, optOut: seq<nat>)
    requires Distinct(Ids(cameras)) && multiset(cameras) == multiset(shuffled)
    ensures SelectAutoWatch(cameras, current, optOut) == SelectAutoWatch(shuffled, current, optOut)
  {
    SameIds(cameras, shuffled);
    SameFilter(current, Present(cameras), Present(shuffled));
    var kept := Kept(cameras, current);
    var p := Eligible(kept, optOut);
    forall c ensures multiset(Filter(cameras, p))[c] == multiset(Filter(shuffled, p))[c] {
      FilterCounts(cameras, p, c);
      FilterCounts(shuffled, p, c);
    }
    var a, b := Sort(Filter(cameras, p), ByLocation), Sort(Filter(shuffled, p), ByLocation);
    ByLocationIsTotal();
    SortIsSorted(Filter(cameras, p), ByLocation);
    SortIsSorted(Filter(shuffled, p), ByLocation);
    assert multiset(a) == multiset(b);
    forall x, y | x in a && y in a && ByLocation(x, y) && ByLocation(y, x) ensures x == y {
      assert x in multiset(a) && y in multiset(a);
      assert x in multiset(Filter(cameras, p)) && y in multiset(Filter(cameras, p));
      SameIdSameCamera(cameras, x, y);
    }
    SortedIsUnique(a, b, ByLocation);
  }

  /**
   The wall is filled, and in display order: there is a slot free only if every live camera that is not opted
   out is watched, and a camera that gets a slot comes no later than one that is turned away.
   */
  lemma SlotsGoInOrder(cameras: seq<Camera>, current: seq<nat>, optOut: seq<nat>)
    requires Distinct(Ids(cameras))
    ensures var kept, next := Kept(cameras, current), SelectAutoWatch(cameras, current, optOut);
            && (|next| < MAX_CONCURRENT_STREAMS ==>
                  forall c <- cameras :: c.streaming && c.agentId !in optOut ==> c.agentId in next)
            && (forall id <- next :: id in kept || exists c <- cameras :: c.agentId == id && Eligible(kept, optOut)(c))
            && (forall a <- cameras, b <- cameras ::
                  && a.agentId in next && a.agentId !in kept && b.agentId !in next
                  && b.streaming && b.agentId !in optOut ==>
                      a.location < b.location || (a.location == b.location && a.agentId <= b.agentId))
  {
    var kept, next := Kept(cameras, current), SelectAutoWatch(cameras, current, optOut);
    var candidates := Candidates(cameras, kept, optOut);
    CandidatesAre(cameras, kept, optOut);
    forall a <- cameras, b <- cameras
      | a.agentId in next && a.agentId !in kept && b.agentId !in next && b.streaming && b.agentId !in optOut
      ensures a.location < b.location || (a.location == b.location && a.agentId <= b.agentId)
    {
      assert Eligible(kept, optOut)(b);
      EarlierSlot(cameras, kept, optOut, Room(kept), a, b);
    }
    forall id <- next | id !in kept ensures exists c <- cameras :: c.agentId == id && Eligible(kept, optOut)(c) {
      assert id in candidates;
      var c :| c in cameras && c.agentId == id && Eligible(kept, optOut)(c);
    }
    if |next| < MAX_CONCURRENT_STREAMS {
      assert next == kept + candidates;
      forall c <- cameras | c.streaming && c.agentId !in optOut ensures c.agentId in next {
        if c.agentId !in kept { assert Eligible(kept, optOut)(c); }
      }
    }
  }

  /** Of two candidates, the one inside the cut comes no later than the one beyond it. */
  lemma EarlierSlot(cameras: seq<Camera>, kept: seq<nat>, optOut: seq<nat>, n: nat, a: Camera, b: Camera)
    requires Distinct(Ids(cameras)) && a in cameras && b in cameras && Eligible(kept, optOut)(b)
    requires var candidates := Candidates(cameras, kept, optOut);
             a.agentId in Take(candidates, n) && b.agentId !in Take(candidates, n)
    ensures ByLocation(a, b)
  {
    var ranked := Ranked(cameras, kept, optOut);
    var candidates := Candidates(cameras, kept, optOut);
    ByLocationIsTotal();
    SortIsSorted(Filter(cameras, Eligible(kept, optOut)), ByLocation);
    RankedAre(cameras, kept, optOut);
    var i :| 0 <= i < |candidates| && i < n && candidates[i] == a.agentId;
    var j :| 0 <= j < |ranked| && ranked[j] == b;
    assert candidates[j] == b.agentId;
    assert ranked[i] in ranked && ranked[i].agentId == a.agentId;
    SameIdSameCamera(cameras, ranked[i], a);
    assert j >= n;
  }

  lemma SameIds(cameras: seq<Camera>, shuffled: seq<Camera>)
    requires multiset(cameras) == multiset(shuffled)
    ensures forall id :: id in Ids(cameras) <==> id in Ids(shuffled)
  {
    IdsIncluded(cameras, shuffled);
    IdsIncluded(shuffled, cameras);
  }

  lemma IdsIncluded(a: seq<Camera>, b: seq<Camera>)
    requires multiset(a) == multiset(b)
    ensures forall id <- Ids(a) :: id in Ids(b)
  {
    forall id <- Ids(a) ensures id in Ids(b) {
      var i :| 0 <= i < |a| && a[i].agentId == id;
      assert a[i] in multiset(b);
      var j :| 0 <= j < |b| && b[j] == a[i];
      assert Ids(b)[j] == id;
    }
  }

  lemma {:induction false} SameFilter(xs: seq<nat>, p: nat -> bool, q: nat -> bool)
    requires forall x :: p(x) == q(x)
    ensures Filter(xs, p) == Filter(xs, q)
  {
    if xs != [] { SameFilter(xs[..|xs| - 1], p, q); }
  }

  // ---- Over all action sequences ----

  predicate Inv(s: Ui) {
    && Distinct(s.watch) && Distinct(s.optOut) && Distinct(s.paused)
    && |s.watch| <= MAX_CONCURRENT_STREAMS
    && forall id <- s.watch :: id !in s.optOut
  }

  /** A camera list names each camera once. */
  predicate WellFormed(action: Action) { action.Reconcile? ==> Distinct(Ids(action.cameras)) }

  lemma ReconcileKeepsInv(s: Ui, cameras: seq<Camera>)
    requires Inv(s) && Distinct(Ids(cameras))
    ensures Inv(Apply(s, Reconcile(cameras)))
  {
    var kept := Kept(cameras, s.watch);
    var candidates := Candidates(cameras, kept, s.optOut);
    var added := Take(candidates, Room(kept));
    FilterKeepsDistinct(s.watch, Present(cameras));
    CandidatesAre(cameras, kept, s.optOut);
    CandidatesAreDistinct(cameras, kept, s.optOut);
    forall id <- added ensures id !in kept && id !in s.optOut { assert id in candidates; }
    DistinctConcat(kept, added);
    forall id <- kept + added ensures id !in s.optOut { if id in kept { assert id in s.watch; } }
  }

  lemma DistinctConcat(xs: seq<nat>, ys: seq<nat>)
    requires Distinct(xs) && Distinct(ys) && forall y <- ys :: y !in xs
    ensures Distinct(xs + ys)
  {
    var zs := xs + ys;
    forall i, j | 0 <= i < j < |zs| ensures zs[i] != zs[j] {
      if i < |xs| <= j { assert zs[i] in xs && zs[j] in ys; }
    }
  }

  lemma StartKeepsInv(s: Ui, id: nat)
    requires Inv(s)
    ensures Inv(Apply(s, Start(id)))
  {
    FilterKeepsDistinct(s.optOut, Other(id));
    if id !in s.watch { DistinctConcat(s.watch, [id]); }
  }

  lemma StopKeepsInv(s: Ui, id: nat)
    requires Inv(s)
    ensures Inv(Apply(s, Stop(id)))
  {
    FilterKeepsDistinct(s.watch, Other(id));
    FilterKeepsDistinct(s.paused, Other(id));
    if id !in s.optOut { DistinctConcat(s.optOut, [id]); }
  }

  lemma StepKeepsInv(s: Ui, action: Action)
    requires Inv(s) && WellFormed(action)
    ensures Inv(Apply(s, action))
  {
    match action
    case Reconcile(cameras) => ReconcileKeepsInv(s, cameras);
    case Start(id) => StartKeepsInv(s, id);
    case Stop(id) => StopKeepsInv(s, id);
    case TogglePaused(id) =>
      FilterKeepsDistinct(s.paused, Other(id));
      if id !in s.paused { DistinctConcat(s.paused, [id]); }
    case ResumeAll =>
  }

  function After(s: Ui, actions: seq<Action>): Ui
    decreases |actions|
  {
    if actions == [] then s else After(Apply(s, actions[0]), actions[1..])
  }

  /**
   Whatever the operator and the polls do: no camera is watched twice, never more than the cap, never one opted out.
   */
  lemma {:induction false} WallStaysSound(s: Ui, actions: seq<Action>)
    requires Inv(s) && forall i :: 0 <= i < |actions| ==> WellFormed(actions[i])
    ensures Inv(After(s, actions))
    decreases |actions|
  {
    if actions != [] {
      StepKeepsInv(s, actions[0]);
      WallStaysSound(Apply(s, actions[0]), actions[1..]);
    }
  }

  /** A stopped camera stays off the wall through any polls, until it is started again or all are resumed. */
  lemma {:induction false} StoppedStaysOff(s: Ui, actions: seq<Action>, id: nat)
    requires Inv(s) && id in s.optOut
    requires forall i :: 0 <= i < |actions| ==>
        WellFormed(actions[i]) && actions[i] != ResumeAll && actions[i] != Start(id)
    ensures id in After(s, actions).optOut && id !in After(s, actions).watch
    decreases |actions|
  {
    if actions != [] {
      StepKeepsInv(s, actions[0]);
      StoppedStaysOff(Apply(s, actions[0]), actions[1..], id);
    }
  }
}
