/** The dashboard's alert list: repeats of one alert on one agent collapse into a cluster, in triage order. */
module Clusters {
  import opened Options
  import opened AlertRules
  import opened Sorting

  datatype AlertView = AlertView(id: string, kind: AlertType, agent: Option<string>, severity: Severity, at: int,
      acknowledged: bool)

  /** The grouping key; an alert with no agent is grouped under "system". */
  datatype Key = Key(kind: AlertType, agent: string)
  function KeyOf(a: AlertView): Key { Key(a.kind, match a.agent case None => "system" case Some(id) => id) }

  datatype Group = Group(key: Key, members: seq<AlertView>)

  datatype Cluster = Cluster(key: Key, latest: AlertView, members: seq<AlertView>, count: nat, severity: Severity,
                             acknowledged: bool, openIds: seq<string>, firstAt: int, lastAt: int)

  /** `groups.get(key)?.push(alert)`, else a new group at the end. */
  function Add(groups: seq<Group>, alert: AlertView): seq<Group> {
    if groups == [] then [Group(KeyOf(alert), [alert])]
    else if groups[0].key == KeyOf(alert) then [groups[0].(members := groups[0].members + [alert])] + groups[1..]
    else [groups[0]] + Add(groups[1..], alert)
  }

  function Grouped(alerts: seq<AlertView>): seq<Group> {
    if alerts == [] then [] else Add(Grouped(alerts[..|alerts| - 1]), alerts[|alerts| - 1])
  }

  predicate NewerFirst(a: AlertView, b: AlertView) { a.at >= b.at }

  /** `reduce`: the first of the worst. */
  function Worst(members: seq<AlertView>): AlertView
    requires members != []
  {
    if |members| == 1 then members[0]
    else
      var acc, last := Worst(members[..|members| - 1]), members[|members| - 1];
      if Weight(last.severity) > Weight(acc.severity) then last else acc
  }

  function OpenIds(members: seq<AlertView>): seq<string> {
    if members == [] then []
    else
      var last := members[|members| - 1];
      OpenIds(members[..|members| - 1]) + if last.acknowledged then [] else [last.id]
  }

  function Summarize(g: Group): Cluster
    requires g.members != []
  {
    var sorted := Sort(g.members, NewerFirst);
    NewerFirstIsTotal();
    SortIsSorted(g.members, NewerFirst);
    Cluster(g.key, sorted[0], sorted, |sorted|, Worst(sorted).severity, forall a <- sorted :: a.acknowledged,
            OpenIds(sorted), sorted[|sorted| - 1].at, sorted[0].at)
  }

  /** Triage order: open before acknowledged, then worse before milder, then later before earlier. */
  predicate TriageOrder(a: Cluster, b: Cluster) {
    if a.acknowledged != b.acknowledged then !a.acknowledged
    else if a.severity != b.severity then Weight(a.severity) >= Weight(b.severity)
    else a.lastAt >= b.lastAt
  }

  lemma NewerFirstIsTotal()
    ensures TotalPreorder(NewerFirst)
  {
  }

  lemma TriageOrderIsTotal()
    ensures TotalPreorder(TriageOrder)
  {
  }

  /** The grouping loop. */
  method GroupAlerts(alerts: seq<AlertView>) returns (groups: seq<Group>)
    ensures groups == Grouped(alerts)
  {
    groups := [];
    for i := 0 to |alerts|
      invariant groups == Grouped(alerts[..i])
    {
      assert alerts[..i + 1][..i] == alerts[..i];
      groups := AddTo(groups, alerts[i]);
    }
    assert alerts[..|alerts|] == alerts;
  }

  method AddTo(groups: seq<Group>, alert: AlertView) returns (added: seq<Group>)
    ensures added == Add(groups, alert)
  {
    var g := 0;
    while g < |groups| && groups[g].key != KeyOf(alert)
      invariant 0 <= g <= |groups|
      invariant Add(groups, alert) == groups[..g] + Add(groups[g..], alert)
    {
      assert groups[g..][0] == groups[g] && groups[g..][1..] == groups[g + 1..];
      g := g + 1;
    }
    if g < |groups| {
      assert groups[g..][0] == groups[g] && groups[g..][1..] == groups[g + 1..];
      added := groups[g := groups[g].(members := groups[g].members + [alert])];
    } else {
      assert groups[g..] == [];
      added := groups + [Group(KeyOf(alert), [alert])];
    }
  }

  method ClusterAlerts(alerts: seq<AlertView>) returns (clusters: seq<Cluster>)
    ensures IsClustering(clusters, alerts)
  {
    var groups := GroupAlerts(alerts);
    GroupingLosesNothing(alerts);
    var built := SummarizeAll(groups);
    clusters := Sort(built, TriageOrder);
    SortedSummaries(groups, built, alerts);
  }

  /** The loop that pushes one cluster per group. */
  method SummarizeAll(groups: seq<Group>) returns (built: seq<Cluster>)
    requires GoodGroups(groups)
    ensures |built| == |groups| && forall i :: 0 <= i < |groups| ==> built[i] == Summarize(groups[i])
  {
    built := [];
    for g := 0 to |groups|
      invariant |built| == g && forall i :: 0 <= i < g ==> built[i] == Summarize(groups[i])
    {
      built := built + [Summarize(groups[g])];
    }
  }

  // ---- What a clustering is ----

  function AllMembers(clusters: seq<Cluster>): multiset<AlertView> {
    if clusters == [] then multiset{}
    else AllMembers(clusters[..|clusters| - 1]) + multiset(clusters[|clusters| - 1].members)
  }

  /** The key of a cluster is the type and the agent of its members, or "system" for those without one. */
  predicate Belongs(a: AlertView, k: Key) {
    a.kind == k.kind && (a.agent == Some(k.agent) || (a.agent.None? && k.agent == "system"))
  }

  /** `places` are those of all unacknowledged members, in order, and `ids` what stands there. */
  predicate ListsOpen(ids: seq<string>, members: seq<AlertView>, places: seq<nat>) {
    && |places| == |ids|
    && (forall i, j :: 0 <= i < j < |places| ==> places[i] < places[j])
    && (forall i :: 0 <= i < |places| ==>
          places[i] < |members| && !members[places[i]].acknowledged && members[places[i]].id == ids[i])
    && (forall k :: 0 <= k < |members| && !members[k].acknowledged ==> k in places)
  }

  lemma KeyIsTypeAndAgent(a: AlertView, k: Key)
    ensures KeyOf(a) == k <==> Belongs(a, k)
  {
  }

  lemma {:induction false} OpenIdsListOpen(members: seq<AlertView>) returns (places: seq<nat>)
    ensures ListsOpen(OpenIds(members), members, places)
  {
    if members == [] {
      places := [];
    } else {
      var init, last := members[..|members| - 1], members[|members| - 1];
      places := OpenIdsListOpen(init);
      assert members == init + [last];
      if last.acknowledged {
        NoMoreOpen(OpenIds(init), init, last, places);
      } else {
        places := OneMoreOpen(OpenIds(init), init, last, places);
      }
    }
  }

  lemma NoMoreOpen(ids: seq<string>, init: seq<AlertView>, last: AlertView, places: seq<nat>)
    requires ListsOpen(ids, init, places) && last.acknowledged
    ensures ListsOpen(ids, init + [last], places)
  {
  }

  lemma OneMoreOpen(ids: seq<string>, init: seq<AlertView>, last: AlertView, places: seq<nat>) returns (more: seq<nat>)
    requires ListsOpen(ids, init, places) && !last.acknowledged
    ensures ListsOpen(ids + [last.id], init + [last], more)
  {
    more := places + [|init|];
    forall k | 0 <= k <= |init| && !(init + [last])[k].acknowledged ensures k in more {
      if k < |init| { assert k in places; } else { assert more[|places|] == k; }
    }
  }

  /** Open before acknowledged, then worse before milder, then later before earlier. */
  predicate InTriageOrder(clusters: seq<Cluster>) {
    forall i, j :: 0 <= i < j < |clusters| ==>
      && (clusters[i].acknowledged ==> clusters[j].acknowledged)
      && (clusters[i].acknowledged == clusters[j].acknowledged ==>
            && Weight(clusters[i].severity) >= Weight(clusters[j].severity)
            && (clusters[i].severity == clusters[j].severity ==> clusters[i].lastAt >= clusters[j].lastAt))
  }

  lemma TriageOrderIs(clusters: seq<Cluster>)
    ensures SortedBy(clusters, TriageOrder) <==> InTriageOrder(clusters)
  {
    if SortedBy(clusters, TriageOrder) {
      forall i, j | 0 <= i < j < |clusters|
        ensures clusters[i].acknowledged ==> clusters[j].acknowledged
        ensures clusters[i].acknowledged == clusters[j].acknowledged ==>
                  && Weight(clusters[i].severity) >= Weight(clusters[j].severity)
                  && (clusters[i].severity == clusters[j].severity ==> clusters[i].lastAt >= clusters[j].lastAt)
      {
        assert TriageOrder(clusters[i], clusters[j]);
      }
    }
    if InTriageOrder(clusters) {
      forall i, j | 0 <= i < j < |clusters| ensures TriageOrder(clusters[i], clusters[j]) { }
    }
  }

  /** The members are of one type and agent, and listed newest first. */
  predicate NewestFirst(members: seq<AlertView>, key: Key) {
    && members != [] && (forall a <- members :: Belongs(a, key))
    && forall i, j :: 0 <= i < j < |members| ==> members[i].at >= members[j].at
  }

  /** A cluster's figures are those of its members. */
  predicate Figures(c: Cluster)
    requires c.members != []
  {
    && c.count == |c.members| && c.latest == c.members[0]
    && (forall a <- c.members :: Weight(a.severity) <= Weight(c.severity))
        && (exists a <- c.members :: a.severity == c.severity)
    && (forall a <- c.members :: c.firstAt <= a.at <= c.lastAt)
    && (exists a <- c.members :: a.at == c.firstAt) && (exists a <- c.members :: a.at == c.lastAt)
    && (c.acknowledged <==> forall a <- c.members :: a.acknowledged)
  }

  ghost predicate Faithful(c: Cluster) {
    NewestFirst(c.members, c.key) && Figures(c) && exists places :: ListsOpen(c.openIds, c.members, places)
  }

  predicate DistinctKeys(clusters: seq<Cluster>) {
    forall i, j :: 0 <= i < j < |clusters| ==> clusters[i].key != clusters[j].key
  }

  /** Nothing lost, nothing shown twice, every figure right, in triage order. */
  ghost predicate IsClustering(clusters: seq<Cluster>, alerts: seq<AlertView>) {
    && AllMembers(clusters) == multiset(alerts)
    && DistinctKeys(clusters)
    && (forall i :: 0 <= i < |clusters| ==> Faithful(clusters[i]))
    && InTriageOrder(clusters)
  }

  // ---- Why it holds ----

  function GroupMembers(groups: seq<Group>): multiset<AlertView> {
    if groups == [] then multiset{} else multiset(groups[0].members) + GroupMembers(groups[1..])
  }

  predicate GoodGroups(groups: seq<Group>) {
    && (forall i, j :: 0 <= i < j < |groups| ==> groups[i].key != groups[j].key)
    && (forall i :: 0 <= i < |groups| ==>
        groups[i].members != [] && forall a <- groups[i].members :: KeyOf(a) == groups[i].key)
  }

  lemma {:induction false} AddKeepsMembers(groups: seq<Group>, alert: AlertView)
    ensures GroupMembers(Add(groups, alert)) == GroupMembers(groups) + multiset{alert}
  {
    if groups != [] && groups[0].key != KeyOf(alert) {
      AddKeepsMembers(groups[1..], alert);
      assert Add(groups, alert)[1..] == Add(groups[1..], alert);
    } else if groups != [] {
      assert Add(groups, alert)[1..] == groups[1..];
    } else {
      assert Add(groups, alert)[1..] == [];
    }
  }

  /** A group already there gains the alert at its end; otherwise one group is added at the end of the list. */
  lemma {:induction false} AddChangesOne(groups: seq<Group>, alert: AlertView) returns (k: nat)
    ensures k <= |groups| && forall i :: 0 <= i < k ==> groups[i].key != KeyOf(alert)
    ensures k < |groups| ==> groups[k].key == KeyOf(alert)
                             && Add(groups, alert) == groups[k := groups[k].(members := groups[k].members + [alert])]
    ensures k == |groups| ==> Add(groups, alert) == groups + [Group(KeyOf(alert), [alert])]
  {
    k := 0;
    if groups != [] && groups[0].key != KeyOf(alert) {
      var m := AddChangesOne(groups[1..], alert);
      k := m + 1;
    }
  }

  lemma AddKeepsGroups(groups: seq<Group>, alert: AlertView)
    requires GoodGroups(groups)
    ensures GoodGroups(Add(groups, alert))
  {
    var k := AddChangesOne(groups, alert);
  }

  lemma {:induction false} GroupingLosesNothing(alerts: seq<AlertView>)
    ensures GoodGroups(Grouped(alerts)) && GroupMembers(Grouped(alerts)) == multiset(alerts)
  {
    if alerts != [] {
      var init := alerts[..|alerts| - 1];
      GroupingLosesNothing(init);
      AddKeepsGroups(Grouped(init), alerts[|alerts| - 1]);
      AddKeepsMembers(Grouped(init), alerts[|alerts| - 1]);
      assert alerts == init + [alerts[|alerts| - 1]];
    }
  }

  lemma {:induction false} WorstIsMax(members: seq<AlertView>)
    requires members != []
    ensures Worst(members) in members && forall a <- members :: Weight(a.severity) <= Weight(Worst(members).severity)
  {
    if |members| > 1 {
      WorstIsMax(members[..|members| - 1]);
      assert members == members[..|members| - 1] + [members[|members| - 1]];
    }
  }

  lemma MembersAre(g: Group)
    requires g.members != [] && forall a <- g.members :: KeyOf(a) == g.key
    ensures var members := Summarize(g).members;
            NewestFirst(members, g.key) && multiset(members) == multiset(g.members)
  {
    var members := Summarize(g).members;
    NewerFirstIsTotal();
    SortIsSorted(g.members, NewerFirst);
    forall a <- members ensures Belongs(a, g.key) {
      assert a in multiset(members);
      KeyIsTypeAndAgent(a, g.key);
    }
    forall i, j | 0 <= i < j < |members| ensures members[i].at >= members[j].at {
      assert NewerFirst(members[i], members[j]);
    }
  }

  lemma FiguresAre(g: Group)
    requires g.members != [] && Summarize(g).members != [] && NewestFirst(Summarize(g).members, g.key)
    ensures Figures(Summarize(g))
  {
    var c := Summarize(g);
    WorstIsMax(c.members);
    assert c.members[0].at == c.lastAt && c.members[|c.members| - 1].at == c.firstAt;
  }

  lemma SummaryIsFaithful(g: Group)
    requires g.members != [] && forall a <- g.members :: KeyOf(a) == g.key
    ensures Faithful(Summarize(g)) && multiset(Summarize(g).members) == multiset(g.members)
  {
    MembersAre(g);
    FiguresAre(g);
    var places := OpenIdsListOpen(Summarize(g).members);
  }

  lemma SummariesCluster(groups: seq<Group>, built: seq<Cluster>, alerts: seq<AlertView>)
    requires GoodGroups(groups) && |built| == |groups|
    requires forall i :: 0 <= i < |groups| ==> built[i] == Summarize(groups[i])
    requires GroupMembers(groups) == multiset(alerts)
    ensures AllMembers(built) == multiset(alerts) && DistinctKeys(built)
    ensures forall i :: 0 <= i < |built| ==> Faithful(built[i])
  {
    forall i | 0 <= i < |built|
      ensures Faithful(built[i]) && multiset(built[i].members) == multiset(groups[i].members)
    {
      SummaryIsFaithful(groups[i]);
    }
    SameMembers(groups, built);
  }

  lemma SortedSummaries(groups: seq<Group>, built: seq<Cluster>, alerts: seq<AlertView>)
    requires GoodGroups(groups) && |built| == |groups|
    requires forall i :: 0 <= i < |groups| ==> built[i] == Summarize(groups[i])
    requires GroupMembers(groups) == multiset(alerts)
    ensures IsClustering(Sort(built, TriageOrder), alerts)
  {
    SummariesCluster(groups, built, alerts);
    TriageOrderIsTotal();
    SortIsSorted(built, TriageOrder);
    TriageOrderIs(Sort(built, TriageOrder));
    ReorderKeepsClusters(built, Sort(built, TriageOrder));
  }

  lemma {:induction false} SameMembers(groups: seq<Group>, built: seq<Cluster>)
    requires |built| == |groups| && forall i :: 0 <= i < |groups| ==>
        multiset(built[i].members) == multiset(groups[i].members)
    ensures AllMembers(built) == GroupMembers(groups)
    decreases |groups|
  {
    if groups != [] {
      SameMembers(groups[1..], built[1..]);
      AllMembersFront(built);
    }
  }

  lemma {:induction false} AllMembersFront(clusters: seq<Cluster>)
    requires clusters != []
    ensures AllMembers(clusters) == multiset(clusters[0].members) + AllMembers(clusters[1..])
  {
    var n := |clusters| - 1;
    if n == 0 {
      assert clusters[..0] == [] && clusters[1..] == [];
    } else {
      var init, rest := clusters[..n], clusters[1..];
      AllMembersFront(init);
      assert init[0] == clusters[0] && init[1..] == rest[..n - 1] && rest[n - 1] == clusters[n];
      assert AllMembers(rest) == AllMembers(rest[..n - 1]) + multiset(clusters[n].members);
    }
  }

  /** Clusters told apart by key survive any reordering. */
  lemma ReorderKeepsClusters(built: seq<Cluster>, sorted: seq<Cluster>)
    requires multiset(sorted) == multiset(built) && DistinctKeys(built)
    requires forall i :: 0 <= i < |built| ==> Faithful(built[i])
    ensures AllMembers(sorted) == AllMembers(built) && DistinctKeys(sorted)
    ensures forall i :: 0 <= i < |sorted| ==> Faithful(sorted[i])
  {
    forall i | 0 <= i < |sorted| ensures Faithful(sorted[i]) {
      assert sorted[i] in multiset(built);
      assert sorted[i] in built;
    }
    ReorderKeepsMembers(built, sorted);
    PermutationKeepsDistinct(built, sorted);
    forall i, j | 0 <= i < j < |sorted| ensures sorted[i].key != sorted[j].key {
      assert sorted[i] in multiset(built) && sorted[j] in multiset(built);
      DifferentKeys(built, sorted[i], sorted[j]);
    }
  }

  lemma DifferentKeys(built: seq<Cluster>, a: Cluster, b: Cluster)
    requires DistinctKeys(built) && a in built && b in built && a != b
    ensures a.key != b.key
  {
    var k :| 0 <= k < |built| && built[k] == a;
    var m :| 0 <= m < |built| && built[m] == b;
  }

  lemma {:induction false} ReorderKeepsMembers(built: seq<Cluster>, sorted: seq<Cluster>)
    requires multiset(sorted) == multiset(built)
    ensures AllMembers(sorted) == AllMembers(built)
    decreases |built|
  {
    assert |multiset(sorted)| == |multiset(built)|;
    if built != [] {
      var last := built[|built| - 1];
      assert last in multiset(built) && last in multiset(sorted);
      var k :| 0 <= k < |sorted| && sorted[k] == last;
      var rest := sorted[..k] + sorted[k + 1..];
      RemoveAt(sorted, k);
      RemoveAt(built, |built| - 1);
      assert built[..|built| - 1] + built[|built|..] == built[..|built| - 1];
      ReorderKeepsMembers(built[..|built| - 1], rest);
      TakeOut(sorted, k);
    }
  }

  lemma {:induction false} TakeOut(clusters: seq<Cluster>, k: nat)
    requires k < |clusters|
    ensures AllMembers(clusters) == AllMembers(clusters[..k] + clusters[k + 1..]) + multiset(clusters[k].members)
  {
    var rest := clusters[..k] + clusters[k + 1..];
    var last := |clusters| - 1;
    if k == last {
      assert rest == clusters[..last];
    } else {
      TakeOut(clusters[..last], k);
      assert rest[..|rest| - 1] == clusters[..last][..k] + clusters[..last][k + 1..];
    }
  }

  // ---- Order inside a cluster ----

  function HasKey(k: Key): AlertView -> bool { (a: AlertView) => KeyOf(a) == k }
  function RaisedAt(t: int): AlertView -> bool { (a: AlertView) => a.at == t }

  predicate AllGrouped(alerts: seq<AlertView>, groups: seq<Group>) {
    forall a <- alerts :: exists i :: 0 <= i < |groups| && groups[i].key == KeyOf(a)
  }

  /** Every alert's key has a group. */
  lemma {:induction false} EveryAlertIsGrouped(alerts: seq<AlertView>)
    ensures AllGrouped(alerts, Grouped(alerts))
  {
    if alerts != [] {
      var init, last := alerts[..|alerts| - 1], alerts[|alerts| - 1];
      var before, after := Grouped(init), Grouped(alerts);
      EveryAlertIsGrouped(init);
      var k := AddChangesOne(before, last);
      forall a <- alerts ensures exists i :: 0 <= i < |after| && after[i].key == KeyOf(a) {
        if a in init {
          var i :| 0 <= i < |before| && before[i].key == KeyOf(a);
          assert after[i].key == before[i].key;
        } else {
          assert after[k].key == KeyOf(last);
        }
      }
    }
  }

  /** A group is the list of alerts filtered to its key. */
  lemma {:induction false} GroupsAreFilters(alerts: seq<AlertView>)
    ensures forall i :: 0 <= i < |Grouped(alerts)| ==>
              Grouped(alerts)[i].members == Filter(alerts, HasKey(Grouped(alerts)[i].key))
  {
    if alerts != [] {
      var init, last := alerts[..|alerts| - 1], alerts[|alerts| - 1];
      var before, after := Grouped(init), Grouped(alerts);
      GroupsAreFilters(init);
      GroupingLosesNothing(init);
      EveryAlertIsGrouped(init);
      var k := AddChangesOne(before, last);
      forall i | 0 <= i < |after| ensures after[i].members == Filter(alerts, HasKey(after[i].key)) {
        FilterStep(alerts, after[i].key);
        if i == |before| { NoneHasKey(init, KeyOf(last), before); }
      }
    }
  }

  lemma FilterStep(alerts: seq<AlertView>, key: Key)
    requires alerts != []
    ensures var init, last := alerts[..|alerts| - 1], alerts[|alerts| - 1];
            Filter(alerts, HasKey(key))
            == if KeyOf(last) == key then Filter(init, HasKey(key)) + [last] else Filter(init, HasKey(key))
  {
  }

  lemma {:induction false} NoneHasKey(alerts: seq<AlertView>, key: Key, groups: seq<Group>)
    requires AllGrouped(alerts, groups) && forall i :: 0 <= i < |groups| ==> groups[i].key != key
    ensures Filter(alerts, HasKey(key)) == []
  {
    if alerts != [] {
      assert alerts[|alerts| - 1] in alerts;
      NoneHasKey(alerts[..|alerts| - 1], key, groups);
    }
  }

  /** Two alerts land in one group exactly when they are of one type and one agent; having none counts as "system". */
  lemma OneGroupIff(a: AlertView, b: AlertView)
    ensures KeyOf(a) == KeyOf(b) <==>
              a.kind == b.kind && (a.agent == b.agent || {a.agent, b.agent} == {None, Some("system")})
  {
  }

  /** Within a cluster, alerts raised at the same instant stay in the order they were listed. */
  lemma TiesKeepTheirOrder(g: Group, t: int)
    requires g.members != []
    ensures Filter(Summarize(g).members, RaisedAt(t)) == Filter(g.members, RaisedAt(t))
  {
    SortIsStable(g.members, NewerFirst, RaisedAt(t));
  }
}
