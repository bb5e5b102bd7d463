/**
 The HTTP transport's bounded resend queue. The network is a script of replies, one per request; an
 event is known by its place in publish order. `acked` and `dropped` record what became of the events
 that are no longer pending.
 */
module ResendQueue {
  import opened Options

  /** What one request meets. `token` is the enrollment token in the body, if there is one. */
  datatype Reply = Unreachable | Answer(code: nat, token: Option<nat>) {
    /** `response.ok`. */
    predicate Ok() { Answer? && code < 400 }
  }

  /**
   The connection's own state: the agent token and its copy on disk, whether a descriptor is registered, and the replies
   to come.
   */
  datatype Net = Net(token: Option<nat>, stored: Option<nat>, descriptor: bool, replies: seq<Reply>)

  function NextReply(net: Net): Reply { if net.replies == [] then Unreachable else net.replies[0] }
  function Sent(net: Net): Net { if net.replies == [] then net else net.(replies := net.replies[1..]) }

  datatype Posted = Posted(ok: bool, net: Net)

  /** Drops the token, on disk too, and exchanges the bootstrap key for a new one. */
  function ReenrollOutcome(net: Net): Posted {
    var bare := net.(token := None, stored := None);
    if !net.descriptor then Posted(false, bare)
    else
      var reply, after := NextReply(bare), Sent(bare);
      if reply.Ok() && reply.token.Some? then Posted(true, after.(token := reply.token, stored := reply.token))
          else Posted(false, after)
  }

  /** One post with recovery: enroll if there is no token, and once more if the hub rejects it. */
  function PostOutcome(net: Net): Posted {
    var ready := if net.token.None? then ReenrollOutcome(net) else Posted(true, net);
    if !ready.ok then ready
    else
      var reply, after := NextReply(ready.net), Sent(ready.net);
      if reply.Answer? && reply.code in {401, 403, 404} then
        var again := ReenrollOutcome(after);
        if !again.ok then again else Posted(NextReply(again.net).Ok(), Sent(again.net))
      else Posted(reply.Ok(), after)
  }

  datatype Queue = Queue(pending: seq<nat>, acked: seq<nat>, dropped: seq<nat>, net: Net)

  /** A `deque(maxlen=max)`: appending to a full one drops from the front. */
  function Enqueue(q: Queue, e: nat, max: nat): Queue {
    var longer := q.pending + [e];
    if |longer| <= max then q.(pending := longer)
    else q.(pending := longer[1..], dropped := q.dropped + [longer[0]])
  }

  /** Oldest first, until one fails. */
  function Flush(q: Queue): Queue
    decreases |q.pending|
  {
    if q.pending == [] then q
    else
      var p := PostOutcome(q.net);
      if p.ok then Flush(Queue(q.pending[1..], q.acked + [q.pending[0]], q.dropped, p.net)) else q.(net := p.net)
  }

  function Publish(q: Queue, e: nat, max: nat): Queue {
    var flushed := Flush(q);
    var p := PostOutcome(flushed.net);
    if p.ok then flushed.(acked := flushed.acked + [e], net := p.net) else Enqueue(flushed.(net := p.net), e, max)
  }

  // ---- One post ----

  /** `after` has used up at most `most` of the replies to come. */
  predicate Uses(net: Net, after: Net, most: nat) {
    |net.replies| - most <= |after.replies| <= |net.replies|
    && after.replies == net.replies[|net.replies| - |after.replies|..]
  }

  /** The reply the last request met. */
  predicate EndedWell(net: Net, after: Net) {
    after.token.Some? && |after.replies| < |net.replies| && Uses(net, after, |net.replies|)
    && net.replies[|net.replies| - |after.replies| - 1].Ok()
  }

  lemma UsesMore(net: Net, mid: Net, after: Net, m: nat, n: nat)
    requires Uses(net, mid, m) && Uses(mid, after, n)
    ensures Uses(net, after, m + n) && (EndedWell(mid, after) ==> EndedWell(net, after))
  {
  }

  lemma OneRequest(net: Net)
    ensures Uses(net, Sent(net), 1) && (NextReply(net).Ok() && net.token.Some? ==> EndedWell(net, Sent(net)))
  {
  }

  lemma EnrollmentUses(net: Net)
    ensures Uses(net, ReenrollOutcome(net).net, 1) && (ReenrollOutcome(net).ok ==> ReenrollOutcome(net).net.token.Some?)
  {
  }

  lemma HolderUses(net: Net)
    requires net.token.Some?
    ensures Uses(net, PostOutcome(net).net, 3) && (PostOutcome(net).ok ==> EndedWell(net, PostOutcome(net).net))
  {
    OneRequest(net);
    if Rejected(NextReply(net)) { RejectedUses(net); }
  }

  lemma RejectedUses(net: Net)
    requires net.token.Some? && Rejected(NextReply(net))
    ensures Uses(net, PostOutcome(net).net, 3) && (PostOutcome(net).ok ==> EndedWell(net, PostOutcome(net).net))
  {
    var after := Sent(net);
    var again := ReenrollOutcome(after);
    OneRequest(net);
    EnrollmentUses(after);
    UsesMore(net, after, again.net, 1, 1);
    OneRequest(again.net);
    UsesMore(net, again.net, Sent(again.net), 2, 1);
    assert PostOutcome(net) == if again.ok then Posted(NextReply(again.net).Ok(), Sent(again.net)) else again;
  }

  /** At most four requests, and success means the last of them was answered well to a holder of a token. */
  lemma PostIsBounded(net: Net)
    ensures Uses(net, PostOutcome(net).net, 4) && (PostOutcome(net).ok ==> EndedWell(net, PostOutcome(net).net))
  {
    if net.token.Some? {
      HolderUses(net);
    } else {
      var enrolled := ReenrollOutcome(net);
      EnrollmentUses(net);
      if enrolled.ok {
        HolderUses(enrolled.net);
        assert PostOutcome(net) == PostOutcome(enrolled.net);
        UsesMore(net, enrolled.net, PostOutcome(enrolled.net).net, 1, 3);
      }
    }
  }

  function ReplyAt(net: Net, i: nat): Reply { if i < |net.replies| then net.replies[i] else Unreachable }
  predicate Rejected(r: Reply) { r.Answer? && r.code in {401, 403, 404} }
  predicate Grants(r: Reply) { r.Ok() && r.token.Some? }

  /** Exactly when a post succeeds: at once, after one enrollment, or after a second one. */
  lemma PostSucceedsIff(net: Net)
    ensures PostOutcome(net).ok <==>
              if net.token.Some? then
                || ReplyAt(net, 0).Ok()
                || (Rejected(ReplyAt(net, 0)) && net.descriptor && Grants(ReplyAt(net, 1)) && ReplyAt(net, 2).Ok())
              else
                && net.descriptor && Grants(ReplyAt(net, 0))
                && (ReplyAt(net, 1).Ok()
                    || (Rejected(ReplyAt(net, 1)) && Grants(ReplyAt(net, 2)) && ReplyAt(net, 3).Ok()))
  {
    if net.token.Some? {
      HolderSucceedsIff(net);
    } else {
      EnrollmentGrants(net);
      var enrolled := ReenrollOutcome(net).net;
      if ReenrollOutcome(net).ok {
        assert PostOutcome(net) == PostOutcome(enrolled);
        HolderSucceedsIff(enrolled);
        Later(enrolled, net, 0);
        Later(enrolled, net, 1);
        Later(enrolled, net, 2);
      }
    }
  }

  lemma Later(after: Net, net: Net, i: nat)
    requires after.replies == Sent(net).replies
    ensures ReplyAt(after, i) == ReplyAt(net, i + 1)
  {
  }

  lemma EnrollmentGrants(net: Net)
    ensures ReenrollOutcome(net).ok <==> net.descriptor && Grants(ReplyAt(net, 0))
    ensures ReenrollOutcome(net).ok ==>
        ReenrollOutcome(net).net == Sent(net).(token := ReplyAt(net, 0).token, stored := ReplyAt(net, 0).token)
  {
  }

  lemma HolderSucceedsIff(net: Net)
    requires net.token.Some?
    ensures PostOutcome(net).ok <==>
              || ReplyAt(net, 0).Ok()
              || (Rejected(ReplyAt(net, 0)) && net.descriptor && Grants(ReplyAt(net, 1)) && ReplyAt(net, 2).Ok())
  {
    var after := Sent(net);
    Later(after, net, 0);
    Later(after, net, 1);
    EnrollmentGrants(after);
    if ReenrollOutcome(after).ok { Later(ReenrollOutcome(after).net, after, 0); }
  }

  /** A stale token heals itself: rejection, enrollment, retry. */
  lemma StaleTokenHeals(net: Net)
    requires net.token.Some? && net.descriptor && |net.replies| >= 3
    requires net.replies[0].Answer? && net.replies[0].code in {401, 403, 404}
    requires net.replies[1].Ok() && net.replies[1].token.Some? && net.replies[2].Ok()
    ensures PostOutcome(net) == Posted(true, Net(net.replies[1].token, net.replies[1].token, true, net.replies[3..]))
  {
    assert net.replies[1..][1..] == net.replies[2..] && net.replies[2..][1..] == net.replies[3..];
  }

  /** Before and after every post what is on disk is the token in use: a restart between posts loads no other. */
  lemma StoredTokenIsCurrent(net: Net)
    requires net.stored == net.token
    ensures PostOutcome(net).net.stored == PostOutcome(net).net.token
  {
  }

  lemma {:induction false} FlushKeepsStoredToken(q: Queue)
    requires q.net.stored == q.net.token
    ensures Flush(q).net.stored == Flush(q).net.token
    decreases |q.pending|
  {
    if q.pending != [] {
      var p := PostOutcome(q.net);
      StoredTokenIsCurrent(q.net);
      if p.ok { FlushKeepsStoredToken(Queue(q.pending[1..], q.acked + [q.pending[0]], q.dropped, p.net)); }
    }
  }

  /** And through a whole publish, whatever the network does. */
  lemma PublishKeepsStoredToken(q: Queue, e: nat, max: nat)
    requires q.net.stored == q.net.token
    ensures Publish(q, e, max).net.stored == Publish(q, e, max).net.token
  {
    FlushKeepsStoredToken(q);
    StoredTokenIsCurrent(Flush(q).net);
  }

  // ---- Whole runs ----

  predicate Increasing(xs: seq<nat>) { forall i, j :: 0 <= i < j < |xs| ==> xs[i] < xs[j] }

  /** The events published by `n` calls, in order. */
  function Published(n: nat): seq<nat> { seq(n, i => i) }

  function Places(q: Queue): multiset<nat> { multiset(q.acked) + multiset(q.pending) + multiset(q.dropped) }

  /**
   Every published event is in exactly one place; the backlog is bounded and in publish order; what
   was dropped is older than what is kept, oldest first.
   */
  predicate Conserved(q: Queue, n: nat, max: nat) {
    && Places(q) == multiset(Published(n))
    && Increasing(q.dropped + q.pending)
    && |q.pending| <= max
  }

  /** Nothing has overtaken the backlog. */
  predicate InOrder(q: Queue) { Increasing(q.acked + q.pending) }

  /** How far a flush gets: a prefix of the backlog is acknowledged, in order. */
  lemma {:induction false} FlushSendsPrefix(q: Queue) returns (k: nat)
    ensures k <= |q.pending|
    ensures Flush(q).pending == q.pending[k..] && Flush(q).acked == q.acked + q.pending[..k]
        && Flush(q).dropped == q.dropped
    decreases |q.pending|
  {
    k := 0;
    if q.pending == [] {
      assert q.acked + q.pending[..0] == q.acked;
    } else {
      var p := PostOutcome(q.net);
      if p.ok {
        var next := Queue(q.pending[1..], q.acked + [q.pending[0]], q.dropped, p.net);
        var m := FlushSendsPrefix(next);
        k := m + 1;
        assert q.acked + [q.pending[0]] + q.pending[1..][..m] == q.acked + q.pending[..k];
        assert q.pending[1..][m..] == q.pending[k..];
      } else {
        assert q.acked + q.pending[..0] == q.acked;
      }
    }
  }

  /** The connection after a number of posts, whatever becomes of each. */
  function Chain(net: Net, posts: nat): Net
    decreases posts
  {
    if posts == 0 then net else Chain(PostOutcome(net).net, posts - 1)
  }

  /** Whether a post of the chain gets through; the first is number 0. */
  predicate Delivers(net: Net, i: nat) { PostOutcome(Chain(net, i)).ok }

  lemma {:induction false} ChainSnoc(net: Net, posts: nat)
    ensures Chain(net, posts + 1) == PostOutcome(Chain(net, posts)).net
    decreases posts
  {
    if posts > 0 { ChainSnoc(PostOutcome(net).net, posts - 1); }
  }

  /** The flush got through to the event at `k`, and stopped there for a failure or for want of any other. */
  predicate FlushedTo(q: Queue, k: nat) {
    && k <= |q.pending| && (forall i :: 0 <= i < k ==> Delivers(q.net, i))
    && (k < |q.pending| ==> !Delivers(q.net, k))
  }

  lemma FlushedOne(q: Queue, next: Queue, m: nat)
    requires q.pending != [] && PostOutcome(q.net).ok && FlushedTo(next, m)
    requires next.pending == q.pending[1..] && next.net == PostOutcome(q.net).net
    ensures FlushedTo(q, m + 1)
  {
    forall i | 0 <= i < m + 1 ensures Delivers(q.net, i) {
      if i > 0 { assert Delivers(next.net, i - 1); }
    }
  }

  /** A flush goes on, one post an event, until one fails or nothing is left. */
  lemma {:induction false} FlushStopsAtFailure(q: Queue) returns (k: nat)
    ensures FlushedTo(q, k)
    ensures Flush(q) == Queue(q.pending[k..], q.acked + q.pending[..k], q.dropped,
                              Chain(q.net, if k < |q.pending| then k + 1 else k))
    decreases |q.pending|
  {
    k := 0;
    if q.pending == [] {
      assert q.acked + q.pending[..0] == q.acked;
      return;
    }
    var p := PostOutcome(q.net);
    if p.ok {
      var next := Queue(q.pending[1..], q.acked + [q.pending[0]], q.dropped, p.net);
      var m := FlushStopsAtFailure(next);
      FlushedOne(q, next, m);
      k := m + 1;
      assert q.acked + [q.pending[0]] + q.pending[1..][..m] == q.acked + q.pending[..k];
      assert q.pending[1..][m..] == q.pending[k..];
    } else {
      ChainSnoc(q.net, 0);
      assert q.acked + q.pending[..0] == q.acked;
    }
  }

  /** The newest of the backlog that fit: appending to a full queue drops the oldest, and to any other nothing. */
  lemma EnqueueKeepsNewest(q: Queue, e: nat, max: nat)
    requires |q.pending| <= max && max > 0
    ensures var t := Enqueue(q, e, max);
            && t.acked == q.acked && t.net == q.net
            && (|q.pending| < max ==> t.pending == q.pending + [e] && t.dropped == q.dropped)
            && (|q.pending| == max ==> t.pending == q.pending[1..] + [e] && t.dropped == q.dropped + [q.pending[0]])
  {
  }

  /**
   One publish, post by post: the backlog goes out oldest first up to the first post that fails, and then the new event
   is tried once. If it gets through it is acknowledged, else it joins what is left.
   */
  lemma PublishRule(q: Queue, e: nat, max: nat) returns (k: nat)
    ensures FlushedTo(q, k)
    ensures var left, tried, t := q.pending[k..], if k < |q.pending| then k + 1 else k, Publish(q, e, max);
            && t.net == Chain(q.net, tried + 1)
            && if Delivers(q.net, tried)
               then t.acked == q.acked + q.pending[..k] + [e] && t.pending == left && t.dropped == q.dropped
               else t.acked == q.acked + q.pending[..k]
                    && t.pending == (if |left| < max then left + [e] else (left + [e])[1..])
                    && t.dropped == if |left| < max then q.dropped else q.dropped + [(left + [e])[0]]
  {
    k := FlushStopsAtFailure(q);
    ChainSnoc(q.net, if k < |q.pending| then k + 1 else k);
  }

  /** A holder of a token whose replies are good gets one post through for each. */
  lemma {:induction false} GoodRepliesDeliver(net: Net, n: nat)
    requires net.token.Some? && n <= |net.replies| && forall i :: 0 <= i < n ==> net.replies[i].Ok()
    ensures forall i :: 0 <= i < n ==> Delivers(net, i)
    ensures Chain(net, n) == net.(replies := net.replies[n..])
    decreases n
  {
    if n == 0 {
      assert net.replies[0..] == net.replies;
    } else {
      var next := net.(replies := net.replies[1..]);
      OkDelivers(net);
      GoodRepliesDeliver(next, n - 1);
      assert net.replies[1..][n - 1..] == net.replies[n..];
      forall i | 0 <= i < n ensures Delivers(net, i) { if i > 0 { assert Delivers(next, i - 1); } }
    }
  }

  lemma OkDelivers(net: Net)
    requires net.token.Some? && net.replies != [] && net.replies[0].Ok()
    ensures PostOutcome(net) == Posted(true, net.(replies := net.replies[1..]))
  {
  }

  /** A token the hub rejects is never kept: after the post it is a fresh one from an enrollment, or there is none. */
  lemma RejectedTokenIsGone(net: Net)
    requires net.token.Some? && Rejected(ReplyAt(net, 0))
    ensures var granted := net.descriptor && Grants(ReplyAt(net, 1));
            PostOutcome(net).net.token == if granted then ReplyAt(net, 1).token else None
  {
    var after := Sent(net);
    Later(after, net, 0);
    EnrollmentGrants(after);
  }

  lemma PublishedOnce(n: nat, e: nat)
    ensures multiset(Published(n))[e] == if e < n then 1 else 0
    decreases n
  {
    if n > 0 {
      PublishedOnce(n - 1, e);
      assert Published(n) == Published(n - 1) + [n - 1];
    }
  }

  lemma InPlace(q: Queue, n: nat, e: nat)
    requires Places(q) == multiset(Published(n)) && (e in q.pending || e in q.acked || e in q.dropped)
    ensures e < n
  {
    PublishedOnce(n, e);
    assert e in Places(q);
  }

  lemma FlushConserves(q: Queue, n: nat, max: nat)
    requires Conserved(q, n, max)
    ensures Conserved(Flush(q), n, max)
  {
    var k := FlushSendsPrefix(q);
    assert q.pending == q.pending[..k] + q.pending[k..];
    var kept := q.dropped + q.pending[k..];
    var whole := q.dropped + q.pending;
    forall i, j | 0 <= i < j < |kept| ensures kept[i] < kept[j] {
      var i', j' := if i < |q.dropped| then i else i + k, if j < |q.dropped| then j else j + k;
      assert kept[i] == whole[i'] && kept[j] == whole[j'];
    }
  }

  lemma IncreasingSnoc(xs: seq<nat>, x: nat)
    requires Increasing(xs) && forall y <- xs :: y < x
    ensures Increasing(xs + [x])
  {
    var ys := xs + [x];
    forall i, j | 0 <= i < j < |ys| ensures ys[i] < ys[j] {
      assert ys[i] == xs[i] && xs[i] in xs;
    }
  }

  lemma EnqueuePlaces(q: Queue, e: nat, max: nat)
    ensures Places(Enqueue(q, e, max)) == Places(q) + multiset{e}
    ensures Enqueue(q, e, max).dropped + Enqueue(q, e, max).pending == q.dropped + (q.pending + [e])
  {
    var t, longer := Enqueue(q, e, max), q.pending + [e];
    assert multiset(longer) == multiset(q.pending) + multiset{e};
    if |longer| > max {
      assert longer == [longer[0]] + longer[1..];
      assert multiset(longer) == multiset([longer[0]]) + multiset(longer[1..]);
      assert multiset(t.dropped) == multiset(q.dropped) + multiset([longer[0]]);
      assert t.dropped + t.pending == q.dropped + longer;
      assert Places(t) == multiset(q.acked) + multiset(longer) + multiset(q.dropped);
    } else {
      assert Places(t) == multiset(q.acked) + multiset(longer) + multiset(q.dropped);
    }
  }

  lemma EnqueueConserves(q: Queue, n: nat, max: nat)
    requires Conserved(q, n, max)
    ensures Conserved(Enqueue(q, n, max), n + 1, max)
  {
    EnqueuePlaces(q, n, max);
    assert Published(n + 1) == Published(n) + [n];
    forall e <- q.dropped + q.pending ensures e < n { InPlace(q, n, e); }
    IncreasingSnoc(q.dropped + q.pending, n);
    assert q.dropped + (q.pending + [n]) == q.dropped + q.pending + [n];
  }

  /** One publish conserves every event, whatever the network does. */
  lemma PublishConserves(q: Queue, n: nat, max: nat)
    requires Conserved(q, n, max)
    ensures Conserved(Publish(q, n, max), n + 1, max)
  {
    var f := Flush(q);
    FlushConserves(q, n, max);
    var p := PostOutcome(f.net);
    if p.ok {
      assert Published(n + 1) == Published(n) + [n];
    } else {
      assert Conserved(f.(net := p.net), n, max);
      EnqueueConserves(f.(net := p.net), n, max);
    }
  }

  /**
   The one way an event overtakes the backlog: a post of the flush fails, and the next one, the new event's, does not.
   */
  predicate Overtakes(q: Queue) { exists k :: 0 <= k < |q.pending| && FailsOnce(q.net, k) }

  /** Post `k` is the first to fail, and the next one gets through. */
  predicate FailsOnce(net: Net, k: nat) {
    (forall i :: 0 <= i < k ==> Delivers(net, i)) && !Delivers(net, k) && Delivers(net, k + 1)
  }

  lemma OvertakesIff(q: Queue)
    ensures Overtakes(q) <==> Flush(q).pending != [] && PostOutcome(Flush(q).net).ok
  {
    var k := FlushStopsAtFailure(q);
    if Overtakes(q) {
      var m :| 0 <= m < |q.pending| && FailsOnce(q.net, m);
      assert m == k;
    } else if k < |q.pending| {
      assert !FailsOnce(q.net, k);
    }
  }

  /** An outage that ends between the flush and the new post: event 1 is delivered while event 0 still waits. */
  lemma OvertakingHappens()
    ensures var q := Queue([0], [], [], Net(Some(7), Some(7), true, [Unreachable, Answer(200, None)]));
            && Conserved(q, 1, 100) && InOrder(q) && Overtakes(q)
            && Publish(q, 1, 100).acked == [1] && Publish(q, 1, 100).pending == [0]
  {
    var net := Net(Some(7), Some(7), true, [Unreachable, Answer(200, None)]);
    var q := Queue([0], [], [], net);
    assert PostOutcome(net) == Posted(false, Sent(net));
    assert Published(1) == [0];
    assert Flush(q) == q.(net := Sent(net));
    OvertakesIff(q);
  }

  /** Nothing in the queue is as new as the event being published. */
  lemma NewerThanAll(q: Queue, n: nat, max: nat)
    requires Conserved(q, n, max) && InOrder(q)
    ensures Increasing(q.acked + q.pending + [n])
  {
    forall e <- q.acked + q.pending ensures e < n { InPlace(q, n, e); }
    IncreasingSnoc(q.acked + q.pending, n);
  }

  lemma FlushKeepsOrder(q: Queue)
    ensures Flush(q).acked + Flush(q).pending == q.acked + q.pending
  {
    var k := FlushSendsPrefix(q);
    assert q.pending == q.pending[..k] + q.pending[k..];
  }

  /** A call keeps what is acknowledged and pending in publish order exactly when it does not overtake. */
  lemma OrderIff(q: Queue, n: nat, max: nat)
    requires Conserved(q, n, max) && InOrder(q)
    ensures InOrder(Publish(q, n, max)) <==> !Overtakes(q)
  {
    OvertakesIff(q);
    var f, t := Flush(q), Publish(q, n, max);
    FlushKeepsOrder(q);
    FlushConserves(q, n, max);
    NewerThanAll(f, n, max);
    if !PostOutcome(f.net).ok {
      KeptOrder(f.acked, f.pending, n, max);
    } else if f.pending == [] {
      assert t.acked + t.pending == f.acked + f.pending + [n];
    } else {
      var ordered, all := f.acked + f.pending + [n], t.acked + t.pending;
      assert ordered[|f.acked|] == f.pending[0] && ordered[|f.acked| + |f.pending|] == n;
      assert all[|f.acked|] == n && all[|f.acked| + 1] == f.pending[0];
    }
  }

  lemma KeptOrder(acked: seq<nat>, pending: seq<nat>, n: nat, max: nat)
    requires Increasing(acked + pending + [n])
    ensures Increasing(acked + if |pending| + 1 <= max then pending + [n] else (pending + [n])[1..])
  {
    var all, longer := acked + pending + [n], pending + [n];
    assert all == acked + longer;
    var rest := longer[1..];
    forall i, j | 0 <= i < j < |acked + rest| ensures (acked + rest)[i] < (acked + rest)[j] {
      var i', j' := if i < |acked| then i else i + 1, if j < |acked| then j else j + 1;
      assert (acked + rest)[i] == all[i'] && (acked + rest)[j] == all[j'];
    }
  }

  /** When every post of a call gets through, the whole backlog goes out oldest first and then the new event. */
  lemma HealthyCallDrains(q: Queue, n: nat, max: nat)
    requires forall i :: 0 <= i <= |q.pending| ==> Delivers(q.net, i)
    ensures Publish(q, n, max)
         == Queue([], q.acked + q.pending + [n], q.dropped, Chain(q.net, |q.pending| + 1))
  {
    var k := PublishRule(q, n, max);
    assert k == |q.pending| && q.pending[..k] == q.pending;
  }

  /**
   So on a healthy network nothing waits any longer: a good reply each for the backlog and the new event is enough.
   */
  lemma HealthyNetworkDrains(q: Queue, n: nat, max: nat)
    requires q.net.token.Some? && |q.pending| < |q.net.replies|
    requires forall i :: 0 <= i <= |q.pending| ==> q.net.replies[i].Ok()
    ensures Publish(q, n, max)
         == Queue([], q.acked + q.pending + [n], q.dropped, q.net.(replies := q.net.replies[|q.pending| + 1..]))
  {
    GoodRepliesDeliver(q.net, |q.pending| + 1);
    HealthyCallDrains(q, n, max);
  }

  // ---- Runs ----

  /** Between publishes anything else may happen on the connection: heartbeats, re-registration, other replies. */
  function After(q: Queue, n: nat, nets: seq<Net>, max: nat): Queue
    decreases |nets|
  {
    if nets == [] then q else After(Publish(q.(net := nets[0]), n, max), n + 1, nets[1..], max)
  }

  predicate NeverOvertakes(q: Queue, n: nat, nets: seq<Net>, max: nat)
    decreases |nets|
  {
    nets == [] ||
    (!Overtakes(q.(net := nets[0])) && NeverOvertakes(Publish(q.(net := nets[0]), n, max), n + 1, nets[1..], max))
  }

  /**
   For every pattern of outcomes, each published event is acknowledged, pending or dropped, and never two of these.
   */
  lemma {:induction false} RunConserves(q: Queue, n: nat, nets: seq<Net>, max: nat)
    requires Conserved(q, n, max)
    ensures Conserved(After(q, n, nets, max), n + |nets|, max)
    ensures InOrder(q) && NeverOvertakes(q, n, nets, max) ==> InOrder(After(q, n, nets, max))
    decreases |nets|
  {
    if nets != [] {
      var r := q.(net := nets[0]);
      assert Conserved(r, n, max);
      PublishConserves(r, n, max);
      if InOrder(q) && !Overtakes(r) { OrderIff(r, n, max); }
      RunConserves(Publish(r, n, max), n + 1, nets[1..], max);
    }
  }

  lemma ExactlyOnePlace(net: Net, nets: seq<Net>, max: nat, e: nat)
    ensures var t := After(Queue([], [], [], net), 0, nets, max);
            multiset(t.acked)[e] + multiset(t.pending)[e] + multiset(t.dropped)[e] == if e < |nets| then 1 else 0
  {
    RunConserves(Queue([], [], [], net), 0, nets, max);
    PublishedOnce(|nets|, e);
  }

  // ---- The transport ----

  class HttpTransport {
    var pending: seq<nat>
    const queueMax: nat
    var token: Option<nat>
    /** The token file. */
    var stored: Option<nat>
    var descriptor: bool
    /** What the network will answer. */
    var replies: seq<Reply>
    ghost var acked: seq<nat>
    ghost var dropped: seq<nat>

    ghost function Connection(): Net
      reads this`token, this`stored, this`descriptor, this`replies
    {
      Net(token, stored, descriptor, replies)
    }

    ghost function View(): Queue
      reads this
    {
      Queue(pending, acked, dropped, Connection())
    }

    /** The token is the one on disk, if there is one. */
    constructor (queueMax: nat, stored: Option<nat>, replies: seq<Reply>)
      ensures View() == Queue([], [], [], Net(stored, stored, false, replies)) && this.queueMax == queueMax
    {
      this.queueMax, this.token, this.stored, this.replies, descriptor := queueMax, stored, stored, replies, false;
      pending, acked, dropped := [], [], [];
    }

    method Attempt() returns (reply: Reply)
      modifies this`replies
      ensures reply == NextReply(old(Connection())) && Connection() == Sent(old(Connection()))
    {
      if replies == [] { return Unreachable; }
      reply := replies[0];
      replies := replies[1..];
    }

    method Reenroll() returns (ok: bool)
      modifies this`replies, this`token, this`stored
      ensures Posted(ok, Connection()) == ReenrollOutcome(old(Connection()))
    {
      token, stored := None, None;
      if !descriptor { return false; }
      var reply := Attempt();
      if reply.Unreachable? || reply.code in {401, 403} || !reply.Ok() || reply.token.None? { return false; }
      token, stored := reply.token, reply.token;
      return true;
    }

    method Post() returns (ok: bool)
      modifies this`replies, this`token, this`stored
      ensures Posted(ok, Connection()) == PostOutcome(old(Connection()))
    {
      if token.None? {
        var enrolled := Reenroll();
        if !enrolled { return false; }
      }
      var reply := Attempt();
      if reply.Unreachable? { return false; }
      if reply.code in {401, 403, 404} {
        var enrolled := Reenroll();
        if !enrolled { return false; }
        reply := Attempt();
        if reply.Unreachable? { return false; }
      }
      if reply.code in {401, 403} { return false; }
      return reply.Ok();
    }

    method FlushPending()
      modifies this`pending, this`replies, this`token, this`stored, this`acked
      ensures View() == Flush(old(View()))
    {
      while pending != []
        invariant Flush(View()) == Flush(old(View()))
        decreases |pending|
      {
        var queued := pending[0];
        var ok := Post();
        if !ok { return; }
        pending := pending[1..];
        acked := acked + [queued];
      }
    }

    method Append(event: nat)
      modifies this`pending, this`dropped
      ensures View() == Enqueue(old(View()), event, queueMax)
    {
      pending := pending + [event];
      if |pending| > queueMax {
        dropped := dropped + [pending[0]];
        pending := pending[1..];
      }
    }

    /** False when the event could not be delivered and was buffered. */
    method PublishEvent(event: nat) returns (delivered: bool)
      modifies this`pending, this`replies, this`token, this`stored, this`acked, this`dropped
      ensures View() == Publish(old(View()), event, queueMax)
      ensures delivered ==> acked != [] && acked[|acked| - 1] == event
      ensures !delivered ==> acked == Flush(old(View())).acked
    {
      FlushPending();
      var ok := Post();
      if !ok {
        Append(event);
        return false;
      }
      acked := acked + [event];
      return true;
    }
  }
}
