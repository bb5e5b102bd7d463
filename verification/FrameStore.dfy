/**
 The in-memory frame store behind the live view: the newest frame per camera, single-use stream
 tickets, the viewer cap and the window that measures the achieved frame rate. Ghost fields hold the
 simple form each table stands for: every arrival ever, every ticket ever issued, every open stream.
 */
module FrameStore {
  import opened Options
  import opened Jpeg

  const FRAME_TTL_MS := 10_000
  const TICKET_TTL_MS := 30_000
  const MAX_VIEWERS_PER_CAMERA := 4
  const FPS_WINDOW_MS := 5_000
  const STREAM_IDLE_TIMEOUT_MS := 60_000

  datatype Frame = Frame(data: seq<byte>, receivedAt: int, size: Option<Size>, number: nat)
  datatype Ticket = Ticket(camera: string, expiresAt: int)

  // ---- The arrival window ----

  /** The arrivals within the measurement window before `now`. */
  function Recent(arrivals: seq<int>, now: int): seq<int> {
    if arrivals == [] then []
    else
      var last := arrivals[|arrivals| - 1];
      Recent(arrivals[..|arrivals| - 1], now) + if now - last > FPS_WINDOW_MS then [] else [last]
  }

  /** Every arrival of the last five seconds is kept, as often as it occurs, and no older one. */
  lemma {:induction false} RecentAre(arrivals: seq<int>, now: int, at: int)
    ensures multiset(Recent(arrivals, now))[at] == if now - at <= 5_000 then multiset(arrivals)[at] else 0
  {
    if arrivals != [] {
      RecentAre(arrivals[..|arrivals| - 1], now, at);
      assert arrivals == arrivals[..|arrivals| - 1] + [arrivals[|arrivals| - 1]];
    }
  }

  predicate Sorted(xs: seq<int>) { forall i, j :: 0 <= i <= j < |xs| ==> xs[i] <= xs[j] }

  /** `while (now - stamps[0] > FPS_WINDOW_MS) stamps.shift()`. */
  function DropOld(stamps: seq<int>, now: int): seq<int> {
    if stamps != [] && now - stamps[0] > FPS_WINDOW_MS then DropOld(stamps[1..], now) else stamps
  }

  lemma {:induction false} RecentKeepsAll(xs: seq<int>, now: int)
    requires forall i :: 0 <= i < |xs| ==> now - xs[i] <= FPS_WINDOW_MS
    ensures Recent(xs, now) == xs
  {
    if xs != [] {
      RecentKeepsAll(xs[..|xs| - 1], now);
      assert xs == xs[..|xs| - 1] + [xs[|xs| - 1]];
    }
  }

  lemma {:induction false} RecentDropsHead(xs: seq<int>, now: int)
    requires xs != [] && now - xs[0] > FPS_WINDOW_MS
    ensures Recent(xs, now) == Recent(xs[1..], now)
  {
    if |xs| == 1 {
      assert xs[..0] == [] && xs[1..] == [];
    } else {
      RecentDropsHead(xs[..|xs| - 1], now);
      assert xs[..|xs| - 1][1..] == xs[1..][..|xs[1..]| - 1];
    }
  }

  /** On sorted stamps, dropping from the front is filtering. */
  lemma {:induction false} DroppingIsFiltering(stamps: seq<int>, now: int)
    requires Sorted(stamps)
    ensures DropOld(stamps, now) == Recent(stamps, now)
    decreases |stamps|
  {
    if stamps != [] {
      if now - stamps[0] > FPS_WINDOW_MS {
        RecentDropsHead(stamps, now);
        DroppingIsFiltering(stamps[1..], now);
      } else {
        RecentKeepsAll(stamps, now);
      }
    }
  }

  /** Filtering at an earlier instant first loses nothing a later one would keep. */
  lemma {:induction false} FilterTwice(xs: seq<int>, earlier: int, now: int)
    requires earlier <= now
    ensures Recent(Recent(xs, earlier), now) == Recent(xs, now)
  {
    if xs != [] {
      var init, last := xs[..|xs| - 1], xs[|xs| - 1];
      FilterTwice(init, earlier, now);
      var kept := Recent(init, earlier);
      if earlier - last <= FPS_WINDOW_MS {
        var both := kept + [last];
        assert Recent(xs, earlier) == both;
        assert both[..|both| - 1] == kept && both[|both| - 1] == last;
        assert Recent(both, now) == Recent(kept, now) + if now - last > FPS_WINDOW_MS then [] else [last];
      } else {
        assert Recent(xs, earlier) == kept && Recent(xs, now) == Recent(init, now);
      }
    }
  }

  lemma {:induction false} RecentIsSorted(xs: seq<int>, now: int)
    requires Sorted(xs)
    ensures Sorted(Recent(xs, now))
    ensures forall i :: 0 <= i < |Recent(xs, now)| ==> Recent(xs, now)[i] in xs
  {
    if xs != [] { RecentIsSorted(xs[..|xs| - 1], now); }
  }

  lemma SortedSnoc(xs: seq<int>, x: int)
    requires Sorted(xs) && (xs != [] ==> xs[|xs| - 1] <= x)
    ensures Sorted(xs + [x])
  {
  }

  /** One arrival: pushing onto the kept stamps and dropping from the front keeps the full history filtered. */
  lemma WindowStep(arrivals: seq<int>, stamps: seq<int>, now: int)
    requires Sorted(arrivals) && (arrivals != [] ==> arrivals[|arrivals| - 1] <= now)
    requires stamps == if arrivals == [] then [] else Recent(arrivals, arrivals[|arrivals| - 1])
    ensures DropOld(stamps + [now], now) == Recent(arrivals + [now], now) && Sorted(arrivals + [now])
  {
    SortedSnoc(arrivals, now);
    assert (arrivals + [now])[..|arrivals|] == arrivals;
    if arrivals != [] {
      var last := arrivals[|arrivals| - 1];
      RecentIsSorted(arrivals, last);
      SortedSnoc(stamps, now);
      DroppingIsFiltering(stamps + [now], now);
      assert (stamps + [now])[..|stamps|] == stamps;
      FilterTwice(arrivals, last, now);
    } else {
      DroppingIsFiltering([now], now);
      assert [] + [now] == [now] && [now][..0] == [];
    }
  }

  // ---- Tickets ----

  /** The simple form of redeeming: one-time, unexpired, for this camera; nothing is ever swept. */
  predicate Redeems(issued: map<string, Ticket>, ticket: string, camera: string, now: int) {
    ticket in issued && issued[ticket].expiresAt >= now && issued[ticket].camera == camera
  }

  /** `Broken`: the head or a part could not be written. */
  datatype Status = Forbidden | TooManyRequests | Streamed | Broken

  datatype Output = Output(parts: seq<Frame>, broken: bool)

  /**
   One wake of a stream loop: whether the client is still there, what `next` gave, what `get` would give, and whether a
   write now throws.
   */
  datatype Wake = Wake(now: int, open: bool, next: Option<Frame>, last: Option<Frame>, fails: bool)

  predicate TicketsOk(tickets: map<string, Ticket>, now: int, unredeemed: map<string, Ticket>,
                      everIssued: set<string>, admitted: multiset<string>)
  {
    && (forall t <- tickets :: t in unredeemed && tickets[t] == unredeemed[t])
    && (forall t <- unredeemed :: t !in tickets ==> unredeemed[t].expiresAt < now)
    && unredeemed.Keys <= everIssued
    && (forall t <- admitted :: admitted[t] == 1 && t in everIssued && t !in unredeemed)
  }

  function Viewers(viewers: map<string, nat>, camera: string): nat { if camera in viewers then viewers[camera] else 0 }

  ghost predicate ViewersOk(viewers: map<string, nat>, streams: multiset<string>) {
    && (forall c {:trigger Viewers(viewers, c)} :: Viewers(viewers, c) == streams[c] <= MAX_VIEWERS_PER_CAMERA)
    && (forall c <- viewers :: viewers[c] > 0)
  }

  lemma SlotTaken(viewers: map<string, nat>, streams: multiset<string>, camera: string)
    requires ViewersOk(viewers, streams) && Viewers(viewers, camera) < MAX_VIEWERS_PER_CAMERA
    ensures ViewersOk(viewers[camera := Viewers(viewers, camera) + 1], streams + multiset{camera})
  {
    forall c
      ensures Viewers(viewers[camera := Viewers(viewers, camera) + 1], c)
          == (streams + multiset{camera})[c] <= MAX_VIEWERS_PER_CAMERA
    {
      assert Viewers(viewers, c) == streams[c];
    }
  }

  lemma SlotReturned(viewers: map<string, nat>, streams: multiset<string>, camera: string, after: map<string, nat>)
    requires ViewersOk(viewers, streams)
    requires after == if Viewers(viewers, camera) <= 1 then viewers - {camera}
        else viewers[camera := Viewers(viewers, camera) - 1]
    ensures ViewersOk(after, streams - multiset{camera})
  {
    forall c ensures Viewers(after, c) == (streams - multiset{camera})[c] <= MAX_VIEWERS_PER_CAMERA {
      assert Viewers(viewers, c) == streams[c];
    }
  }

  class Store {
    var frames: map<string, Frame>
    var tickets: map<string, Ticket>
    var recent: map<string, seq<int>>
    var viewers: map<string, nat>
    var sequence: nat
    /** `Date.now()`. */
    var now: int

    ghost var arrivals: map<string, seq<int>>
    ghost var unredeemed: map<string, Ticket>
    ghost var everIssued: set<string>
    ghost var admitted: multiset<string>
    ghost var streams: multiset<string>

    /** One slot per open stream, and no camera past the cap. */
    ghost predicate ViewersValid()
      reads this`viewers, this`streams
    {
      ViewersOk(viewers, streams)
    }

    /** Whatever has been swept had expired, and no ticket was ever honoured twice. */
    ghost predicate TicketsValid()
      reads this`tickets, this`now, this`unredeemed, this`everIssued, this`admitted
    {
      TicketsOk(tickets, now, unredeemed, everIssued, admitted)
    }

    /**
     The stamps of a camera are all its arrivals, filtered to the window before the newest; frames are numbered apart.
     */
    ghost predicate FramesValid()
      reads this`frames, this`recent, this`sequence, this`now, this`arrivals
    {
      FramesOk(frames, recent, sequence, now, arrivals)
    }

    ghost predicate Valid()
      reads this
    {
      ViewersValid() && TicketsValid() && FramesValid()
    }

    constructor (now: int)
      ensures Valid() && this.now == now && streams == multiset{} && everIssued == {} && arrivals == map[]
    {
      frames, tickets, recent, viewers, sequence, this.now := map[], map[], map[], map[], 0, now;
      arrivals, unredeemed, everIssued, admitted, streams := map[], map[], {}, multiset{}, multiset{};
    }

    /** Time passes. */
    method Wait(ms: nat)
      requires Valid()
      modifies this`now
      ensures Valid() && now == old(now) + ms
    {
      LaterKeepsFrames(frames, recent, sequence, now, arrivals, now + ms);
      now := now + ms;
    }

    // ---- Frames ----

    method Put(camera: string, data: seq<byte>)
      requires FramesValid()
      modifies this`frames, this`recent, this`sequence, this`arrivals
      ensures FramesValid()
      ensures frames == old(frames)[camera := Frame(data, now, SizeOf(data), old(sequence) + 1)]
      ensures arrivals == old(arrivals)[camera := arrivals[camera]]
      ensures arrivals[camera] == (if camera in old(arrivals) then old(arrivals)[camera] else []) + [now]
    {
      var size := ReadJpegSize(data);
      PutFrame(camera, Frame(data, now, size, sequence + 1));
    }

    /** The tables' part of a `put`. */
    method PutFrame(camera: string, frame: Frame)
      requires FramesValid() && frame.receivedAt == now && frame.number == sequence + 1
          && frame.size == SizeOf(frame.data)
      modifies this`frames, this`recent, this`sequence, this`arrivals
      ensures FramesValid()
      ensures frames == old(frames)[camera := frame] && arrivals == Arrived(old(arrivals), camera, now)
    {
      var kept := if camera in recent then recent[camera] else [];
      var stamps := Trim(kept + [now]);
      Arrival(frames, recent, sequence, now, arrivals, camera, frame, stamps);
      Record(camera, frame, stamps);
    }

    /** Writes what has been worked out. */
    method Record(camera: string, frame: Frame, stamps: seq<int>)
      requires FramesOk(frames[camera := frame], recent[camera := stamps], sequence + 1, now,
          Arrived(arrivals, camera, now))
      modifies this`frames, this`recent, this`sequence, this`arrivals
      ensures FramesValid()
      ensures frames == old(frames)[camera := frame] && arrivals == Arrived(old(arrivals), camera, now)
    {
      frames, recent, sequence := frames[camera := frame], recent[camera := stamps], sequence + 1;
      arrivals := Arrived(arrivals, camera, now);
    }

    /** Keeps only the stamps inside the measurement window. */
    method Trim(pushed: seq<int>) returns (stamps: seq<int>)
      ensures stamps == DropOld(pushed, now)
    {
      stamps := pushed;
      while |stamps| > 0 && now - stamps[0] > FPS_WINDOW_MS
        invariant DropOld(stamps, now) == DropOld(pushed, now)
        decreases |stamps|
      {
        stamps := stamps[1..];
      }
    }

    /** The newest frame, unless there is none or it is stale. */
    method Get(camera: string) returns (frame: Option<Frame>)
      ensures frame.Some? <==> camera in frames && now - frames[camera].receivedAt <= 10_000
      ensures frame.Some? ==> frame.value == frames[camera]
      ensures frame == First(camera)
    {
      if camera !in frames || now - frames[camera].receivedAt > FRAME_TTL_MS { return None; }
      return Some(frames[camera]);
    }

    // ---- Viewers ----

    function ViewerCount(camera: string): nat
      reads this`viewers
    {
      Viewers(viewers, camera)
    }

    method ClaimViewer(camera: string) returns (ok: bool)
      requires ViewersValid()
      modifies this`viewers, this`streams
      ensures ViewersValid()
      ensures ok <==> old(streams)[camera] < MAX_VIEWERS_PER_CAMERA
      ensures streams == if ok then old(streams) + multiset{camera} else old(streams)
    {
      var current := ViewerCount(camera);
      assert streams[camera] == current;
      if current >= MAX_VIEWERS_PER_CAMERA { return false; }
      SlotTaken(viewers, streams, camera);
      viewers := viewers[camera := current + 1];
      streams := streams + multiset{camera};
      return true;
    }

    method ReleaseViewer(camera: string)
      requires ViewersValid()
      modifies this`viewers, this`streams
      ensures ViewersValid() && streams == old(streams) - multiset{camera}
    {
      var current := ViewerCount(camera);
      assert streams[camera] == current;
      ghost var before := viewers;
      if current <= 1 {
        viewers := viewers - {camera};
      } else {
        viewers := viewers[camera := current - 1];
      }
      SlotReturned(before, streams, camera, viewers);
      streams := streams - multiset{camera};
    }

    // ---- Tickets ----

    /** `ticket` is freshly drawn: 24 random bytes. */
    method IssueTicket(camera: string, ticket: string)
      requires TicketsValid() && ticket !in everIssued
      modifies this`tickets, this`unredeemed, this`everIssued
      ensures TicketsValid()
      ensures unredeemed == old(unredeemed)[ticket := Ticket(camera, now + 30_000)]
      ensures everIssued == old(everIssued) + {ticket}
    {
      SweepTickets();
      tickets := tickets[ticket := Ticket(camera, now + TICKET_TTL_MS)];
      unredeemed := unredeemed[ticket := Ticket(camera, now + TICKET_TTL_MS)];
      everIssued := everIssued + {ticket};
    }

    /** The answer is that of the simple form, in which no ticket is ever swept. */
    method RedeemTicket(ticket: string, camera: string) returns (ok: bool)
      requires TicketsValid()
      modifies this`tickets, this`unredeemed, this`admitted
      ensures TicketsValid()
      ensures ok <==> Redeems(old(unredeemed), ticket, camera, now)
      ensures ok <==> ticket in old(unredeemed) && old(unredeemed)[ticket].camera == camera
                      && now <= old(unredeemed)[ticket].expiresAt
      ensures unredeemed == old(unredeemed) - {ticket}
      ensures admitted == if ok then old(admitted) + multiset{ticket} else old(admitted)
    {
      if ticket !in tickets {
        unredeemed := unredeemed - {ticket};
        return false;
      }
      var found := tickets[ticket];
      tickets := tickets - {ticket};
      unredeemed := unredeemed - {ticket};
      if found.expiresAt < now { return false; }
      ok := found.camera == camera;
      if ok { admitted := admitted + multiset{ticket}; }
    }

    method SweepTickets()
      requires TicketsValid()
      modifies this`tickets
      ensures TicketsValid()
      ensures forall t :: t in tickets <==> t in old(tickets) && old(tickets)[t].expiresAt >= now
    {
      var rest := tickets.Keys;
      while rest != {}
        invariant rest <= old(tickets).Keys && rest <= tickets.Keys
        invariant forall t :: t in tickets <==> t in old(tickets) && (t in rest || old(tickets)[t].expiresAt >= now)
        invariant forall t <- tickets :: tickets[t] == old(tickets)[t]
        invariant TicketsValid()
        decreases |rest|
      {
        var key :| key in rest;
        rest := rest - {key};
        if tickets[key].expiresAt < now { tickets := tickets - {key}; }
      }
    }

    // ---- Streams ----

    /** Redeem the ticket, then claim a slot. */
    method Admit(ticket: Option<string>, camera: string) returns (status: Status)
      requires TicketsValid() && ViewersValid()
      modifies this`tickets, this`unredeemed, this`admitted, this`viewers, this`streams
      ensures TicketsValid() && ViewersValid()
      ensures status != Broken
          && (status == Forbidden <==> ticket.None? || !Redeems(old(unredeemed), ticket.value, camera, now))
      ensures status != Forbidden ==> (status == TooManyRequests <==> old(streams)[camera] == MAX_VIEWERS_PER_CAMERA)
      ensures ticket.Some? ==> unredeemed == old(unredeemed) - {ticket.value}
      ensures streams == if status == Streamed then old(streams) + multiset{camera} else old(streams)
    {
      if ticket.None? { return Forbidden; }
      var redeemed := RedeemTicket(ticket.value, camera);
      if !redeemed { return Forbidden; }
      assert ViewerCount(camera) == streams[camera];
      var claimed := ClaimViewer(camera);
      if !claimed { return TooManyRequests; }
      return Streamed;
    }

    /**
     One viewer from request to end: redeem, claim a slot, send frames, and give the slot back whichever way the
     loop ends: the client leaves (the wakes run out, or say so), the camera has been silent too long, or a write
     throws. Only the response head is written before the slot is protected: if that throws, the slot is lost.
     */
    method Stream(ticket: Option<string>, camera: string, headFails: bool, firstFails: bool, wakes: seq<Wake>)
      returns (status: Status, parts: seq<Frame>)
      requires TicketsValid() && ViewersValid()
      modifies this`tickets, this`unredeemed, this`admitted, this`viewers, this`streams
      ensures TicketsValid() && ViewersValid()
      ensures status == Forbidden <==> ticket.None? || !Redeems(old(unredeemed), ticket.value, camera, now)
      ensures status != Forbidden ==> (status == TooManyRequests <==> old(streams)[camera] == MAX_VIEWERS_PER_CAMERA)
      ensures ticket.Some? ==> unredeemed == old(unredeemed) - {ticket.value}
      ensures streams == if status == Broken && headFails then old(streams) + multiset{camera} else old(streams)
      ensures status.Broken? || status.Streamed? ==>
          Output(parts, status.Broken?) == Expected(First(camera), headFails, firstFails, now, wakes)
    {
      status := Admit(ticket, camera);
      if status != Streamed { return status, []; }
      if headFails { return Broken, []; }
      var first := Get(camera);
      var broken;
      parts, broken := SendFrames(first, firstFails, now, wakes);
      ReleaseViewer(camera);
      AddThenRemove(old(streams), camera);
      status := if broken then Broken else Streamed;
    }

    /** What is written until the stream ends or a write throws. */
    method SendFrames(first: Option<Frame>, firstFails: bool, started: int, wakes: seq<Wake>)
      returns (parts: seq<Frame>, broken: bool)
      ensures Output(parts, broken) == AllParts(first, firstFails, started, wakes)
    {
      parts, broken := [], false;
      var lastSeq := 0;
      if first.Some? {
        if firstFails { return [], true; }
        parts, lastSeq := [first.value], first.value.number;
      }
      parts, broken := StreamLoop(parts, lastSeq, started, wakes);
    }

    method StreamLoop(sent: seq<Frame>, firstSeq: nat, started: int, wakes: seq<Wake>)
      returns (parts: seq<Frame>, broken: bool)
      ensures Output(parts, broken) == Parts(sent, firstSeq, started, wakes)
    {
      var lastSeq, silentSince := firstSeq, started;
      parts := sent;
      for i := 0 to |wakes|
        invariant Parts(sent, firstSeq, started, wakes) == Parts(parts, lastSeq, silentSince, wakes[i..])
      {
        var wake := wakes[i];
        assert wakes[i..][0] == wake && wakes[i..][1..] == wakes[i + 1..];
        if !wake.open { return parts, false; }
        if wake.next.Some? && wake.next.value.number != lastSeq {
          lastSeq, silentSince := wake.next.value.number, wake.now;
          if wake.fails { return parts, true; }
          parts := parts + [wake.next.value];
          continue;
        }
        if wake.last.Some? {
          if wake.fails { return parts, true; }
          parts := parts + [wake.last.value];
          continue;
        }
        if wake.now - silentSince > STREAM_IDLE_TIMEOUT_MS { return parts, false; }
      }
      broken := false;
    }

    /** The buffered frame a new viewer sees at once. */
    ghost function First(camera: string): Option<Frame>
      reads this`frames, this`now
    {
      if camera in frames && now - frames[camera].receivedAt <= FRAME_TTL_MS then Some(frames[camera]) else None
    }
  }

  /** The arrival history with one more arrival. */
  ghost function Arrived(arrivals: map<string, seq<int>>, camera: string, now: int): map<string, seq<int>> {
    arrivals[camera := (if camera in arrivals then arrivals[camera] else []) + [now]]
  }

  /**
   One camera: its frame is its newest arrival, and its stamps are all its arrivals filtered to the window before that.
   */
  predicate CameraOk(frame: Frame, stamps: seq<int>, history: seq<int>, sequence: nat, now: int) {
    && history != [] && Sorted(history) && frame.receivedAt == history[|history| - 1] <= now
    && stamps == Recent(history, frame.receivedAt)
    && frame.size == SizeOf(frame.data) && 0 < frame.number <= sequence
  }

  ghost predicate FramesOk(frames: map<string, Frame>, recent: map<string, seq<int>>, sequence: nat, now: int,
                           arrivals: map<string, seq<int>>)
  {
    && recent.Keys == arrivals.Keys == frames.Keys
    && (forall c {:trigger CameraOk(frames[c], recent[c], arrivals[c], sequence, now)} ::
          c in frames ==> CameraOk(frames[c], recent[c], arrivals[c], sequence, now))
    && (forall c <- frames, d <- frames :: frames[c].number == frames[d].number ==> c == d)
  }

  lemma PutKeepsFrames(frames: map<string, Frame>, recent: map<string, seq<int>>, sequence: nat, now: int,
                       arrivals: map<string, seq<int>>, camera: string, frame: Frame, stamps: seq<int>,
                           history: seq<int>)
    requires FramesOk(frames, recent, sequence, now, arrivals)
    requires frame.number == sequence + 1 && CameraOk(frame, stamps, history, sequence + 1, now)
    ensures FramesOk(frames[camera := frame], recent[camera := stamps], sequence + 1, now, arrivals[camera := history])
  {
    var fs, rs, hs := frames[camera := frame], recent[camera := stamps], arrivals[camera := history];
    forall c <- fs ensures CameraOk(fs[c], rs[c], hs[c], sequence + 1, now) {
      if c != camera { assert CameraOk(frames[c], recent[c], arrivals[c], sequence, now); }
    }
    forall c <- fs, d <- fs | fs[c].number == fs[d].number ensures c == d {
      if c != camera { assert CameraOk(frames[c], recent[c], arrivals[c], sequence, now); }
      if d != camera { assert CameraOk(frames[d], recent[d], arrivals[d], sequence, now); }
    }
  }

  /** One arrival on one camera, pushed and trimmed. */
  lemma Arrival(frames: map<string, Frame>, recent: map<string, seq<int>>, sequence: nat, now: int,
                arrivals: map<string, seq<int>>, camera: string, frame: Frame, stamps: seq<int>)
    requires FramesOk(frames, recent, sequence, now, arrivals)
    requires frame.number == sequence + 1 && frame.receivedAt == now && frame.size == SizeOf(frame.data)
    requires stamps == DropOld((if camera in recent then recent[camera] else []) + [now], now)
    ensures FramesOk(frames[camera := frame], recent[camera := stamps], sequence + 1, now,
        Arrived(arrivals, camera, now))
  {
    var kept := if camera in recent then recent[camera] else [];
    var before := if camera in arrivals then arrivals[camera] else [];
    assert camera in frames ==> CameraOk(frames[camera], kept, before, sequence, now);
    WindowStep(before, kept, now);
    assert CameraOk(frame, stamps, before + [now], sequence + 1, now);
    PutKeepsFrames(frames, recent, sequence, now, arrivals, camera, frame, stamps, before + [now]);
  }

  lemma LaterKeepsFrames(frames: map<string, Frame>, recent: map<string, seq<int>>, sequence: nat, now: int,
                         arrivals: map<string, seq<int>>, later: int)
    requires FramesOk(frames, recent, sequence, now, arrivals) && now <= later
    ensures FramesOk(frames, recent, sequence, later, arrivals)
  {
    forall c <- frames ensures CameraOk(frames[c], recent[c], arrivals[c], sequence, later) {
      assert CameraOk(frames[c], recent[c], arrivals[c], sequence, now);
    }
  }

  lemma AddThenRemove(m: multiset<string>, c: string)
    ensures m + multiset{c} - multiset{c} == m
  {
  }

  function AllParts(first: Option<Frame>, firstFails: bool, started: int, wakes: seq<Wake>): Output {
    match first
    case None => Parts([], 0, started, wakes)
    case Some(frame) => if firstFails then Output([], true) else Parts([frame], frame.number, started, wakes)
  }

  function Expected(first: Option<Frame>, headFails: bool, firstFails: bool, started: int, wakes: seq<Wake>): Output {
    if headFails then Output([], true) else AllParts(first, firstFails, started, wakes)
  }

  /** The parts written from a point of the loop on. */
  function Parts(parts: seq<Frame>, lastSeq: nat, silentSince: int, wakes: seq<Wake>): Output
    decreases |wakes|
  {
    if wakes == [] || !wakes[0].open then Output(parts, false)
    else
      var wake, rest := wakes[0], wakes[1..];
      if wake.next.Some? && wake.next.value.number != lastSeq then
        if wake.fails then Output(parts, true)
            else Parts(parts + [wake.next.value], wake.next.value.number, wake.now, rest)
      else if wake.last.Some? then
        if wake.fails then Output(parts, true) else Parts(parts + [wake.last.value], lastSeq, silentSince, rest)
      else if wake.now - silentSince > STREAM_IDLE_TIMEOUT_MS then Output(parts, false)
      else Parts(parts, lastSeq, silentSince, rest)
  }

  /**
   The loop outlives these wakes: the client stays, no write throws, and no stretch without a frame exceeds the idle
   timeout.
   */
  predicate KeptAlive(lastSeq: nat, silentSince: int, wakes: seq<Wake>)
    decreases |wakes|
  {
    wakes == [] ||
    (wakes[0].open && !wakes[0].fails &&
     if wakes[0].next.Some? && wakes[0].next.value.number != lastSeq
     then KeptAlive(wakes[0].next.value.number, wakes[0].now, wakes[1..])
     else (wakes[0].last.Some? || wakes[0].now - silentSince <= STREAM_IDLE_TIMEOUT_MS)
          && KeptAlive(lastSeq, silentSince, wakes[1..]))
  }

  lemma {:induction false} PartsOnlyGrow(parts: seq<Frame>, lastSeq: nat, silentSince: int, wakes: seq<Wake>)
    ensures forall f <- parts :: f in Parts(parts, lastSeq, silentSince, wakes).parts
    decreases |wakes|
  {
    if wakes != [] && wakes[0].open && !wakes[0].fails {
      var wake, rest := wakes[0], wakes[1..];
      if wake.next.Some? && wake.next.value.number != lastSeq {
        PartsOnlyGrow(parts + [wake.next.value], wake.next.value.number, wake.now, rest);
      } else if wake.last.Some? {
        PartsOnlyGrow(parts + [wake.last.value], lastSeq, silentSince, rest);
      } else {
        PartsOnlyGrow(parts, lastSeq, silentSince, rest);
      }
    } else if wakes != [] {
      PartsOnlyGrow(parts, lastSeq, silentSince, wakes[1..]);
    }
  }

  /** Every new frame a live stream is woken with is sent: frames are told apart by number, not by time. */
  lemma {:induction false} NewFramesAreSent(parts: seq<Frame>, lastSeq: nat, silentSince: int, wakes: seq<Wake>, i: nat)
    requires i < |wakes| && KeptAlive(lastSeq, silentSince, wakes[..i + 1]) && wakes[i].next.Some?
    requires wakes[i].next.value.number != lastSeq
    requires forall j :: 0 <= j < i && wakes[j].next.Some? ==> wakes[j].next.value.number != wakes[i].next.value.number
    ensures wakes[i].next.value in Parts(parts, lastSeq, silentSince, wakes).parts
    decreases |wakes|
  {
    var wake, rest := wakes[0], wakes[1..];
    var alive := wakes[..i + 1];
    assert alive[0] == wake && alive[1..] == rest[..i];
    if wake.next.Some? && wake.next.value.number != lastSeq {
      if i == 0 {
        PartsOnlyGrow(parts + [wake.next.value], wake.next.value.number, wake.now, rest);
      } else {
        NewFramesAreSent(parts + [wake.next.value], wake.next.value.number, wake.now, rest, i - 1);
      }
    } else if wake.last.Some? {
      NewFramesAreSent(parts + [wake.last.value], lastSeq, silentSince, rest, i - 1);
    } else {
      NewFramesAreSent(parts, lastSeq, silentSince, rest, i - 1);
    }
  }

  /** Nothing is sent that the camera did not deliver to this loop. */
  lemma {:induction false} OnlyWokenFramesAreSent(parts: seq<Frame>, lastSeq: nat, silentSince: int, wakes: seq<Wake>)
    ensures forall f <- Parts(parts, lastSeq, silentSince, wakes).parts ::
              f in parts || exists w <- wakes :: w.next == Some(f) || w.last == Some(f)
    decreases |wakes|
  {
    if wakes != [] && wakes[0].open {
      var wake, rest := wakes[0], wakes[1..];
      assert wake in wakes;
      if wake.next.Some? && wake.next.value.number != lastSeq {
        OnlyWokenFramesAreSent(parts + [wake.next.value], wake.next.value.number, wake.now, rest);
      } else if wake.last.Some? {
        OnlyWokenFramesAreSent(parts + [wake.last.value], lastSeq, silentSince, rest);
      } else {
        OnlyWokenFramesAreSent(parts, lastSeq, silentSince, rest);
      }
    }
  }

  /** Once a camera has been silent past the idle timeout the stream is over: nothing later is sent. */
  lemma {:induction false} IdleStreamCloses(parts: seq<Frame>, lastSeq: nat, silentSince: int, wakes: seq<Wake>, i: nat)
    requires i < |wakes| && wakes[i].now - silentSince > STREAM_IDLE_TIMEOUT_MS
    requires forall j :: 0 <= j <= i ==>
               wakes[j].last.None? && (wakes[j].next.Some? ==> wakes[j].next.value.number == lastSeq)
    ensures Parts(parts, lastSeq, silentSince, wakes) == Output(parts, false)
    decreases |wakes|
  {
    if i > 0 && wakes[0].open && wakes[0].now - silentSince <= STREAM_IDLE_TIMEOUT_MS {
      IdleStreamCloses(parts, lastSeq, silentSince, wakes[1..], i - 1);
    }
  }

  // ---- Part by part ----

  /** The number of the last frame that woke the loop. */
  function NumberAfter(lastSeq: nat, wakes: seq<Wake>): nat {
    if wakes == [] then lastSeq
    else
      var last := wakes[|wakes| - 1];
      if last.next.Some? then last.next.value.number else NumberAfter(lastSeq, wakes[..|wakes| - 1])
  }

  /** A frame that this loop has not been woken with last time. */
  predicate IsNew(lastSeq: nat, before: seq<Wake>, wake: Wake) {
    wake.next.Some? && wake.next.value.number != NumberAfter(lastSeq, before)
  }

  /** When the loop last had a new frame. */
  function SilentAfter(lastSeq: nat, started: int, wakes: seq<Wake>): int {
    if wakes == [] then started
    else
      var before, last := wakes[..|wakes| - 1], wakes[|wakes| - 1];
      if IsNew(lastSeq, before, last) then last.now else SilentAfter(lastSeq, started, before)
  }

  /** What a wake writes: its new frame, or else the buffered one again to keep the connection alive. */
  function Written(lastSeq: nat, before: seq<Wake>, wake: Wake): seq<Frame> {
    if IsNew(lastSeq, before, wake) then [wake.next.value]
    else if wake.last.Some? then [wake.last.value]
    else []
  }

  /** The loop goes on after this wake. */
  predicate GoesOn(lastSeq: nat, started: int, before: seq<Wake>, wake: Wake) {
    && wake.open
    && if Written(lastSeq, before, wake) != [] then !wake.fails
       else wake.now - SilentAfter(lastSeq, started, before) <= 60_000
  }

  predicate AllGoOn(lastSeq: nat, started: int, wakes: seq<Wake>) {
    forall i :: 0 <= i < |wakes| ==> GoesOn(lastSeq, started, wakes[..i], wakes[i])
  }

  function AllWritten(lastSeq: nat, wakes: seq<Wake>): seq<Frame> {
    if wakes == [] then []
    else
      var before, last := wakes[..|wakes| - 1], wakes[|wakes| - 1];
      AllWritten(lastSeq, before) + Written(lastSeq, before, last)
  }

  /** The loop after a first stretch of wakes it has outlived: what it has written, in order, and where it stands. */
  lemma {:induction false} PartsAfter(parts: seq<Frame>, lastSeq: nat, started: int, wakes: seq<Wake>, n: nat)
    requires n <= |wakes| && AllGoOn(lastSeq, started, wakes[..n])
    ensures Parts(parts, lastSeq, started, wakes)
         == Parts(parts + AllWritten(lastSeq, wakes[..n]), NumberAfter(lastSeq, wakes[..n]),
                  SilentAfter(lastSeq, started, wakes[..n]), wakes[n..])
    decreases n
  {
    if n == 0 {
      assert parts + AllWritten(lastSeq, wakes[..0]) == parts && wakes[0..] == wakes;
    } else {
      var before, all := wakes[..n - 1], wakes[..n];
      assert all[..n - 1] == before && all[n - 1] == wakes[n - 1];
      assert AllGoOn(lastSeq, started, before) by {
        forall i | 0 <= i < n - 1 ensures GoesOn(lastSeq, started, before[..i], before[i]) {
          assert before[..i] == all[..i] && before[i] == all[i];
        }
      }
      PartsAfter(parts, lastSeq, started, wakes, n - 1);
      assert GoesOn(lastSeq, started, all[..n - 1], all[n - 1]);
      assert wakes[n - 1..][0] == wakes[n - 1] && wakes[n - 1..][1..] == wakes[n..];
      OnePart(parts + AllWritten(lastSeq, before), lastSeq, started, before, wakes[n - 1], wakes[n - 1..]);
      assert parts + AllWritten(lastSeq, before) + Written(lastSeq, before, wakes[n - 1])
          == parts + AllWritten(lastSeq, all);
    }
  }

  lemma OnePart(parts: seq<Frame>, lastSeq: nat, started: int, before: seq<Wake>, wake: Wake, rest: seq<Wake>)
    requires rest != [] && rest[0] == wake && GoesOn(lastSeq, started, before, wake)
    ensures (before + [wake])[..|before|] == before
    ensures Parts(parts, NumberAfter(lastSeq, before), SilentAfter(lastSeq, started, before), rest)
         == Parts(parts + Written(lastSeq, before, wake), NumberAfter(lastSeq, before + [wake]),
                  SilentAfter(lastSeq, started, before + [wake]), rest[1..])
  {
    assert (before + [wake])[..|before|] == before;
    assert parts + [] == parts;
  }

  /**
   What a stream writes, part by part: for each wake in order its new frame, or else the buffered one again, up to the
   first wake that ends it; and the stream has failed exactly if there a part could not be written.
   */
  lemma PartsAre(parts: seq<Frame>, lastSeq: nat, started: int, wakes: seq<Wake>, n: nat)
    requires n <= |wakes| && AllGoOn(lastSeq, started, wakes[..n])
    requires n < |wakes| ==> !GoesOn(lastSeq, started, wakes[..n], wakes[n])
    ensures Parts(parts, lastSeq, started, wakes)
         == Output(parts + AllWritten(lastSeq, wakes[..n]),
                   n < |wakes| && wakes[n].open && Written(lastSeq, wakes[..n], wakes[n]) != [])
  {
    PartsAfter(parts, lastSeq, started, wakes, n);
    if n < |wakes| { assert wakes[n..][0] == wakes[n]; }
  }

  /** A new viewer sees the buffered frame at once, if there is a fresh one, and is not sent it again as new. */
  lemma FirstFrameIsFirst(first: Option<Frame>, headFails: bool, firstFails: bool, started: int, wakes: seq<Wake>)
    ensures var o := Expected(first, headFails, firstFails, started, wakes);
            if headFails || (first.Some? && firstFails) then o == Output([], true)
            else if first.Some? then o == Parts([first.value], first.value.number, started, wakes)
            else o == Parts([], 0, started, wakes)
  {
  }

  /** A ticket that has been swept could not have been redeemed any more: sweeping changes no answer. */
  lemma SweepingChangesNoAnswer(tickets: map<string, Ticket>, now: int, unredeemed: map<string, Ticket>,
                                everIssued: set<string>, admitted: multiset<string>, ticket: string, camera: string)
    requires TicketsOk(tickets, now, unredeemed, everIssued, admitted)
    ensures Redeems(tickets, ticket, camera, now) <==> Redeems(unredeemed, ticket, camera, now)
    ensures Redeems(unredeemed, ticket, camera, now) ==> ticket !in admitted
  {
    if ticket in unredeemed && ticket !in tickets { assert unredeemed[ticket].expiresAt < now; }
  }
}
