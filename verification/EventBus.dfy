/**
  The event bus of internal/nervous/bus.go: its Lamport clock and its subscribers.

  Publishing stamps an event with one atomic addition, takes the read lock, offers
  the event to each subscriber's channel and releases the lock.  Merging a remote
  stamp is a loop of a load and a compare-and-swap.  Unsubscribing takes the channel
  out under the write lock and closes it afterwards.  A run interleaves all these
  parts; several publishers may hold the read lock together.
  */
module EventBus {
  import opened Events
  import opened Strings
  import Collections

  const MAX_UINT64: nat := 0xFFFF_FFFF_FFFF_FFFF
  const DEFAULT_BUFFER: nat := 256

  type Uint64 = n: nat | n <= MAX_UINT64

  function Wrap(n: nat): nat { n % (MAX_UINT64 + 1) }

  // ----- The clock -----

  /** A merge under way; it has loaded the clock when it had issued `at` values. */
  datatype Merging = Starting(remote: nat) | Loaded(remote: nat, current: nat, at: nat)

  /** A finished merge: its result is value number `at` of those issued. */
  datatype Merged = Merged(remote: nat, result: nat, at: nat)

  datatype Clock = Clock(time: nat, issued: seq<nat>, merging: map<nat, Merging>, merged: seq<Merged>)

  const NEW_CLOCK: Clock := Clock(0, [], map[], [])

  function Next(current: nat, remote: nat): nat { Wrap((if current > remote then current else remote) + 1) }

  datatype Tick =
    | Add
    | Start(t: nat, remote: nat)
    | Load(t: nat)
    | Swap(t: nat)

  predicate TickEnabled(c: Clock, tick: Tick) {
    match tick
    case Add => true
    case Start(t, remote) => t !in c.merging && remote <= MAX_UINT64
    case Load(t) => t in c.merging && c.merging[t].Starting?
    case Swap(t) => t in c.merging && c.merging[t].Loaded?
  }

  function Ticked(c: Clock, tick: Tick): Clock
    requires TickEnabled(c, tick)
  {
    match tick
    case Add => c.(time := Wrap(c.time + 1), issued := c.issued + [Wrap(c.time + 1)])
    case Start(t, remote) => c.(merging := c.merging[t := Starting(remote)])
    case Load(t) => c.(merging := c.merging[t := Loaded(c.merging[t].remote, c.time, |c.issued|)])
    case Swap(t) =>
      var m := c.merging[t];
      if c.time != m.current then c.(merging := c.merging[t := Starting(m.remote)])
      else
        var next := Next(m.current, m.remote);
        c.(time := next, issued := c.issued + [next], merging := c.merging - {t},
           merged := c.merged + [Merged(m.remote, next, |c.issued|)])
  }

  predicate Increasing(s: seq<nat>) { forall i, j :: 0 <= i < j < |s| ==> s[i] < s[j] }

  /** The time after n values were issued. */
  function TimeAt(issued: seq<nat>, n: nat): nat
    requires n <= |issued|
  {
    if n == 0 then 0 else issued[n - 1]
  }

  predicate ClockInv(c: Clock) {
    && Increasing(c.issued) && (c.issued != [] ==> c.issued[0] > 0)
    && c.time == TimeAt(c.issued, |c.issued|)
    && (forall t :: t in c.merging && c.merging[t].Loaded? ==>
         c.merging[t].at <= |c.issued| && c.merging[t].current == TimeAt(c.issued, c.merging[t].at))
    && (forall k :: 0 <= k < |c.merged| ==>
         var m := c.merged[k]; m.at < |c.issued| && c.issued[m.at] == m.result && IsMerge(m, TimeAt(c.issued, m.at)))
  }

  /** The result is one more than the greater of both clocks. */
  predicate IsMerge(m: Merged, time: nat) { m.result == (if time > m.remote then time else m.remote) + 1 }

  /** The clock and the remote stamps under way are at most `top`. */
  predicate Below(c: Clock, top: nat) {
    c.time <= top && forall t :: t in c.merging ==> c.merging[t].remote <= top
  }

  predicate RemoteBelow(tick: Tick, top: nat) { tick.Start? ==> tick.remote <= top }

  lemma IssueKeepsInv(c: Clock, next: nat)
    requires ClockInv(c) && next > c.time
    ensures ClockInv(c.(time := next, issued := c.issued + [next]))
  {
    var issued := c.issued + [next];
    forall i, j | 0 <= i < j < |issued|
      ensures issued[i] < issued[j]
    {
      if j == |c.issued| && i < j - 1 {
        assert c.issued[i] < c.issued[j - 1];
      }
    }
  }

  lemma SwapKeepsInv(c: Clock, t: nat, top: nat)
    requires ClockInv(c) && Below(c, top) && top < MAX_UINT64
    requires t in c.merging && c.merging[t].Loaded? && c.time == c.merging[t].current
    ensures ClockInv(Ticked(c, Swap(t))) && Below(Ticked(c, Swap(t)), top + 1)
  {
    var m := c.merging[t];
    var next := Next(c.time, m.remote);
    assert next > c.time && next > m.remote && next <= top + 1;
    IssueKeepsInv(c, next);
    hide Increasing, Next, Below;
    MergedIsIssued(c.(time := next, issued := c.issued + [next]), Merged(m.remote, next, |c.issued|), t);
  }

  /** A merge that is done leaves the list of those under way. */
  lemma MergedIsIssued(c: Clock, m: Merged, t: nat)
    requires ClockInv(c) && m.at < |c.issued| && c.issued[m.at] == m.result && IsMerge(m, TimeAt(c.issued, m.at))
    ensures ClockInv(c.(merging := c.merging - {t}, merged := c.merged + [m]))
  {
    hide Increasing, TimeAt;
  }

  lemma TickKeepsInv(c: Clock, tick: Tick, top: nat)
    requires ClockInv(c) && TickEnabled(c, tick) && Below(c, top) && RemoteBelow(tick, top) && top < MAX_UINT64
    ensures ClockInv(Ticked(c, tick)) && Below(Ticked(c, tick), top + 1)
  {
    match tick
    case Add => IssueKeepsInv(c, c.time + 1);
    case Start(t, remote) =>
    case Load(t) =>
    case Swap(t) =>
      if c.time == c.merging[t].current {
        SwapKeepsInv(c, t, top);
      }
  }

  lemma OlderIsSmaller(c: Clock, n: nat)
    requires ClockInv(c) && n < |c.issued|
    ensures TimeAt(c.issued, n) < c.time
  {
    if n > 0 {
      assert c.issued[n - 1] < c.issued[|c.issued| - 1];
    }
  }

  /**
    A swap fails exactly when another value was issued since its load: there is no ABA,
    and someone always makes progress.
    */
  lemma SwapFailsIff(c: Clock, t: nat)
    requires ClockInv(c) && TickEnabled(c, Swap(t))
    ensures t in Ticked(c, Swap(t)).merging <==> c.merging[t].at < |c.issued|
  {
    if c.merging[t].at < |c.issued| {
      OlderIsSmaller(c, c.merging[t].at);
    }
  }

  /** A merge of these two values yields a greater one exactly when it does not overflow. */
  lemma MergeIsAboveIff(current: nat, remote: nat)
    requires current <= MAX_UINT64 && remote <= MAX_UINT64
    ensures Next(current, remote) > remote && Next(current, remote) > current
            <==> current < MAX_UINT64 && remote < MAX_UINT64
  {
  }

  lemma NextIsOneMore(current: nat, remote: nat)
    requires current <= MAX_UINT64 && remote <= MAX_UINT64
    ensures var greatest := if current > remote then current else remote;
            Next(current, remote) == if greatest < MAX_UINT64 then greatest + 1 else 0
  {
  }

  // ----- Channels -----

  datatype Stage = Stamped | Delivering | Finished

  /** A call of Publish: the channels subscribed when it took the lock, and those that its event was offered to. */
  datatype Publisher = Publisher(event: Event, stage: Stage, audience: set<nat>, offered: set<nat>)

  /**
    A subscriber's channel: what waits in it and what was read from it, and the
    publishers whose events it accepted, in order, and dropped, with the number of
    events that were waiting then.
    */
  datatype Channel = Channel(filter: Event -> bool, queue: seq<Event>, received: seq<Event>, accepted: seq<nat>,
                             dropped: map<nat, nat>, closed: bool)

  /** `closing` are the channels taken out and not yet closed, `replaced` those that a new one took the ID of. */
  datatype State = State(
    bufferSize: nat,
    publishers: seq<Publisher>,
    subscribers: map<string, nat>,
    channels: seq<Channel>,
    closing: set<nat>,
    replaced: set<nat>,
    panicked: bool)

  function Init(bufferSize: int): State {
    State(if bufferSize <= 0 then DEFAULT_BUFFER else bufferSize, [], map[], [], {}, {}, false)
  }

  predicate Locked(s: State) { exists p :: 0 <= p < |s.publishers| && s.publishers[p].stage == Delivering }

  /** The non-blocking send of an event: it is dropped when the buffer is full. */
  function Offered(ch: Channel, bufferSize: nat, p: nat, event: Event): Channel {
    if !ch.filter(event) then ch
    else if |ch.queue| < bufferSize then ch.(queue := ch.queue + [event], accepted := ch.accepted + [p])
    else ch.(dropped := ch.dropped[p := |ch.queue|])
  }

  datatype Step =
    | Publish(event: Event)
    | Begin(p: nat)
    | Offer(p: nat, h: nat)
    | End(p: nat)
    | Subscribe(id: string, filter: Event -> bool)
    | Unsubscribe(id: string)
    | Close(h: nat)
    | Receive(h: nat)
    | Shutdown

  ghost predicate Enabled(s: State, step: Step) {
    match step
    case Publish(_) => true
    case Begin(p) => p < |s.publishers| && s.publishers[p].stage == Stamped
    case Offer(p, h) => p < |s.publishers| && s.publishers[p].stage == Delivering
      && h in s.publishers[p].audience - s.publishers[p].offered
      && h < |s.channels|
    case End(p) => p < |s.publishers| && s.publishers[p].stage == Delivering
      && s.publishers[p].audience == s.publishers[p].offered
    case Subscribe(_, _) => !Locked(s)
    case Unsubscribe(_) => !Locked(s)
    case Close(h) => h in s.closing && h < |s.channels|
    case Receive(h) => h < |s.channels| && s.channels[h].queue != []
    case Shutdown => !Locked(s)
  }

  ghost function AfterPublish(s: State, event: Event): State {
    s.(publishers := s.publishers + [Publisher(event, Stamped, {}, {})])
  }

  ghost function AfterBegin(s: State, p: nat): State
    requires p < |s.publishers|
  {
    s.(publishers := s.publishers[p := s.publishers[p].(stage := Delivering, audience := s.subscribers.Values)])
  }

  ghost function AfterOffer(s: State, p: nat, h: nat): State
    requires p < |s.publishers| && h < |s.channels|
  {
    var pub := s.publishers[p];
    if s.channels[h].filter(pub.event) && s.channels[h].closed then s.(panicked := true)
    else
      s.(channels := s.channels[h := Offered(s.channels[h], s.bufferSize, p, pub.event)],
         publishers := s.publishers[p := pub.(offered := pub.offered + {h})])
  }

  ghost function AfterEnd(s: State, p: nat): State
    requires p < |s.publishers|
  {
    s.(publishers := s.publishers[p := s.publishers[p].(stage := Finished)])
  }

  ghost function AfterSubscribe(s: State, id: string, filter: Event -> bool): State {
    s.(subscribers := s.subscribers[id := |s.channels|],
       channels := s.channels + [Channel(filter, [], [], [], map[], false)],
       replaced := if id in s.subscribers then s.replaced + {s.subscribers[id]} else s.replaced)
  }

  ghost function AfterUnsubscribe(s: State, id: string): State {
    if id in s.subscribers then
      s.(subscribers := s.subscribers - {id}, closing := s.closing + {s.subscribers[id]})
    else s
  }

  ghost function AfterClose(s: State, h: nat): State
    requires h < |s.channels|
  {
    if s.channels[h].closed then s.(panicked := true)
    else s.(channels := s.channels[h := s.channels[h].(closed := true)], closing := s.closing - {h})
  }

  ghost function AfterReceive(s: State, h: nat): State
    requires h < |s.channels| && s.channels[h].queue != []
  {
    var ch := s.channels[h];
    s.(channels := s.channels[h := ch.(queue := ch.queue[1..], received := ch.received + [ch.queue[0]])])
  }

  /** The end of Run: every subscribed channel is closed and taken out while the lock is held. */
  ghost function AfterShutdown(s: State): State {
    var closed := seq(|s.channels|, h requires 0 <= h < |s.channels| =>
                        if h in s.subscribers.Values then s.channels[h].(closed := true) else s.channels[h]);
    s.(subscribers := map[], channels := closed,
       panicked := s.panicked || exists h :: 0 <= h < |s.channels| && h in s.subscribers.Values && s.channels[h].closed)
  }

  ghost function Apply(s: State, step: Step): State
    requires Enabled(s, step)
  {
    match step
    case Publish(event) => AfterPublish(s, event)
    case Begin(p) => AfterBegin(s, p)
    case Offer(p, h) => AfterOffer(s, p, h)
    case End(p) => AfterEnd(s, p)
    case Subscribe(id, filter) => AfterSubscribe(s, id, filter)
    case Unsubscribe(id) => AfterUnsubscribe(s, id)
    case Close(h) => AfterClose(s, h)
    case Receive(h) => AfterReceive(s, h)
    case Shutdown => AfterShutdown(s)
  }

  // ----- The invariant -----

  /** Who has its event where: accepted or dropped by exactly the channels that were offered it and want it, once. */
  ghost predicate Accounted(ch: Channel, h: nat, publishers: seq<Publisher>) {
    && (forall i :: 0 <= i < |ch.accepted| ==> ch.accepted[i] < |publishers|)
    && (forall p :: p in ch.dropped ==> p < |publishers|)
    && (forall i, j :: 0 <= i < j < |ch.accepted| ==> ch.accepted[i] != ch.accepted[j])
    && (forall p :: p in ch.dropped ==> p !in ch.accepted)
    && (forall p :: 0 <= p < |publishers| ==>
         (p in ch.accepted || p in ch.dropped <==> h in publishers[p].offered && ch.filter(publishers[p].event)))
  }

  /** The buffer is bounded, what was dropped found it full, and reading it out gives the accepted events in order. */
  ghost predicate Queued(ch: Channel, bufferSize: nat, publishers: seq<Publisher>) {
    && |ch.queue| <= bufferSize
    && (forall p :: p in ch.dropped ==> ch.dropped[p] == bufferSize)
    && |ch.received| + |ch.queue| == |ch.accepted|
    && (forall i :: 0 <= i < |ch.accepted| ==>
         (ch.accepted[i] < |publishers| && (ch.received + ch.queue)[i] == publishers[ch.accepted[i]].event))
  }

  /**
    A channel is open exactly when it is subscribed, about to be closed or replaced; no
    channel is listed twice.
    */
  ghost predicate Registered(subscribers: map<string, nat>, channels: seq<Channel>, closing: set<nat>,
                             replaced: set<nat>) {
    && (forall id :: id in subscribers ==>
         subscribers[id] < |channels| && !channels[subscribers[id]].closed
         && subscribers[id] !in closing && subscribers[id] !in replaced)
    && (forall id, id' :: id in subscribers && id' in subscribers && id != id' ==> subscribers[id] != subscribers[id'])
    && (forall h :: h in closing ==> h < |channels| && !channels[h].closed && h !in replaced)
    && (forall h :: h in replaced ==> h < |channels| && !channels[h].closed)
    && (forall h :: 0 <= h < |channels| && !channels[h].closed ==>
         h in subscribers.Values || h in closing || h in replaced)
  }

  /** Whoever holds the read lock has only subscribed channels ahead of it. */
  ghost predicate Ahead(publishers: seq<Publisher>, subscribers: map<string, nat>, handles: nat) {
    forall p :: 0 <= p < |publishers| ==>
      && publishers[p].offered <= publishers[p].audience
      && (publishers[p].stage == Stamped ==> publishers[p].audience == {})
      && (publishers[p].stage == Delivering ==> publishers[p].audience == subscribers.Values)
      && (publishers[p].stage == Finished ==> publishers[p].audience == publishers[p].offered)
      && forall h :: h in publishers[p].audience ==> h < handles
  }

  ghost predicate Inv(s: State) {
    && (forall h :: 0 <= h < |s.channels| ==>
         Accounted(s.channels[h], h, s.publishers) && Queued(s.channels[h], s.bufferSize, s.publishers))
    && Registered(s.subscribers, s.channels, s.closing, s.replaced)
    && Ahead(s.publishers, s.subscribers, |s.channels|)
    && !s.panicked
  }

  // Publishers.

  lemma PublishKeepsInv(s: State, event: Event)
    requires Inv(s)
    ensures Inv(AfterPublish(s, event))
  {
    hide Registered;
    forall h | 0 <= h < |s.channels|
      ensures Accounted(s.channels[h], h, AfterPublish(s, event).publishers)
      ensures Queued(s.channels[h], s.bufferSize, AfterPublish(s, event).publishers)
    {
    }
  }

  /** Only the event and the channels offered to matter to a channel's account. */
  lemma StageDoesNotMatter(ch: Channel, h: nat, bufferSize: nat, publishers: seq<Publisher>, p: nat, pub: Publisher)
    requires Accounted(ch, h, publishers) && Queued(ch, bufferSize, publishers)
    requires p < |publishers| && pub.event == publishers[p].event
    requires h in pub.offered <==> h in publishers[p].offered
    ensures Accounted(ch, h, publishers[p := pub]) && Queued(ch, bufferSize, publishers[p := pub])
  {
  }

  lemma EventsMatter(ch: Channel, bufferSize: nat, publishers: seq<Publisher>, p: nat, pub: Publisher)
    requires Queued(ch, bufferSize, publishers)
    requires p < |publishers| && pub.event == publishers[p].event
    ensures Queued(ch, bufferSize, publishers[p := pub])
  {
  }

  lemma BeginKeepsInv(s: State, p: nat)
    requires Inv(s) && p < |s.publishers| && s.publishers[p].stage == Stamped
    ensures Inv(AfterBegin(s, p))
  {
    assert forall h :: h in s.subscribers.Values ==> h < |s.channels|;
    hide Registered, Accounted, Queued;
    forall h | 0 <= h < |s.channels|
      ensures Accounted(s.channels[h], h, AfterBegin(s, p).publishers)
      ensures Queued(s.channels[h], s.bufferSize, AfterBegin(s, p).publishers)
    {
      StageDoesNotMatter(s.channels[h], h, s.bufferSize, s.publishers, p, AfterBegin(s, p).publishers[p]);
    }
  }

  lemma EndKeepsInv(s: State, p: nat)
    requires Inv(s) && p < |s.publishers| && s.publishers[p].stage == Delivering
             && s.publishers[p].audience == s.publishers[p].offered
    ensures Inv(AfterEnd(s, p))
  {
    hide Registered, Accounted, Queued;
    forall h | 0 <= h < |s.channels|
      ensures Accounted(s.channels[h], h, AfterEnd(s, p).publishers)
      ensures Queued(s.channels[h], s.bufferSize, AfterEnd(s, p).publishers)
    {
      StageDoesNotMatter(s.channels[h], h, s.bufferSize, s.publishers, p, AfterEnd(s, p).publishers[p]);
    }
  }

  lemma OfferIsQueued(ch: Channel, bufferSize: nat, publishers: seq<Publisher>, p: nat)
    requires Queued(ch, bufferSize, publishers) && p < |publishers|
    ensures Queued(Offered(ch, bufferSize, p, publishers[p].event), bufferSize, publishers)
  {
    assert forall e: Event :: ch.received + (ch.queue + [e]) == ch.received + ch.queue + [e];
  }

  lemma OfferIsAccounted(ch: Channel, h: nat, bufferSize: nat, publishers: seq<Publisher>, p: nat)
    requires Accounted(ch, h, publishers) && p < |publishers| && h !in publishers[p].offered
    ensures Accounted(Offered(ch, bufferSize, p, publishers[p].event), h,
                      publishers[p := publishers[p].(offered := publishers[p].offered + {h})])
  {
    var ch' := Offered(ch, bufferSize, p, publishers[p].event);
    var publishers' := publishers[p := publishers[p].(offered := publishers[p].offered + {h})];
    assert p !in ch.accepted && p !in ch.dropped;
    OfferAccepts(ch, bufferSize, p, publishers[p].event);
    hide Offered;
    forall q | 0 <= q < |publishers'|
      ensures q in ch'.accepted || q in ch'.dropped <==> h in publishers'[q].offered && ch'.filter(publishers'[q].event)
    {
      if q != p {
        assert publishers'[q] == publishers[q];
      }
    }
  }

  lemma OfferAccepts(ch: Channel, bufferSize: nat, p: nat, event: Event)
    ensures var ch' := Offered(ch, bufferSize, p, event);
            && ch'.filter == ch.filter
            && (ch'.accepted == ch.accepted || ch'.accepted == ch.accepted + [p])
            && (forall q :: q in ch'.accepted || q in ch'.dropped <==>
                 q in ch.accepted || q in ch.dropped || (q == p && ch.filter(event)))
            && (forall q :: q in ch'.dropped ==> q in ch.dropped || (q == p && ch'.accepted == ch.accepted))
            && (forall q :: q in ch.dropped ==> q in ch'.dropped)
            && (p in ch'.accepted && p !in ch.accepted ==> ch'.dropped == ch.dropped)
  {
  }

  lemma OfferKeepsInv(s: State, p: nat, h: nat)
    requires Inv(s) && p < |s.publishers| && s.publishers[p].stage == Delivering && h < |s.channels|
    requires h in s.publishers[p].audience - s.publishers[p].offered
    ensures Inv(AfterOffer(s, p, h))
    // The channel is open.
    ensures !s.channels[h].closed
  {
    AheadIsOpen(s, p, h);
    var s' := AfterOffer(s, p, h);
    OfferAhead(s.publishers, s.subscribers, |s.channels|, p, h);
    OfferRegistered(s.subscribers, s.channels, s.closing, s.replaced, h, s'.channels[h]);
    hide Registered, Accounted, Queued, Ahead;
    forall k | 0 <= k < |s.channels|
      ensures Accounted(s'.channels[k], k, s'.publishers)
      ensures Queued(s'.channels[k], s.bufferSize, s'.publishers)
    {
      if k == h {
        OfferIsAccounted(s.channels[h], h, s.bufferSize, s.publishers, p);
        OfferIsQueued(s.channels[h], s.bufferSize, s.publishers, p);
        EventsMatter(s'.channels[h], s.bufferSize, s.publishers, p, s'.publishers[p]);
      } else {
        StageDoesNotMatter(s.channels[k], k, s.bufferSize, s.publishers, p, s'.publishers[p]);
      }
    }
  }

  lemma AheadIsOpen(s: State, p: nat, h: nat)
    requires Inv(s) && p < |s.publishers| && s.publishers[p].stage == Delivering && h < |s.channels|
    requires h in s.publishers[p].audience
    ensures !s.channels[h].closed
  {
    assert h in s.subscribers.Values;
  }

  lemma OfferAhead(publishers: seq<Publisher>, subscribers: map<string, nat>, handles: nat, p: nat, h: nat)
    requires Ahead(publishers, subscribers, handles) && p < |publishers| && publishers[p].stage == Delivering
    requires h in publishers[p].audience
    ensures Ahead(publishers[p := publishers[p].(offered := publishers[p].offered + {h})],
                  subscribers, handles)
  {
  }

  lemma OfferRegistered(subscribers: map<string, nat>, channels: seq<Channel>, closing: set<nat>, replaced: set<nat>,
                        h: nat, ch: Channel)
    requires Registered(subscribers, channels, closing, replaced) && h < |channels| && ch.closed == channels[h].closed
    ensures Registered(subscribers, channels[h := ch], closing, replaced)
  {
  }

  // Subscribers.

  lemma NewChannelFits(publishers: seq<Publisher>, subscribers: map<string, nat>, handles: nat, bufferSize: nat,
                       filter: Event -> bool)
    requires Ahead(publishers, subscribers, handles)
    ensures var ch := Channel(filter, [], [], [], map[], false);
            Accounted(ch, handles, publishers) && Queued(ch, bufferSize, publishers)
  {
  }

  /** While no lock is held, whom a publication concerns does not depend on the subscribers. */
  lemma AheadOfAny(s: State, subscribers: map<string, nat>, handles: nat)
    requires Ahead(s.publishers, s.subscribers, |s.channels|) && !Locked(s) && |s.channels| <= handles
    ensures Ahead(s.publishers, subscribers, handles)
  {
  }

  lemma SubscriptionIsRegistered(subscribers: map<string, nat>, channels: seq<Channel>, closing: set<nat>,
                                 replaced: set<nat>, id: string, ch: Channel)
    requires Registered(subscribers, channels, closing, replaced) && !ch.closed
    ensures Registered(subscribers[id := |channels|], channels + [ch], closing,
                       if id in subscribers then replaced + {subscribers[id]} else replaced)
  {
    var subscribers', channels' := subscribers[id := |channels|], channels + [ch];
    forall h | 0 <= h < |channels'| && !channels'[h].closed && h !in closing && h !in replaced
               && (id in subscribers ==> h != subscribers[id])
      ensures h in subscribers'.Values
    {
      if h == |channels| {
        assert subscribers'[id] == h;
      } else {
        assert channels'[h] == channels[h];
        var i :| i in subscribers && subscribers[i] == h;
        assert subscribers'[i] == h;
      }
    }
  }

  lemma SubscribeKeepsInv(s: State, id: string, filter: Event -> bool)
    requires Inv(s) && !Locked(s)
    ensures Inv(AfterSubscribe(s, id, filter))
  {
    hide Accounted, Queued, Ahead, Locked, Registered;
    var ch := Channel(filter, [], [], [], map[], false);
    NewChannelFits(s.publishers, s.subscribers, |s.channels|, s.bufferSize, filter);
    SubscriptionIsRegistered(s.subscribers, s.channels, s.closing, s.replaced, id, ch);
    AheadOfAny(s, s.subscribers[id := |s.channels|], |s.channels| + 1);
    forall h | 0 <= h < |s.channels| + 1
      ensures Accounted((s.channels + [ch])[h], h, s.publishers)
      ensures Queued((s.channels + [ch])[h], s.bufferSize, s.publishers)
    {
    }
  }

  lemma UnsubscriptionIsRegistered(subscribers: map<string, nat>, channels: seq<Channel>, closing: set<nat>,
                                   replaced: set<nat>, id: string)
    requires Registered(subscribers, channels, closing, replaced) && id in subscribers
    ensures Registered(subscribers - {id}, channels, closing + {subscribers[id]}, replaced)
  {
    forall h | h in subscribers.Values && h != subscribers[id]
      ensures h in (subscribers - {id}).Values
    {
      var i :| i in subscribers && subscribers[i] == h;
      assert (subscribers - {id})[i] == h;
    }
  }

  lemma UnsubscribeKeepsInv(s: State, id: string)
    requires Inv(s) && !Locked(s)
    ensures Inv(AfterUnsubscribe(s, id))
  {
    hide Accounted, Queued, Ahead, Locked;
    if id in s.subscribers {
      AheadOfAny(s, AfterUnsubscribe(s, id).subscribers, |s.channels|);
      UnsubscriptionIsRegistered(s.subscribers, s.channels, s.closing, s.replaced, id);
    }
    hide Registered;
  }

  lemma CloseKeepsInv(s: State, h: nat)
    requires Inv(s) && h in s.closing && h < |s.channels|
    ensures Inv(AfterClose(s, h))
    ensures !s.channels[h].closed
  {
    ClosedIsAccounted(s.channels[h], h, s.bufferSize, s.publishers);
    hide Accounted, Queued, Ahead;
  }

  lemma ClosedIsAccounted(ch: Channel, h: nat, bufferSize: nat, publishers: seq<Publisher>)
    requires Accounted(ch, h, publishers) && Queued(ch, bufferSize, publishers)
    ensures Accounted(ch.(closed := true), h, publishers) && Queued(ch.(closed := true), bufferSize, publishers)
  {
  }

  lemma ReceiveKeepsInv(s: State, h: nat)
    requires Inv(s) && h < |s.channels| && s.channels[h].queue != []
    ensures Inv(AfterReceive(s, h))
  {
    var ch, ch' := s.channels[h], AfterReceive(s, h).channels[h];
    OfferRegistered(s.subscribers, s.channels, s.closing, s.replaced, h, ch');
    hide Registered, Ahead;
    assert Queued(ch', s.bufferSize, s.publishers) by {
      assert ch'.received + ch'.queue == ch.received + ch.queue;
    }
    hide Queued;
    assert Accounted(ch', h, s.publishers);
    hide Accounted;
  }

  lemma ShutdownKeepsInv(s: State)
    requires Inv(s) && !Locked(s)
    ensures Inv(AfterShutdown(s))
  {
    var s' := AfterShutdown(s);
    forall h | 0 <= h < |s.channels|
      ensures Accounted(s'.channels[h], h, s.publishers) && Queued(s'.channels[h], s.bufferSize, s.publishers)
    {
      ClosedIsAccounted(s.channels[h], h, s.bufferSize, s.publishers);
      hide Accounted, Queued;
    }
    hide Accounted, Queued;
  }

  lemma StepKeepsInv(s: State, step: Step)
    requires Inv(s) && Enabled(s, step)
    ensures Inv(Apply(s, step))
  {
    hide Inv, AfterPublish, AfterBegin, AfterOffer, AfterEnd, AfterSubscribe, AfterUnsubscribe, AfterClose,
         AfterReceive,
         AfterShutdown;
    match step
    case Publish(event) => PublishKeepsInv(s, event);
    case Begin(p) => BeginKeepsInv(s, p);
    case Offer(p, h) => OfferKeepsInv(s, p, h);
    case End(p) => EndKeepsInv(s, p);
    case Subscribe(id, filter) => SubscribeKeepsInv(s, id, filter);
    case Unsubscribe(id) => UnsubscribeKeepsInv(s, id);
    case Close(h) => CloseKeepsInv(s, h);
    case Receive(h) => ReceiveKeepsInv(s, h);
    case Shutdown => ShutdownKeepsInv(s);
  }

  // ----- Runs of the bus -----

  datatype Bus = Bus(clock: Clock, state: State)

  datatype BusStep =
    | Stamp(event: Event)
    | Merge(tick: Tick)
    | Move(step: Step)

  ghost predicate BusEnabled(b: Bus, step: BusStep) {
    match step
    case Stamp(_) => true
    case Merge(tick) => !tick.Add? && TickEnabled(b.clock, tick)
    case Move(step) => !step.Publish? && Enabled(b.state, step)
  }

  ghost function BusApply(b: Bus, step: BusStep): Bus
    requires BusEnabled(b, step)
  {
    match step
    case Stamp(event) =>
      var clock := Ticked(b.clock, Add);
      Bus(clock, AfterPublish(b.state, event.(sequenceId := clock.time)))
    case Merge(tick) => b.(clock := Ticked(b.clock, tick))
    case Move(step) => b.(state := Apply(b.state, step))
  }

  ghost predicate Feasible(b: Bus, steps: seq<BusStep>)
    decreases |steps|
  {
    steps != [] ==> BusEnabled(b, steps[0]) && Feasible(BusApply(b, steps[0]), steps[1..])
  }

  ghost function Exec(b: Bus, steps: seq<BusStep>): Bus
    requires Feasible(b, steps)
    decreases |steps|
  {
    if steps == [] then b else Exec(BusApply(b, steps[0]), steps[1..])
  }

  /** Publishers have rising stamps, none ahead of the clock. */
  predicate Rising(publishers: seq<Publisher>, time: nat) {
    && (forall p :: 0 <= p < |publishers| ==> publishers[p].event.sequenceId <= time)
    && (forall p, q :: 0 <= p < q < |publishers| ==> publishers[p].event.sequenceId < publishers[q].event.sequenceId)
  }

  ghost predicate BusInv(b: Bus) {
    ClockInv(b.clock) && Inv(b.state) && Rising(b.state.publishers, b.clock.time)
  }

  predicate StepBelow(step: BusStep, top: nat) { step.Merge? ==> RemoteBelow(step.tick, top) }

  lemma MovesKeepEvents(s: State, step: Step)
    requires Enabled(s, step) && !step.Publish?
    ensures |Apply(s, step).publishers| == |s.publishers|
    ensures forall p :: 0 <= p < |s.publishers| ==> Apply(s, step).publishers[p].event == s.publishers[p].event
  {
  }

  lemma TimeRises(c: Clock, tick: Tick, top: nat)
    requires ClockInv(c) && TickEnabled(c, tick) && Below(c, top) && RemoteBelow(tick, top) && top < MAX_UINT64
    ensures Ticked(c, tick).time >= c.time
    ensures tick.Add? ==> Ticked(c, tick).time == c.time + 1
  {
  }

  lemma BusStepKeepsInv(b: Bus, step: BusStep, top: nat)
    requires BusInv(b) && BusEnabled(b, step) && Below(b.clock, top) && StepBelow(step, top) && top < MAX_UINT64
    ensures BusInv(BusApply(b, step)) && Below(BusApply(b, step).clock, top + 1)
  {
    hide ClockInv, Inv, Below, Ticked, Apply, Rising, TickEnabled, Enabled, AfterPublish;
    match step
    case Stamp(event) => StampStep(b, event, top);
    case Merge(tick) =>
      TickKeepsInv(b.clock, tick, top);
      TimeRises(b.clock, tick, top);
      RisesOn(b.state.publishers, b.state.publishers, b.clock.time, Ticked(b.clock, tick).time);
    case Move(step) =>
      StepKeepsInv(b.state, step);
      MovesKeepEvents(b.state, step);
      RisesOn(b.state.publishers, Apply(b.state, step).publishers, b.clock.time, b.clock.time);
      StaysBelow(b.clock, top);
  }

  lemma StaysBelow(c: Clock, top: nat)
    requires Below(c, top)
    ensures Below(c, top + 1)
  {
  }

  lemma RisesOn(publishers: seq<Publisher>, publishers': seq<Publisher>, time: nat, later: nat)
    requires Rising(publishers, time) && time <= later && |publishers'| == |publishers|
    requires forall p :: 0 <= p < |publishers| ==> publishers'[p].event == publishers[p].event
    ensures Rising(publishers', later)
  {
  }

  lemma StampStep(b: Bus, event: Event, top: nat)
    requires BusInv(b) && Below(b.clock, top) && top < MAX_UINT64
    ensures BusInv(BusApply(b, Stamp(event))) && Below(BusApply(b, Stamp(event)).clock, top + 1)
  {
    hide ClockInv, Inv, Below, Ticked;
    assert RemoteBelow(Add, top);
    TickKeepsInv(b.clock, Add, top);
    TimeRises(b.clock, Add, top);
    PublishKeepsInv(b.state, event.(sequenceId := b.clock.time + 1));
  }

  lemma {:induction false} BusInvAlways(b: Bus, steps: seq<BusStep>, top: nat)
    requires BusInv(b) && Feasible(b, steps) && Below(b.clock, top) && top + |steps| <= MAX_UINT64
    requires forall k :: 0 <= k < |steps| ==> StepBelow(steps[k], top)
    ensures BusInv(Exec(b, steps))
    decreases |steps|
  {
    if steps != [] {
      hide BusInv, Below, BusEnabled, BusApply;
      BusStepKeepsInv(b, steps[0], top);
      forall k | 0 <= k < |steps| - 1
        ensures StepBelow(steps[1..][k], top + 1)
      {
        assert StepBelow(steps[k + 1], top);
      }
      BusInvAlways(BusApply(b, steps[0]), steps[1..], top + 1);
    }
  }

  lemma {:induction false} BufferSizeStays(b: Bus, steps: seq<BusStep>)
    requires Feasible(b, steps)
    ensures Exec(b, steps).state.bufferSize == b.state.bufferSize
    decreases |steps|
  {
    if steps != [] {
      BufferSizeStays(BusApply(b, steps[0]), steps[1..]);
    }
  }

  function NewBus(bufferSize: int): Bus { Bus(NEW_CLOCK, Init(bufferSize)) }

  lemma NewBusInv(bufferSize: int)
    ensures BusInv(NewBus(bufferSize))
  {
  }

  /**
    In every interleaving in which no addition can overflow, the values that the
    clock issues are pairwise distinct, and each merge returns one that is above its
    argument and above everything issued before.
    */
  lemma StampsAreOrdered(bufferSize: int, steps: seq<BusStep>, top: nat)
    requires Feasible(NewBus(bufferSize), steps) && top + |steps| <= MAX_UINT64
    requires forall k :: 0 <= k < |steps| ==> StepBelow(steps[k], top)
    ensures var c := Exec(NewBus(bufferSize), steps).clock;
            && (forall i, j :: 0 <= i < j < |c.issued| ==> c.issued[i] < c.issued[j])
            && (forall k :: 0 <= k < |c.merged| ==>
                 var m := c.merged[k];
                 && m.at < |c.issued| && c.issued[m.at] == m.result
                 && m.result == (if TimeAt(c.issued, m.at) > m.remote then TimeAt(c.issued, m.at) else m.remote) + 1
                 && forall i :: 0 <= i < m.at ==> c.issued[i] < m.result)
  {
    NewBusInv(bufferSize);
    BusInvAlways(NewBus(bufferSize), steps, top);
    hide Exec, Feasible, Inv;
  }

  /** The event is there, and no other with its stamp. */
  ghost predicate OnceIn(events: seq<Event>, event: Event) {
    exists i :: 0 <= i < |events| && events[i] == event
                && forall j :: 0 <= j < |events| && j != i ==> events[j].sequenceId != event.sequenceId
  }

  lemma AcceptedOnce(ch: Channel, h: nat, bufferSize: nat, publishers: seq<Publisher>, time: nat, p: nat)
    requires Accounted(ch, h, publishers) && Queued(ch, bufferSize, publishers) && Rising(publishers, time)
    requires p in ch.accepted
    ensures p < |publishers| && OnceIn(ch.received + ch.queue, publishers[p].event)
  {
    var i :| 0 <= i < |ch.accepted| && ch.accepted[i] == p;
    var events := ch.received + ch.queue;
    assert events[i] == publishers[p].event;
    forall j | 0 <= j < |events| && j != i
      ensures events[j].sequenceId != publishers[p].event.sequenceId
    {
      assert ch.accepted[j] != p by {
        assert if i < j then ch.accepted[i] != ch.accepted[j] else ch.accepted[j] != ch.accepted[i];
      }
    }
  }

  lemma NotAcceptedNotIn(ch: Channel, h: nat, bufferSize: nat, publishers: seq<Publisher>, time: nat, p: nat)
    requires Accounted(ch, h, publishers) && Queued(ch, bufferSize, publishers) && Rising(publishers, time)
    requires p < |publishers| && p !in ch.accepted
    ensures publishers[p].event !in ch.received + ch.queue
  {
    var events := ch.received + ch.queue;
    forall j | 0 <= j < |events|
      ensures events[j] != publishers[p].event
    {
      assert ch.accepted[j] in ch.accepted;
    }
  }

  /** No two events carry the same stamp. */
  ghost predicate AllDifferent(events: seq<Event>) {
    forall i, j :: 0 <= i < j < |events| ==> events[i].sequenceId != events[j].sequenceId
  }

  lemma QueuedAreDifferent(ch: Channel, h: nat, bufferSize: nat, publishers: seq<Publisher>, time: nat)
    requires Accounted(ch, h, publishers) && Queued(ch, bufferSize, publishers) && Rising(publishers, time)
    ensures AllDifferent(ch.received + ch.queue)
  {
    var events := ch.received + ch.queue;
    forall i, j | 0 <= i < j < |events|
      ensures events[i].sequenceId != events[j].sequenceId
    {
      var p, q := ch.accepted[i], ch.accepted[j];
      assert p != q && events[i] == publishers[p].event && events[j] == publishers[q].event;
      if p < q {
        assert publishers[p].event.sequenceId < publishers[q].event.sequenceId;
      } else {
        assert publishers[q].event.sequenceId < publishers[p].event.sequenceId;
      }
    }
  }

  /** Where a channel has the event of a publication, under way or over, and how often. */
  ghost predicate DeliveryIsRight(s: State, p: nat, h: nat)
    requires p < |s.publishers| && h < |s.channels|
  {
    var ch, event := s.channels[h], s.publishers[p].event;
    if h in s.publishers[p].offered && ch.filter(event) && p !in ch.dropped then OnceIn(ch.received + ch.queue, event)
    else event !in ch.received + ch.queue
  }

  /** A publication is for all who are subscribed while it goes on; nobody was left out when it is over. */
  predicate AudienceIsRight(pub: Publisher, subscribers: map<string, nat>) {
    match pub.stage
    case Stamped => pub.offered == {}
    case Delivering => pub.offered <= pub.audience == subscribers.Values
    case Finished => pub.offered == pub.audience
  }

  /**
    In every such run nothing is sent on a closed channel and none is closed twice; no
    buffer overflows, and only a full one drops anything; no channel ever gets two events
    with one stamp.  Each publication, under way or over, has put its event once into the
    channels it was offered to so far that want it and had room, and into no other; when
    it is over, it was offered to its whole audience.
    */
  lemma DeliveredOnce(bufferSize: int, steps: seq<BusStep>, top: nat)
    requires Feasible(NewBus(bufferSize), steps) && top + |steps| <= MAX_UINT64
    requires forall k :: 0 <= k < |steps| ==> StepBelow(steps[k], top)
    ensures var s := Exec(NewBus(bufferSize), steps).state;
            && !s.panicked
            && s.bufferSize == (if bufferSize <= 0 then DEFAULT_BUFFER else bufferSize)
            && (forall h :: 0 <= h < |s.channels| ==>
                 && |s.channels[h].queue| <= s.bufferSize
                 && AllDifferent(s.channels[h].received + s.channels[h].queue)
                 && forall p :: p in s.channels[h].dropped ==> s.channels[h].dropped[p] == s.bufferSize)
            && (forall p, h :: 0 <= p < |s.publishers| && 0 <= h < |s.channels| ==> DeliveryIsRight(s, p, h))
            && (forall p :: 0 <= p < |s.publishers| ==> AudienceIsRight(s.publishers[p], s.subscribers))
            && (forall h :: 0 <= h < |s.channels| ==>
                 (!s.channels[h].closed <==> h in s.subscribers.Values || h in s.closing || h in s.replaced))
  {
    NewBusInv(bufferSize);
    BusInvAlways(NewBus(bufferSize), steps, top);
    BufferSizeStays(NewBus(bufferSize), steps);
    var b := Exec(NewBus(bufferSize), steps);
    var s := b.state;
    hide Exec, Feasible, ClockInv, Rising, Accounted, AllDifferent, OnceIn;
    forall h | 0 <= h < |s.channels|
      ensures AllDifferent(s.channels[h].received + s.channels[h].queue)
    {
      QueuedAreDifferent(s.channels[h], h, s.bufferSize, s.publishers, b.clock.time);
    }
    forall p, h | 0 <= p < |s.publishers| && 0 <= h < |s.channels|
      ensures DeliveryIsRight(s, p, h)
    {
      DeliverySoFar(s, b.clock.time, p, h);
    }
  }

  lemma DeliverySoFar(s: State, time: nat, p: nat, h: nat)
    requires Inv(s) && Rising(s.publishers, time) && p < |s.publishers| && h < |s.channels|
    ensures DeliveryIsRight(s, p, h)
  {
    var ch, publishers := s.channels[h], s.publishers;
    assert Accounted(ch, h, publishers) && Queued(ch, s.bufferSize, publishers);
    assert p in ch.accepted <==> h in publishers[p].offered && ch.filter(publishers[p].event) && p !in ch.dropped;
    hide Inv, Accounted, Queued, Rising, OnceIn;
    if p in ch.accepted {
      AcceptedOnce(ch, h, s.bufferSize, publishers, time, p);
    } else {
      NotAcceptedNotIn(ch, h, s.bufferSize, publishers, time, p);
    }
  }

  /** Only a subscription under an ID in use leaves a channel open and out of the map. */
  lemma OnlySubscribeReplaces(s: State, step: Step)
    requires Enabled(s, step)
    ensures Apply(s, step).replaced
            == if step.Subscribe? && step.id in s.subscribers then s.replaced + {s.subscribers[step.id]} else s.replaced
  {
  }

  // ----- The bus, called from one goroutine at a time -----

  /** No call of Publish is under way. */
  ghost predicate Quiet(s: State) {
    Inv(s) && s.closing == {} && forall p :: 0 <= p < |s.publishers| ==> s.publishers[p].stage == Finished
  }

  ghost predicate Orderly(c: Clock, publishers: seq<Publisher>) { ClockInv(c) && Rising(publishers, c.time) }

  /** The state in the middle of a publication: `offered` of the audience have had their turn. */
  ghost function Amid(s: State, event: Event, offered: set<nat>, channels: seq<Channel>): State {
    s.(publishers := s.publishers + [Publisher(event, Delivering, s.subscribers.Values, offered)], channels := channels)
  }

  ghost predicate OfferedTo(channels: seq<Channel>, before: seq<Channel>, offered: set<nat>, bufferSize: nat, p: nat,
                            event: Event) {
    && |channels| == |before|
    && forall h :: 0 <= h < |channels| ==>
         channels[h] == if h in offered then Offered(before[h], bufferSize, p, event) else before[h]
  }

  lemma NothingOffered(channels: seq<Channel>, bufferSize: nat, p: nat, event: Event)
    ensures OfferedTo(channels, channels, {}, bufferSize, p, event)
  {
  }

  lemma PublicationStarts(s: State, event: Event)
    requires Quiet(s)
    ensures Inv(Amid(s, event, {}, s.channels))
    ensures forall h :: h in s.subscribers.Values ==> h < |s.channels|
    ensures OfferedTo(s.channels, s.channels, {}, s.bufferSize, |s.publishers|, event)
  {
    PublishKeepsInv(s, event);
    var s1 := AfterPublish(s, event);
    BeginKeepsInv(s1, |s.publishers|);
    assert AfterBegin(s1, |s.publishers|) == Amid(s, event, {}, s.channels);
  }

  lemma PublicationGoesOn(s: State, event: Event, offered: set<nat>, channels: seq<Channel>, h: nat)
    requires Inv(Amid(s, event, offered, channels)) && h in s.subscribers.Values - offered
    requires h < |channels| && OfferedTo(channels, s.channels, offered, s.bufferSize, |s.publishers|, event)
    ensures var channels' := channels[h := Offered(channels[h], s.bufferSize, |s.publishers|, event)];
            && Inv(Amid(s, event, offered + {h}, channels'))
            && OfferedTo(channels', s.channels, offered + {h}, s.bufferSize, |s.publishers|, event)
  {
    hide Inv, Offered;
    var s1, p := Amid(s, event, offered, channels), |s.publishers|;
    OfferKeepsInv(s1, p, h);
    var channels' := channels[h := Offered(channels[h], s.bufferSize, p, event)];
    assert AfterOffer(s1, p, h) == Amid(s, event, offered + {h}, channels');
  }

  lemma PublicationEnds(s: State, event: Event, channels: seq<Channel>)
    requires Quiet(s) && Inv(Amid(s, event, s.subscribers.Values, channels))
    ensures Quiet(s.(publishers := s.publishers +
                         [Publisher(event, Finished, s.subscribers.Values, s.subscribers.Values)],
                     channels := channels))
  {
    var s1, p := Amid(s, event, s.subscribers.Values, channels), |s.publishers|;
    EndKeepsInv(s1, p);
    hide Inv;
    assert AfterEnd(s1, p)
             == s.(publishers := s.publishers +
             [Publisher(event, Finished, s.subscribers.Values, s.subscribers.Values)],
                                 channels := channels);
  }

  /** A stamp keeps the order unless the clock overflows. */
  lemma StampKeepsOrder(c: Clock, publishers: seq<Publisher>, pub: Publisher)
    requires Orderly(c, publishers) && c.time < MAX_UINT64 && pub.event.sequenceId == c.time + 1
    ensures Orderly(c.(time := c.time + 1, issued := c.issued + [c.time + 1]), publishers + [pub])
  {
    IssueKeepsInv(c, c.time + 1);
    hide ClockInv;
  }

  lemma MergeKeepsOrder(c: Clock, publishers: seq<Publisher>, remote: nat)
    requires Orderly(c, publishers) && c.time < MAX_UINT64 && remote < MAX_UINT64
    ensures var next := Next(c.time, remote);
            Orderly(c.(time := next, issued := c.issued + [next],
                       merged := c.merged + [Merged(remote, next, |c.issued|)]),
                       publishers)
  {
    var next := Next(c.time, remote);
    assert next > c.time && next > remote;
    IssueKeepsInv(c, next);
    var c1 := c.(time := next, issued := c.issued + [next]);
    hide ClockInv, Next;
    MergeRecorded(c1, Merged(remote, next, |c.issued|));
  }

  lemma MergeRecorded(c: Clock, m: Merged)
    requires ClockInv(c) && m.at < |c.issued| && c.issued[m.at] == m.result && IsMerge(m, TimeAt(c.issued, m.at))
    ensures ClockInv(c.(merged := c.merged + [m]))
  {
    hide Increasing, TimeAt;
  }

  lemma SubscriptionStaysQuiet(s: State, id: string, filter: Event -> bool)
    requires Quiet(s)
    ensures Quiet(AfterSubscribe(s, id, filter))
  {
    SubscribeKeepsInv(s, id, filter);
    hide Inv;
  }

  lemma UnsubscriptionStaysQuiet(s: State, id: string)
    requires Quiet(s) && id in s.subscribers
    ensures var h := s.subscribers[id];
            && h < |s.channels| && !s.channels[h].closed
            && Quiet(s.(subscribers := s.subscribers - {id},
                        channels := s.channels[h := s.channels[h].(closed := true)]))
  {
    var h := s.subscribers[id];
    UnsubscribeKeepsInv(s, id);
    var s1 := AfterUnsubscribe(s, id);
    CloseKeepsInv(s1, h);
    hide Inv;
    assert {h} - {h} == {};
    assert AfterClose(s1, h)
             == s.(subscribers := s.subscribers - {id},
             channels := s.channels[h := s.channels[h].(closed := true)]);
  }

  /** These channels have been closed and the others left as they were. */
  ghost predicate ClosedThese(channels: seq<Channel>, before: seq<Channel>, handles: set<nat>) {
    && |channels| == |before|
    && forall h :: 0 <= h < |before| ==>
         channels[h] == if h in handles then before[h].(closed := true) else before[h]
  }

  /** A shutdown on its way: the channels of those already taken out are closed. */
  ghost predicate ShuttingDown(s0: State, s: State) {
    && Quiet(s) && s.subscribers.Values <= s0.subscribers.Values
    && ClosedThese(s.channels, s0.channels, s0.subscribers.Values - s.subscribers.Values)
  }

  lemma ShutdownGoesOn(s0: State, s: State, id: string)
    requires ShuttingDown(s0, s) && id in s.subscribers
    ensures var h := s.subscribers[id];
            && h < |s.channels| && !s.channels[h].closed
            && ShuttingDown(s0, s.(subscribers := s.subscribers - {id},
                                   channels := s.channels[h := s.channels[h].(closed := true)]))
  {
    UnsubscriptionStaysQuiet(s, id);
    TakenOut(s.subscribers, s.channels, s.closing, s.replaced, id);
    hide Quiet;
  }

  lemma AllOpen(s: State)
    requires Quiet(s)
    ensures forall h :: h in s.subscribers.Values ==> h < |s.channels| && !s.channels[h].closed
  {
  }

  lemma ShutdownStarts(s: State)
    requires Quiet(s)
    ensures ShuttingDown(s, s)
  {
    hide Quiet;
  }

  lemma ShutdownEnds(s0: State, s: State)
    requires ShuttingDown(s0, s) && s.subscribers.Keys == {}
    ensures Quiet(s) && s.subscribers == map[] && ClosedThese(s.channels, s0.channels, s0.subscribers.Values)
  {
    hide Quiet;
    assert s.subscribers == map[];
    assert s0.subscribers.Values - s.subscribers.Values == s0.subscribers.Values;
  }

  lemma TakenOut(subscribers: map<string, nat>, channels: seq<Channel>, closing: set<nat>, replaced: set<nat>,
                 id: string)
    requires Registered(subscribers, channels, closing, replaced) && id in subscribers
    ensures (subscribers - {id}).Values == subscribers.Values - {subscribers[id]}
  {
    forall h | h in subscribers.Values && h != subscribers[id]
      ensures h in (subscribers - {id}).Values
    {
      var i :| i in subscribers && subscribers[i] == h;
      assert (subscribers - {id})[i] == h;
    }
  }

  lemma ReceptionStaysQuiet(s: State, h: nat)
    requires Quiet(s) && h < |s.channels| && s.channels[h].queue != []
    ensures Quiet(AfterReceive(s, h))
  {
    ReceiveKeepsInv(s, h);
    hide Inv;
  }

  class EventBus {
    const bufferSize: nat
    var lamport: Uint64
    var subscribers: map<string, nat>
    var channels: seq<Channel>
    ghost var issued: seq<nat>
    ghost var merged: seq<Merged>
    ghost var replaced: set<nat>
    /** Every publication so far; channels refer to it in their accounts. */
    var publishers: seq<Publisher>

    ghost function TheClock(): Clock
      reads this
    {
      Clock(lamport, issued, map[], merged)
    }

    ghost function TheState(): State
      reads this
    {
      State(bufferSize, publishers, subscribers, channels, {}, replaced, false)
    }

    /** The queues are in order, whatever the clock does. */
    ghost predicate Valid()
      reads this
    {
      Quiet(TheState())
    }

    /** The stamps are in order; this lasts as long as the clock does not overflow. */
    ghost predicate Stamped()
      reads this
    {
      Orderly(TheClock(), publishers)
    }

    constructor (bufferSize: int)
      ensures Valid() && Stamped()
      ensures TheClock() == NEW_CLOCK && TheState() == Init(bufferSize)
    {
      this.bufferSize := if bufferSize <= 0 then DEFAULT_BUFFER else bufferSize;
      lamport, subscribers, channels, issued, merged, publishers, replaced := 0, map[], [], [], [], [], {};
    }

    /** Stamps the event and offers it to every subscriber, in whatever order the map gives them. */
    method Publish(event: Event)
      requires Valid()
      modifies this
      ensures Valid()
      ensures old(Stamped()) && old(lamport) < MAX_UINT64 ==> Stamped()
      ensures old(lamport) < MAX_UINT64 ==> lamport == old(lamport) + 1
      ensures old(lamport) == MAX_UINT64 ==> lamport == 0
      ensures subscribers == old(subscribers)
      ensures publishers == old(publishers) + [Publisher(event.(sequenceId := lamport), Finished,
                                                         subscribers.Values, subscribers.Values)]
      ensures OfferedTo(channels, old(channels), subscribers.Values, bufferSize, |old(publishers)|,
                        event.(sequenceId := lamport))
    {
      hide Quiet, Orderly, Inv, OfferedTo, Offered, Amid;
      ghost var was := TheState();
      var finished := Publisher(event.(sequenceId := Wrap(lamport + 1)), Finished,
        subscribers.Values, subscribers.Values);
      if Stamped() && lamport < MAX_UINT64 {
        StampKeepsOrder(TheClock(), publishers, finished);
      }
      lamport := Wrap(lamport + 1);
      issued := issued + [lamport];
      var stamped := event.(sequenceId := lamport);
      PublicationStarts(was, stamped);
      channels := OfferAll(was, |publishers|, stamped, subscribers, channels);
      PublicationEnds(was, stamped, channels);
      publishers := publishers + [finished];
    }

    /** The loop over the subscribers. */
    method OfferAll(ghost s: State, p: nat, event: Event, subscribers: map<string, nat>, before: seq<Channel>)
      returns (channels: seq<Channel>)
      requires Inv(Amid(s, event, {}, s.channels)) && s.subscribers == subscribers && s.channels == before
      requires s.bufferSize == bufferSize && |s.publishers| == p
      requires forall h :: h in subscribers.Values ==> h < |before|
      ensures Inv(Amid(s, event, subscribers.Values, channels))
      ensures OfferedTo(channels, before, subscribers.Values, bufferSize, p, event)
    {
      hide Inv, Amid, Offered, OfferedTo;
      channels := before;
      NothingOffered(before, bufferSize, p, event);
      ghost var offered: set<nat> := {};
      var todo := subscribers.Values;
      while todo != {}
        invariant todo + offered == subscribers.Values && todo !! offered && |channels| == |before|
        invariant Inv(Amid(s, event, offered, channels))
        invariant OfferedTo(channels, before, offered, bufferSize, p, event)
        decreases |todo|
      {
        ghost var some := Collections.Pick(todo);
        var h :| h in todo;
        PublicationGoesOn(s, event, offered, channels, h);
        todo := todo - {h};
        offered := offered + {h};
        channels := channels[h := Offered(channels[h], bufferSize, p, event)];
      }
    }

    /**
      The maximum of both clocks, plus one.  Nobody else touches the clock here, so the
      first swap succeeds.
      */
    method Merge(remoteSeq: Uint64) returns (next: Uint64)
      requires Valid()
      modifies this
      ensures Valid() && next == lamport
      ensures var greatest := if old(lamport) > remoteSeq then old(lamport) else remoteSeq;
              && (greatest < MAX_UINT64 ==> next == greatest + 1)
              && (greatest == MAX_UINT64 ==> next == 0)
      ensures old(Stamped()) && old(lamport) < MAX_UINT64 && remoteSeq < MAX_UINT64 ==>
                && Stamped() && next > remoteSeq
                && forall k :: 0 <= k < |old(issued)| ==> old(issued)[k] < next
      ensures subscribers == old(subscribers) && channels == old(channels) && publishers == old(publishers)
    {
      if Stamped() && lamport < MAX_UINT64 && remoteSeq < MAX_UINT64 {
        MergeKeepsOrder(TheClock(), publishers, remoteSeq);
        MergeIsNewest(TheClock(), remoteSeq);
      }
      NextIsOneMore(lamport, remoteSeq);
      hide *;
      var swapped := false;
      next := 0;
      while !swapped
        invariant swapped ==> next == Next(old(lamport), remoteSeq)
        invariant lamport == (if swapped then next else old(lamport))
        invariant unchanged(`issued, `merged, `publishers, `subscribers, `channels, `replaced)
        decreases !swapped
      {
        var current := lamport;
        next := remoteSeq;
        if current > next {
          next := current;
        }
        next := Wrap(next + 1);
        if lamport == current {
          lamport := next;
          swapped := true;
        }
      }
      merged := merged + [Merged(remoteSeq, next, |issued|)];
      issued := issued + [next];
    }

    lemma MergeIsNewest(c: Clock, remote: nat)
      requires ClockInv(c) && c.time < MAX_UINT64 && remote < MAX_UINT64
      ensures Next(c.time, remote) > remote
      ensures forall k :: 0 <= k < |c.issued| ==> c.issued[k] < Next(c.time, remote)
    {
      forall k | 0 <= k < |c.issued|
        ensures c.issued[k] <= c.time
      {
        assert k < |c.issued| - 1 ==> c.issued[k] < c.issued[|c.issued| - 1];
      }
    }

    /** A new channel under this ID; one that had the ID before gets nothing more, and stays open. */
    method Subscribe(id: string, filter: Event -> bool) returns (h: nat)
      requires Valid()
      modifies this`subscribers, this`channels, this`replaced
      ensures Valid() && h == |old(channels)|
      ensures subscribers == old(subscribers)[id := h]
      ensures channels == old(channels) + [Channel(filter, [], [], [], map[], false)]
    {
      SubscriptionStaysQuiet(TheState(), id, filter);
      hide Quiet;
      h := |channels|;
      if id in subscribers {
        replaced := replaced + {subscribers[id]};
      }
      channels := channels + [Channel(filter, [], [], [], map[], false)];
      subscribers := subscribers[id := h];
    }

    method Unsubscribe(id: string)
      requires Valid()
      modifies this`subscribers, this`channels
      ensures Valid() && subscribers == old(subscribers) - {id}
      ensures id in old(subscribers) ==>
                var h := old(subscribers)[id];
                && h < |old(channels)| && !old(channels)[h].closed
                && channels == old(channels)[h := old(channels)[h].(closed := true)]
      ensures id !in old(subscribers) ==> channels == old(channels)
    {
      if id in subscribers {
        UnsubscriptionStaysQuiet(TheState(), id);
        hide Quiet;
        var h := subscribers[id];
        subscribers := subscribers - {id};
        channels := channels[h := channels[h].(closed := true)];
      }
    }

    /** The end of Run: every subscribed channel, each of which is open, is closed and taken out, in any order. */
    method Shutdown()
      requires Valid()
      modifies this`subscribers, this`channels
      ensures Valid() && subscribers == map[]
      ensures ClosedThese(channels, old(channels), old(subscribers).Values)
      ensures forall h :: h in old(subscribers).Values ==> h < |old(channels)| && !old(channels)[h].closed
    {
      AllOpen(TheState());
      hide *;
      channels := CloseAll(TheState(), subscribers, channels);
      subscribers := map[];
    }

    /** The loop over the subscribers. */
    static method CloseAll(ghost start: State, subscribers: map<string, nat>, before: seq<Channel>)
      returns (channels: seq<Channel>)
      requires Quiet(start) && start.subscribers == subscribers && start.channels == before
      ensures Quiet(start.(subscribers := map[], channels := channels))
      ensures ClosedThese(channels, before, subscribers.Values)
    {
      ShutdownStarts(start);
      var rest: map<string, nat>;
      channels, rest := before, subscribers;
      assert start.(subscribers := rest, channels := channels) == start;
      hide *;
      while rest != map[]
        invariant ShuttingDown(start, start.(subscribers := rest, channels := channels))
        decreases |rest|
      {
        ghost var some := Collections.Pick(rest.Keys);
        var id :| id in rest;
        ShutdownGoesOn(start, start.(subscribers := rest, channels := channels), id);
        var h := rest[id];
        channels := channels[h := channels[h].(closed := true)];
        assert |rest - {id}| < |rest|;
        rest := rest - {id};
      }
      ShutdownEnds(start, start.(subscribers := rest, channels := channels));
    }

    /** The subscriber reads its channel. */
    method Read(h: nat) returns (event: Option<Event>)
      requires Valid() && h < |channels|
      modifies this`channels
      ensures Valid() && |channels| == |old(channels)|
      ensures forall k :: 0 <= k < |channels| && k != h ==> channels[k] == old(channels)[k]
      ensures event.None? ==> old(channels)[h].queue == [] && channels == old(channels)
      ensures event.Some? ==>
                && old(channels)[h].queue == [event.value] + channels[h].queue
                && channels[h].received == old(channels)[h].received + [event.value]
                && channels[h].accepted == old(channels)[h].accepted
    {
      if channels[h].queue == [] {
        return None;
      }
      ReceptionStaysQuiet(TheState(), h);
      hide Quiet;
      var ch := channels[h];
      channels := channels[h := ch.(queue := ch.queue[1..], received := ch.received + [ch.queue[0]])];
      return Some(ch.queue[0]);
    }
  }
}
