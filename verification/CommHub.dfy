/**
  Agent inboxes of internal/commhub/hub.go: delivery with a bounded inbox,
  consumption, and the overflow store behind it.

  The overflow persister and drainer may be absent, and may fail unless they are
  `reliable`; the drainer removes exactly what it returns.  The store may hold
  messages of an earlier process from the start.
  */
module CommHub {
  import opened Collections
  import opened Strings

  const INBOX_CAPACITY: nat := 1000

  /** A message without its ID, which does not survive the overflow store. */
  datatype Body = Body(
    from: string,
    to: string,
    contentType: string,
    content: string,
    trust: int,
    metadata: map<string, string>,
    timestamp: int)

  datatype Envelope = Envelope(id: string, body: Body)

  datatype OverflowEntry = OverflowEntry(id: string, agentID: string, body: Body)

  /**
    What has happened to one agent's messages since the start.  `delivered` and
    `removed` are in order; `accepted` counts each message once, when it is first
    delivered, and `draining` holds those taken from the overflow store and not yet delivered again.
    */
  datatype Log = Log(
    delivered: seq<Envelope>,
    removed: seq<Envelope>,
    accepted: multiset<Body>,
    received: multiset<Body>,
    draining: multiset<Body>,
    lost: multiset<Body>)

  const NO_LOG: Log := Log([], [], multiset{}, multiset{}, multiset{}, multiset{})

  function BodiesOf(messages: seq<Envelope>): (r: seq<Body>)
    ensures |r| == |messages| && forall i :: 0 <= i < |r| ==> r[i] == messages[i].body
  {
    seq(|messages|, i requires 0 <= i < |messages| => messages[i].body)
  }

  function Bodies(messages: seq<Envelope>): multiset<Body> { multiset(BodiesOf(messages)) }

  lemma BodiesConcat(a: seq<Envelope>, b: seq<Envelope>)
    ensures Bodies(a + b) == Bodies(a) + Bodies(b)
  {
    assert BodiesOf(a + b) == BodiesOf(a) + BodiesOf(b);
  }

  lemma BodiesPop(messages: seq<Envelope>)
    requires messages != []
    ensures Bodies(messages) == multiset{messages[0].body} + Bodies(messages[1..])
  {
    BodiesConcat([messages[0]], messages[1..]);
    BodiesOfOne(messages[0]);
    hide Bodies;
    assert messages == [messages[0]] + messages[1..];
  }

  lemma NoBodies()
    ensures Bodies([]) == multiset{}
  {
    assert BodiesOf([]) == [];
  }

  lemma BodiesOfOne(m: Envelope)
    ensures Bodies([m]) == multiset{m.body}
  {
    assert BodiesOf([m]) == [m.body];
  }

  /** Stored messages as they are delivered again, under a new ID. */
  function Envelopes(entries: seq<OverflowEntry>): (r: seq<Envelope>)
    ensures |r| == |entries| && forall i :: 0 <= i < |r| ==> r[i] == Restored(entries[i])
  {
    seq(|entries|, i requires 0 <= i < |entries| => Restored(entries[i]))
  }

  function Restored(e: OverflowEntry): Envelope { Envelope("overflow-" + e.id, e.body) }

  /** The messages stored for an agent. */
  function StoredFor(store: seq<OverflowEntry>, agent: string): seq<Body> {
    if store == [] then []
    else (if store[0].agentID == agent then [store[0].body] else []) + StoredFor(store[1..], agent)
  }

  function Stored(store: seq<OverflowEntry>, agent: string): multiset<Body> { multiset(StoredFor(store, agent)) }

  lemma {:induction false} StoredConcat(a: seq<OverflowEntry>, b: seq<OverflowEntry>, agent: string)
    ensures StoredFor(a + b, agent) == StoredFor(a, agent) + StoredFor(b, agent)
  {
    if a == [] {
      assert a + b == b;
    } else {
      StoredConcat(a[1..], b, agent);
      assert (a + b)[1..] == a[1..] + b;
      var head := if a[0].agentID == agent then [a[0].body] else [];
      ConcatAssociates(head, StoredFor(a[1..], agent), StoredFor(b, agent));
      assert StoredFor(a, agent) == head + StoredFor(a[1..], agent);
      assert StoredFor(a + b, agent) == head + StoredFor((a + b)[1..], agent);
      hide StoredFor;
    }
  }

  lemma StoredOfOne(e: OverflowEntry, agent: string)
    ensures StoredFor([e], agent) == if e.agentID == agent then [e.body] else []
  {
    assert [e][1..] == [];
  }

  /** Taking one entry out of the store. */
  lemma StoredWithout(store: seq<OverflowEntry>, i: nat, agent: string)
    requires i < |store|
    ensures store[i].agentID != agent ==> Stored(store, agent) == Stored(store[..i] + store[i + 1..], agent)
    ensures store[i].agentID == agent ==>
              Stored(store, agent) == Stored(store[..i] + store[i + 1..], agent) + multiset{store[i].body}
  {
    assert store == store[..i] + ([store[i]] + store[i + 1..]);
    StoredConcat(store[..i], [store[i]] + store[i + 1..], agent);
    StoredConcat([store[i]], store[i + 1..], agent);
    StoredConcat(store[..i], store[i + 1..], agent);
    StoredOfOne(store[i], agent);
  }

  // ----- The invariant for one agent -----

  /** First in, first out: what was removed, followed by the inbox, is what was delivered. */
  predicate InOrder(agent: string, inbox: seq<Envelope>, log: Log) {
    && log.removed + inbox == log.delivered
    && |inbox| <= INBOX_CAPACITY
    && forall m :: m in inbox ==> m.body.to == agent
  }

  /** Every message stored at first or accepted later is received, in the inbox, stored, on its way back, or lost. */
  predicate Conserved(inbox: seq<Envelope>, log: Log, initial: multiset<Body>, stored: multiset<Body>) {
    initial + log.accepted == log.received + Bodies(inbox) + stored + log.draining + log.lost
  }

  ghost predicate AgentOk(agent: string, inbox: seq<Envelope>, log: Log, initial: multiset<Body>,
                          stored: multiset<Body>) {
    InOrder(agent, inbox, log) && Conserved(inbox, log, initial, stored)
  }

  // ----- One agent's steps -----

  /** The oldest message leaves a full inbox; it is stored or lost. */
  function AfterOverflow(log: Log, oldest: Envelope, persisted: bool): Log {
    log.(removed := log.removed + [oldest], lost := log.lost + if persisted then multiset{} else multiset{oldest.body})
  }

  /** A message enters the inbox, for the first time or back from the store. */
  function AfterEnter(log: Log, m: Envelope, drained: bool): Log {
    if drained then log.(delivered := log.delivered + [m], draining := log.draining - multiset{m.body})
    else log.(delivered := log.delivered + [m], accepted := log.accepted + multiset{m.body})
  }

  function AfterReceive(log: Log, taken: seq<Envelope>): Log {
    log.(removed := log.removed + taken, received := log.received + Bodies(taken))
  }

  /** Messages taken from the store, on their way back. */
  function Drained(log: Log, bodies: multiset<Body>): Log { log.(draining := log.draining + bodies) }

  lemma OverflowKeepsOrder(agent: string, inbox: seq<Envelope>, log: Log, persisted: bool)
    requires InOrder(agent, inbox, log) && inbox != []
    ensures InOrder(agent, inbox[1..], AfterOverflow(log, inbox[0], persisted)) && inbox[0].body.to == agent
  {
    assert inbox[0] in inbox && forall m :: m in inbox[1..] ==> m in inbox;
    assert log.removed + [inbox[0]] + inbox[1..] == log.removed + inbox;
  }

  lemma OverflowConserves(inbox: seq<Envelope>, log: Log, initial: multiset<Body>, stored: multiset<Body>)
    requires Conserved(inbox, log, initial, stored) && inbox != []
    ensures Conserved(inbox[1..], AfterOverflow(log, inbox[0], true), initial, stored + multiset{inbox[0].body})
    ensures Conserved(inbox[1..], AfterOverflow(log, inbox[0], false), initial, stored)
  {
    hide Bodies;
    BodiesPop(inbox);
  }

  lemma OverflowStep(agent: string, inbox: seq<Envelope>, log: Log, initial: multiset<Body>, stored: multiset<Body>)
    requires AgentOk(agent, inbox, log, initial, stored) && inbox != []
    ensures inbox[0].body.to == agent
    ensures AgentOk(agent, inbox[1..], AfterOverflow(log, inbox[0], true), initial, stored + multiset{inbox[0].body})
    ensures AgentOk(agent, inbox[1..], AfterOverflow(log, inbox[0], false), initial, stored)
    ensures AfterOverflow(log, inbox[0], true).lost == log.lost
  {
    OverflowKeepsOrder(agent, inbox, log, true);
    OverflowKeepsOrder(agent, inbox, log, false);
    OverflowConserves(inbox, log, initial, stored);
    hide InOrder, Conserved;
  }

  lemma EnterKeepsOrder(agent: string, inbox: seq<Envelope>, log: Log, m: Envelope, drained: bool)
    requires InOrder(agent, inbox, log) && |inbox| < INBOX_CAPACITY && m.body.to == agent
    ensures InOrder(agent, inbox + [m], AfterEnter(log, m, drained))
  {
    assert log.removed + (inbox + [m]) == log.removed + inbox + [m];
  }

  lemma EnterConserves(inbox: seq<Envelope>, log: Log, initial: multiset<Body>, stored: multiset<Body>, m: Envelope,
                       drained: bool)
    requires Conserved(inbox, log, initial, stored) && (drained ==> m.body in log.draining)
    ensures Conserved(inbox + [m], AfterEnter(log, m, drained), initial, stored)
  {
    hide Bodies;
    BodiesConcat(inbox, [m]);
    BodiesOfOne(m);
    if drained {
      assert log.draining == log.draining - multiset{m.body} + multiset{m.body};
    } else {
      assert initial + (log.accepted + multiset{m.body}) == initial + log.accepted + multiset{m.body};
    }
  }

  lemma EnterStep(agent: string, inbox: seq<Envelope>, log: Log, initial: multiset<Body>, stored: multiset<Body>,
                  m: Envelope, drained: bool)
    requires AgentOk(agent, inbox, log, initial, stored) && |inbox| < INBOX_CAPACITY && m.body.to == agent
    requires drained ==> m.body in log.draining
    ensures AgentOk(agent, inbox + [m], AfterEnter(log, m, drained), initial, stored)
  {
    EnterKeepsOrder(agent, inbox, log, m, drained);
    EnterConserves(inbox, log, initial, stored, m, drained);
    hide InOrder, Conserved;
  }

  lemma ReceiveKeepsOrder(agent: string, inbox: seq<Envelope>, log: Log, n: nat)
    requires InOrder(agent, inbox, log) && n <= |inbox|
    ensures InOrder(agent, inbox[n..], AfterReceive(log, inbox[..n]))
  {
    hide Bodies;
    assert log.removed + inbox[..n] + inbox[n..] == log.removed + inbox;
  }

  lemma ReceiveConserves(inbox: seq<Envelope>, log: Log, initial: multiset<Body>, stored: multiset<Body>, n: nat)
    requires Conserved(inbox, log, initial, stored) && n <= |inbox|
    ensures Conserved(inbox[n..], AfterReceive(log, inbox[..n]), initial, stored)
  {
    hide Bodies;
    assert inbox == inbox[..n] + inbox[n..];
    BodiesConcat(inbox[..n], inbox[n..]);
  }

  lemma ReceiveStep(agent: string, inbox: seq<Envelope>, log: Log, initial: multiset<Body>, stored: multiset<Body>,
                    n: nat)
    requires AgentOk(agent, inbox, log, initial, stored) && n <= |inbox|
    ensures AgentOk(agent, inbox[n..], AfterReceive(log, inbox[..n]), initial, stored)
    ensures AfterReceive(log, inbox[..n]).lost == log.lost
  {
    ReceiveKeepsOrder(agent, inbox, log, n);
    ReceiveConserves(inbox, log, initial, stored, n);
    hide InOrder, Conserved, Bodies;
  }

  lemma DrainStep(agent: string, inbox: seq<Envelope>, log: Log, initial: multiset<Body>, stored: multiset<Body>,
                  b: Body)
    requires AgentOk(agent, inbox, log, initial, stored + multiset{b})
    ensures AgentOk(agent, inbox, Drained(log, multiset{b}), initial, stored)
            && Drained(log, multiset{b}).lost == log.lost
  {
    hide Bodies;
  }

  // ----- The hub -----

  type Inboxes = map<string, seq<Envelope>>
  type Logs = map<string, Log>
  type Store = seq<OverflowEntry>

  function InboxIn(inboxes: Inboxes, agent: string): seq<Envelope> {
    if agent in inboxes then inboxes[agent] else []
  }

  function LogIn(logs: Logs, agent: string): Log {
    if agent in logs then logs[agent] else NO_LOG
  }

  /** As the persister writes them: an entry belongs to the recipient of its message. */
  predicate WellFiled(store: Store) { forall e :: e in store ==> e.agentID == e.body.to }

  /** Every agent's inbox is in order and its messages are conserved; with `noLoss`, none is ever lost. */
  ghost predicate HubOk(inboxes: Inboxes, logs: Logs, initial: Store, store: Store, noLoss: bool) {
    && (forall a :: AgentOk(a, InboxIn(inboxes, a), LogIn(logs, a), Stored(initial, a), Stored(store, a)))
    && (noLoss ==> forall a :: LogIn(logs, a).lost == multiset{})
    && WellFiled(store)
  }

  lemma NewHub(store: Store, noLoss: bool)
    requires WellFiled(store)
    ensures HubOk(map[], map[], store, store, noLoss)
  {
    NoBodies();
    hide Stored, Bodies;
  }

  lemma HubAgent(inboxes: Inboxes, logs: Logs, initial: Store, store: Store, noLoss: bool, agent: string)
    requires HubOk(inboxes, logs, initial, store, noLoss)
    ensures AgentOk(agent, InboxIn(inboxes, agent), LogIn(logs, agent), Stored(initial, agent), Stored(store, agent))
    ensures InOrder(agent, InboxIn(inboxes, agent), LogIn(logs, agent))
    ensures noLoss ==> LogIn(logs, agent).lost == multiset{}
  {
    hide Stored, InboxIn, LogIn, Conserved;
  }

  lemma HubUpdate(inboxes: Inboxes, logs: Logs, initial: Store, store: Store, store': Store, noLoss: bool,
                  agent: string, inbox: seq<Envelope>, log: Log)
    requires HubOk(inboxes, logs, initial, store, noLoss)
    requires AgentOk(agent, inbox, log, Stored(initial, agent), Stored(store', agent))
             && (noLoss ==> log.lost == multiset{})
    requires forall a :: a != agent ==> Stored(store', a) == Stored(store, a)
    requires WellFiled(store')
    ensures HubOk(inboxes[agent := inbox], logs[agent := log], initial, store', noLoss)
    ensures OthersSame(inboxes, logs, inboxes[agent := inbox], logs[agent := log], agent)
  {
    hide Stored, AgentOk, WellFiled;
    forall a
      ensures AgentOk(a, InboxIn(inboxes[agent := inbox], a), LogIn(logs[agent := log], a),
                      Stored(initial, a), Stored(store', a))
    {
      if a != agent {
        assert AgentOk(a, InboxIn(inboxes, a), LogIn(logs, a), Stored(initial, a), Stored(store, a));
      }
    }
  }

  /** Only this agent's inbox and log may differ. */
  ghost predicate OthersSame(inboxes: Inboxes, logs: Logs, inboxes': Inboxes, logs': Logs, agent: string) {
    forall a :: a != agent ==> InboxIn(inboxes', a) == InboxIn(inboxes, a) && LogIn(logs', a) == LogIn(logs, a)
  }

  class CommHub {
    const hasPersister: bool
    const hasDrainer: bool
    /** Whether storing and draining never fail. */
    const reliable: bool
    var inboxes: Inboxes
    var store: Store
    ghost const initial: Store
    ghost var logs: Logs

    constructor (hasPersister: bool, hasDrainer: bool, reliable: bool, store: Store)
      requires WellFiled(store)
      ensures this.hasPersister == hasPersister && this.hasDrainer == hasDrainer && this.reliable == reliable
      ensures Valid() && inboxes == map[] && this.store == store && initial == store && logs == map[]
    {
      this.hasPersister, this.hasDrainer, this.reliable := hasPersister, hasDrainer, reliable;
      inboxes, this.store, initial, logs := map[], store, store, map[];
      new;
      NewHub(store, hasPersister && reliable);
    }

    ghost predicate Valid()
      reads this
    {
      HubOk(inboxes, logs, initial, store, hasPersister && reliable)
    }

    /** Tries to store a message; without a persister, or when it fails, the message is gone. */
    method PersistOverflow(oldest: Envelope) returns (persisted: bool)
      requires WellFiled(store)
      modifies this`store
      ensures WellFiled(store)
      ensures hasPersister && reliable ==> persisted
      ensures !persisted ==> store == old(store)
      ensures persisted ==> Stored(store, oldest.body.to) == Stored(old(store), oldest.body.to) + multiset{oldest.body}
      ensures forall a :: a != oldest.body.to ==> Stored(store, a) == Stored(old(store), a)
    {
      if !hasPersister {
        return false;
      }
      if !reliable {
        var fails: bool := *;
        if fails {
          return false;
        }
      }
      var id: string := *;
      var entry := OverflowEntry(id, oldest.body.to, oldest.body);
      forall a
        ensures Stored(store + [entry], a)
             == Stored(store, a) + if a == oldest.body.to then multiset{oldest.body} else multiset{}
      {
        StoredConcat(store, [entry], a);
        StoredOfOne(entry, a);
      }
      store := store + [entry];
      return true;
    }

    /** Opens the recipient's inbox if need be and makes room in it for one message. */
    method MakeRoom(to: string)
      requires Valid()
      modifies this
      ensures Valid() && to in inboxes && to in logs && |inboxes[to]| < INBOX_CAPACITY
      ensures var inbox, log := InboxIn(old(inboxes), to), LogIn(old(logs), to);
              if |inbox| >= INBOX_CAPACITY then
                && inboxes == old(inboxes)[to := inbox[1..]]
                && (logs == old(logs)[to := AfterOverflow(log, inbox[0], true)]
                    || logs == old(logs)[to := AfterOverflow(log, inbox[0], false)])
              else inboxes == old(inboxes)[to := inbox] && logs == old(logs)[to := log] && store == old(store)
    {
      hide AgentOk, Stored, AfterOverflow, WellFiled, InboxIn, LogIn, OthersSame;
      var inbox := InboxIn(inboxes, to);
      ghost var log, store0 := LogIn(logs, to), store;
      assert WellFiled(store);
      hide HubOk;
      HubAgent(inboxes, logs, initial, store, hasPersister && reliable, to);
      if |inbox| >= INBOX_CAPACITY {
        OverflowStep(to, inbox, log, Stored(initial, to), Stored(store, to));
        var persisted := PersistOverflow(inbox[0]);
        log := AfterOverflow(log, inbox[0], persisted);
        inbox := inbox[1..];
      }
      HubUpdate(inboxes, logs, initial, store0, store, hasPersister && reliable, to, inbox, log);
      inboxes := inboxes[to := inbox];
      logs := logs[to := log];
    }

    /** `deliver`; `drained` tells a message that comes back from the overflow store. */
    method Deliver(env: Envelope, ghost drained: bool) returns (ghost log: Log)
      requires Valid() && (drained ==> env.body in LogIn(logs, env.body.to).draining)
      modifies this
      ensures Valid()
      ensures var to, inbox := env.body.to, InboxIn(old(inboxes), env.body.to);
              inboxes == old(inboxes)[to := (if |inbox| >= INBOX_CAPACITY then inbox[1..] else inbox) + [env]]
      ensures logs == old(logs)[env.body.to := log] && Delivered(LogIn(old(logs), env.body.to), log, env, drained)
    {
      hide HubOk, AgentOk, Stored, AfterEnter, AfterOverflow, Delivered, WellFiled, OthersSame;
      var to := env.body.to;
      ghost var inbox0, log0 := InboxIn(inboxes, to), LogIn(logs, to);
      EnterIsDelivery(log0, inbox0, env, drained);
      MakeRoom(to);
      HubAgent(inboxes, logs, initial, store, hasPersister && reliable, to);
      HubIsFiled(inboxes, logs, initial, store, hasPersister && reliable);
      var inbox := inboxes[to] + [env];
      EnterStep(to, inboxes[to], logs[to], Stored(initial, to), Stored(store, to), env, drained);
      log := AfterEnter(logs[to], env, drained);
      HubUpdate(inboxes, logs, initial, store, store, hasPersister && reliable, to, inbox, log);
      UpdateTwice(old(inboxes), to, inboxes[to], inbox);
      UpdateTwice(old(logs), to, logs[to], log);
      inboxes := inboxes[to := inbox];
      logs := logs[to := log];
    }

    /** Consumes the oldest messages: up to limit, or all when limit is not positive. */
    method Receive(agent: string, limit: int) returns (result: seq<Envelope>)
      requires Valid()
      modifies this`inboxes, this`logs
      ensures Valid()
      ensures var inbox := InboxIn(old(inboxes), agent);
              var n := |result|;
              && n == (if 0 < limit < |inbox| then limit else |inbox|)
              && result == inbox[..n]
              && InboxIn(inboxes, agent) == inbox[n..]
              && LogIn(logs, agent) == AfterReceive(LogIn(old(logs), agent), result)
      ensures OthersSame(old(inboxes), old(logs), inboxes, logs, agent)
    {
      hide HubOk, AfterReceive, OthersSame;
      if agent !in inboxes {
        ReceiveFromNobody(inboxes, logs, agent);
        return [];
      }
      var inbox := inboxes[agent];
      var n := if limit <= 0 || limit > |inbox| then |inbox| else limit;
      result := inbox[..n];
      ghost var log := AfterReceive(LogIn(logs, agent), result);
      ReceiveKeepsHub(inboxes, logs, initial, store, hasPersister && reliable, agent, n);
      inboxes := inboxes[agent := inbox[n..]];
      logs := logs[agent := log];
    }

    /**
      The drainer: takes up to limit of the agent's entries out of the store, in an
      order of its own, or fails and takes none.
      */
    method TakeStored(agent: string, limit: int) returns (entries: Option<seq<OverflowEntry>>)
      requires Valid()
      modifies this`store, this`logs
      ensures Valid()
      ensures reliable ==> entries.Some?
      ensures entries.None? ==> store == old(store) && logs == old(logs)
      ensures entries.Some? ==>
                && |entries.value| == Min(|StoredFor(old(store), agent)|, if limit <= 0 then 100 else limit)
                && (entries.value == [] ==> store == old(store))
                && (forall e :: e in entries.value ==> e.body.to == agent)
                && Stored(old(store), agent) == Stored(store, agent) + Bodies(Envelopes(entries.value))
                && logs == AfterTaking(old(logs), agent, entries.value)
    {
      if !reliable {
        var fails: bool := *;
        if fails {
          return None;
        }
      }
      hide HubOk, Stored, StoredFor, Bodies, Envelopes, Taken, AfterTaking;
      ghost var logs0 := logs;
      var taken, rest := TakeFrom(store, agent, if limit <= 0 then 100 else limit,
        inboxes, logs, initial, hasPersister && reliable);
      logs := AfterTaking(logs0, agent, taken);
      store := rest;
      return Some(taken);
    }

    /** The store without the entries taken; the hub is as good as before. */
    static method TakeFrom(store: Store, agent: string, most: nat, ghost inboxes: Inboxes, ghost logs: Logs,
                           ghost initial: Store, ghost noLoss: bool)
      returns (taken: seq<OverflowEntry>, rest: Store)
      requires HubOk(inboxes, logs, initial, store, noLoss)
      ensures HubOk(inboxes, AfterTaking(logs, agent, taken), initial, rest, noLoss)
      ensures |taken| == Min(|StoredFor(store, agent)|, most)
      ensures Stored(store, agent) == Stored(rest, agent) + Bodies(Envelopes(taken))
      ensures (forall e :: e in taken ==> e.body.to == agent) && (taken == [] ==> rest == store)
    {
      hide HubOk, Stored, StoredFor, Bodies, Envelopes, Taken, AfterTaking;
      NothingTaken(inboxes, logs, initial, store, noLoss, agent);
      taken, rest := [], store;
      while |taken| < most
        invariant |taken| <= most && Taken(store, rest, taken, agent)
        invariant HubOk(inboxes, AfterTaking(logs, agent, taken), initial, rest, noLoss)
        decreases most - |taken|
      {
        var i := PickEntry(rest, agent);
        if i == |rest| {
          break;
        }
        TakeOne(inboxes, logs, initial, store, rest, noLoss, agent, taken, i);
        taken, rest := taken + [rest[i]], rest[..i] + rest[i + 1..];
      }
      TakenAll(store, rest, taken, agent, most);
    }

    /** Some entry of the agent, or the length of the store when there is none. */
    static method PickEntry(store: Store, agent: string) returns (i: nat)
      ensures i <= |store| && (i < |store| ==> store[i].agentID == agent)
      ensures i == |store| ==> forall e :: e in store ==> e.agentID != agent
    {
      var guess: int := *;
      if 0 <= guess < |store| && store[guess].agentID == agent {
        return guess;
      }
      i := 0;
      while i < |store| && store[i].agentID != agent
        invariant i <= |store| && forall k :: 0 <= k < i ==> store[k].agentID != agent
      {
        i := i + 1;
      }
    }

    /**
      Brings stored messages back into the inbox, as many as there are up to the
      limit; each may push out, and so store again, an older one.
      */
    method DrainOverflow(agent: string, limit: int) returns (recovered: nat)
      requires Valid()
      modifies this
      ensures Valid()
      ensures recovered == 0 || recovered == Min(|StoredFor(old(store), agent)|, if limit <= 0 then 100 else limit)
      ensures hasDrainer && reliable ==>
                recovered == Min(|StoredFor(old(store), agent)|, if limit <= 0 then 100 else limit)
      ensures !hasDrainer ==> recovered == 0
      ensures recovered == 0 ==>
                inboxes == old(inboxes) && store == old(store) && LogIn(logs, agent) == LogIn(old(logs), agent)
      ensures DrainedLog(LogIn(old(logs), agent), LogIn(logs, agent), recovered, Stored(old(store), agent))
      ensures OthersSame(old(inboxes), old(logs), inboxes, logs, agent)
    {
      hide HubOk, OthersSame, Delivered, Envelopes, Bodies, Draining, AfterTaking, InboxIn, LogIn, Stored, StoredFor,
           DrainedLog;
      DrainNothing(inboxes, logs, agent, Stored(store, agent));
      if !hasDrainer {
        return 0;
      }
      var taken := TakeStored(agent, limit);
      if taken.None? || taken.value == [] {
        DrainedNone(old(inboxes), old(logs), logs, agent);
        return 0;
      }
      var entries := taken.value;
      DrainStart(old(inboxes), old(logs), agent, entries);
      recovered := 0;
      for i := 0 to |entries|
        invariant Valid() && recovered == i
        invariant Draining(old(inboxes), old(logs), inboxes, logs, agent, entries, i)
      {
        ghost var inboxes1, logs1 := inboxes, logs;
        DrainNext(old(inboxes), old(logs), inboxes, logs, agent, entries, i);
        ghost var log := Deliver(Restored(entries[i]), true);
        DrainOneMore(old(inboxes), old(logs), inboxes1, logs1, agent, entries, i, inboxes[agent], log);
        recovered := recovered + 1;
      }
      DrainEnd(old(inboxes), old(logs), inboxes, logs, agent, entries, Stored(old(store), agent));
    }
  }

  lemma HubIsFiled(inboxes: Inboxes, logs: Logs, initial: Store, store: Store, noLoss: bool)
    requires HubOk(inboxes, logs, initial, store, noLoss)
    ensures WellFiled(store)
  {
  }

  lemma ReceiveKeepsHub(inboxes: Inboxes, logs: Logs, initial: Store, store: Store, noLoss: bool, agent: string, n: nat)
    requires HubOk(inboxes, logs, initial, store, noLoss) && agent in inboxes && n <= |inboxes[agent]|
    ensures var inbox, log := inboxes[agent][n..], AfterReceive(LogIn(logs, agent), inboxes[agent][..n]);
            && HubOk(inboxes[agent := inbox], logs[agent := log], initial, store, noLoss)
            && OthersSame(inboxes, logs, inboxes[agent := inbox], logs[agent := log], agent)
  {
    hide HubOk, AgentOk, InOrder, Stored, AfterReceive, OthersSame, WellFiled, LogIn;
    HubAgent(inboxes, logs, initial, store, noLoss, agent);
    HubIsFiled(inboxes, logs, initial, store, noLoss);
    ReceiveStep(agent, inboxes[agent], LogIn(logs, agent), Stored(initial, agent), Stored(store, agent), n);
    HubUpdate(inboxes, logs, initial, store, store, noLoss, agent, inboxes[agent][n..],
      AfterReceive(LogIn(logs, agent), inboxes[agent][..n]));
  }

  lemma ReceiveFromNobody(inboxes: Inboxes, logs: Logs, agent: string)
    ensures OthersSame(inboxes, logs, inboxes, logs, agent)
    ensures AfterReceive(LogIn(logs, agent), []) == LogIn(logs, agent)
  {
    NoBodies();
    hide Bodies;
    var log := LogIn(logs, agent);
    assert log.removed + [] == log.removed;
    assert log.received + multiset{} == log.received;
  }

  // ----- Draining -----

  /** The logs when these entries of the agent have been taken out of the store. */
  function AfterTaking(logs: Logs, agent: string, taken: seq<OverflowEntry>): Logs {
    logs[agent := Drained(LogIn(logs, agent), Bodies(Envelopes(taken)))]
  }

  lemma NothingDrained(log: Log)
    ensures Drained(log, Bodies(Envelopes([]))) == log
  {
    NoBodies();
    assert Envelopes([]) == [];
    hide Bodies;
    assert log.draining + multiset{} == log.draining;
  }

  /** Some entries of the agent have been taken out of the store. */
  ghost predicate Taken(store0: Store, store: Store, taken: seq<OverflowEntry>, agent: string) {
    && Stored(store0, agent) == Stored(store, agent) + Bodies(Envelopes(taken))
    && |StoredFor(store0, agent)| == |StoredFor(store, agent)| + |taken|
    && (forall e :: e in taken ==> e.body.to == agent)
    && (taken == [] ==> store == store0)
  }

  lemma NothingTaken(inboxes: Inboxes, logs: Logs, initial: Store, store: Store, noLoss: bool, agent: string)
    requires HubOk(inboxes, logs, initial, store, noLoss)
    ensures HubOk(inboxes, AfterTaking(logs, agent, []), initial, store, noLoss)
    ensures Taken(store, store, [], agent)
  {
    hide AgentOk, Stored, Bodies, Drained, StoredFor;
    NothingDrained(LogIn(logs, agent));
    NoBodies();
    assert Envelopes([]) == [];
    assert forall a :: LogIn(AfterTaking(logs, agent, []), a) == LogIn(logs, a);
  }

  lemma EnvelopesAppend(taken: seq<OverflowEntry>, e: OverflowEntry)
    ensures Bodies(Envelopes(taken + [e])) == Bodies(Envelopes(taken)) + multiset{e.body}
  {
    hide Bodies;
    assert Envelopes(taken + [e]) == Envelopes(taken) + [Restored(e)];
    BodiesConcat(Envelopes(taken), [Restored(e)]);
    BodiesOfOne(Restored(e));
  }

  lemma DrainedMore(log: Log, taken: seq<OverflowEntry>, e: OverflowEntry)
    ensures Drained(log, Bodies(Envelopes(taken + [e])))
            == Drained(Drained(log, Bodies(Envelopes(taken))), multiset{e.body})
  {
    EnvelopesAppend(taken, e);
    hide Bodies, Envelopes;
    assert log.draining + (Bodies(Envelopes(taken)) + multiset{e.body})
           == log.draining + Bodies(Envelopes(taken)) + multiset{e.body};
  }

  lemma TakenOneMore(store0: Store, store: Store, taken: seq<OverflowEntry>, agent: string, i: nat)
    requires Taken(store0, store, taken, agent) && i < |store| && store[i].agentID == store[i].body.to == agent
    ensures Taken(store0, store[..i] + store[i + 1..], taken + [store[i]], agent)
  {
    hide Bodies, Envelopes, StoredFor;
    StoredWithout(store, i, agent);
    StoredSize(store, agent);
    StoredSize(store[..i] + store[i + 1..], agent);
    EnvelopesAppend(taken, store[i]);
  }

  lemma StoredSize(store: Store, agent: string)
    ensures |Stored(store, agent)| == |StoredFor(store, agent)|
  {
  }

  lemma TakeOne(inboxes: Inboxes, logs0: Logs, initial: Store, store0: Store, store: Store, noLoss: bool, agent: string,
                taken: seq<OverflowEntry>, i: nat)
    requires HubOk(inboxes, AfterTaking(logs0, agent, taken), initial, store, noLoss)
             && Taken(store0, store, taken, agent)
    requires i < |store| && store[i].agentID == agent
    ensures HubOk(inboxes, AfterTaking(logs0, agent, taken + [store[i]]), initial, store[..i] + store[i + 1..], noLoss)
    ensures Taken(store0, store[..i] + store[i + 1..], taken + [store[i]], agent)
  {
    hide HubOk, Taken, Drained, Bodies, Envelopes, WellFiled;
    HubIsFiled(inboxes, AfterTaking(logs0, agent, taken), initial, store, noLoss);
    FiledWithout(store, i);
    TakenOneMore(store0, store, taken, agent, i);
    DrainedMore(LogIn(logs0, agent), taken, store[i]);
    DrainKeepsHub(inboxes, AfterTaking(logs0, agent, taken), initial, store, noLoss, i, agent);
    UpdateTwice(logs0, agent, AfterTaking(logs0, agent, taken)[agent],
      AfterTaking(logs0, agent, taken + [store[i]])[agent]);
  }

  lemma FiledWithout(store: Store, i: nat)
    requires WellFiled(store) && i < |store|
    ensures WellFiled(store[..i] + store[i + 1..]) && store[i].agentID == store[i].body.to
  {
    assert store[i] in store;
    assert forall x :: x in store[..i] + store[i + 1..] ==> x in store;
  }

  lemma DrainKeepsHub(inboxes: Inboxes, logs: Logs, initial: Store, store: Store, noLoss: bool, i: nat, agent: string)
    requires HubOk(inboxes, logs, initial, store, noLoss) && agent in logs && i < |store| && store[i].agentID == agent
    ensures HubOk(inboxes, logs[agent := Drained(logs[agent], multiset{store[i].body})], initial,
                  store[..i] + store[i + 1..], noLoss)
  {
    hide HubOk, AgentOk, Stored, Drained, InOrder, WellFiled, OthersSame, InboxIn;
    var e, rest := store[i], store[..i] + store[i + 1..];
    var log := Drained(logs[agent], multiset{e.body});
    HubAgent(inboxes, logs, initial, store, noLoss, agent);
    HubIsFiled(inboxes, logs, initial, store, noLoss);
    FiledWithout(store, i);
    forall a | a != agent
      ensures Stored(rest, a) == Stored(store, a)
    {
      StoredWithout(store, i, a);
    }
    StoredWithout(store, i, agent);
    DrainStep(agent, InboxIn(inboxes, agent), logs[agent], Stored(initial, agent), Stored(rest, agent), e.body);
    HubUpdate(inboxes, logs, initial, store, rest, noLoss, agent, InboxIn(inboxes, agent), log);
    SameInboxes(inboxes, logs[agent := log], initial, rest, noLoss, agent);
  }

  /** An absent inbox is as good as an empty one. */
  lemma SameInboxes(inboxes: Inboxes, logs: Logs, initial: Store, store: Store, noLoss: bool, agent: string)
    requires HubOk(inboxes[agent := InboxIn(inboxes, agent)], logs, initial, store, noLoss)
    ensures HubOk(inboxes, logs, initial, store, noLoss)
  {
    hide AgentOk, Stored, WellFiled;
    assert forall a :: InboxIn(inboxes[agent := InboxIn(inboxes, agent)], a) == InboxIn(inboxes, a);
  }

  lemma {:induction false} NoneStored(store: Store, agent: string)
    requires forall e :: e in store ==> e.agentID != agent
    ensures StoredFor(store, agent) == []
  {
    if store != [] {
      assert store[0] in store;
      NoneStored(store[1..], agent);
    }
  }

  lemma TakenAll(store0: Store, store: Store, taken: seq<OverflowEntry>, agent: string, most: nat)
    requires Taken(store0, store, taken, agent) && |taken| <= most
    requires |taken| == most || forall e :: e in store ==> e.agentID != agent
    ensures |taken| == Min(|StoredFor(store0, agent)|, most)
    ensures Stored(store0, agent) == Stored(store, agent) + Bodies(Envelopes(taken))
    ensures taken == [] ==> store == store0
    ensures forall e :: e in taken ==> e.body.to == agent
  {
    hide Stored, Bodies, Envelopes;
    if |taken| < most {
      NoneStored(store, agent);
    }
  }

  /** What a drain has done to the agent's log: so many more deliveries, of messages that were stored. */
  ghost predicate DrainedLog(log0: Log, log: Log, recovered: nat, stored: multiset<Body>) {
    && log.accepted == log0.accepted && log.received == log0.received && log.draining == log0.draining
    && |log.delivered| == |log0.delivered| + recovered
    && log.delivered[..|log0.delivered|] == log0.delivered
    && Bodies(log.delivered[|log0.delivered|..]) <= stored
  }

  /** The first i entries have been delivered again; the others are still to come. */
  predicate HalfDrained(log0: Log, log: Log, entries: seq<OverflowEntry>, i: nat) {
    && i <= |entries|
    && log.accepted == log0.accepted && log.received == log0.received
    && log.draining == log0.draining + Bodies(Envelopes(entries[i..]))
    && log.delivered == log0.delivered + Envelopes(entries[..i])
  }

  /** DrainOverflow on its way: nobody else touched. */
  ghost predicate Draining(inboxes0: Inboxes, logs0: Logs, inboxes: Inboxes, logs: Logs, agent: string,
                           entries: seq<OverflowEntry>, i: nat)
  {
    && HalfDrained(LogIn(logs0, agent), LogIn(logs, agent), entries, i)
    && OthersSame(inboxes0, logs0, inboxes, logs, agent)
    && forall e :: e in entries ==> e.body.to == agent
  }

  lemma DrainNothing(inboxes: Inboxes, logs: Logs, agent: string, stored: multiset<Body>)
    ensures OthersSame(inboxes, logs, inboxes, logs, agent)
    ensures DrainedLog(LogIn(logs, agent), LogIn(logs, agent), 0, stored)
  {
    NoBodies();
    hide Bodies;
    var d := LogIn(logs, agent).delivered;
    assert d[|d|..] == [];
  }

  lemma DrainedNone(inboxes: Inboxes, logs0: Logs, logs: Logs, agent: string)
    requires logs == logs0 || logs == AfterTaking(logs0, agent, [])
    ensures LogIn(logs, agent) == LogIn(logs0, agent)
    ensures OthersSame(inboxes, logs0, inboxes, logs, agent)
  {
    NothingDrained(LogIn(logs0, agent));
    hide Bodies, Envelopes, Drained;
  }

  lemma DrainStart(inboxes: Inboxes, logs: Logs, agent: string, entries: seq<OverflowEntry>)
    requires forall e :: e in entries ==> e.body.to == agent
    ensures Draining(inboxes, logs, inboxes, AfterTaking(logs, agent, entries), agent, entries, 0)
  {
    hide Bodies;
    assert entries[0..] == entries && Envelopes(entries[..0]) == [];
    var d := LogIn(logs, agent).delivered;
    assert d + [] == d;
  }

  lemma DrainNext(inboxes0: Inboxes, logs0: Logs, inboxes: Inboxes, logs: Logs, agent: string,
                  entries: seq<OverflowEntry>, i: nat)
    requires Draining(inboxes0, logs0, inboxes, logs, agent, entries, i) && i < |entries|
    ensures entries[i].body.to == agent && entries[i].body in LogIn(logs, agent).draining
  {
    hide Bodies, OthersSame;
    BodiesPop(Envelopes(entries[i..]));
    assert entries[i..][0] == entries[i];
  }

  lemma DrainOneMore(inboxes0: Inboxes, logs0: Logs, inboxes: Inboxes, logs: Logs, agent: string,
                     entries: seq<OverflowEntry>, i: nat, inbox: seq<Envelope>, log: Log)
    requires Draining(inboxes0, logs0, inboxes, logs, agent, entries, i) && i < |entries|
    requires Delivered(LogIn(logs, agent), log, Restored(entries[i]), true)
    ensures Draining(inboxes0, logs0, inboxes[agent := inbox], logs[agent := log], agent, entries, i + 1)
  {
    hide HalfDrained, Delivered, OthersSame;
    HalfDrainedOneMore(LogIn(logs0, agent), LogIn(logs, agent), entries, i, log);
    OthersStaySame(inboxes0, logs0, inboxes, logs, agent, inbox, log);
  }

  lemma OthersStaySame(inboxes0: Inboxes, logs0: Logs, inboxes: Inboxes, logs: Logs, agent: string,
                       inbox: seq<Envelope>, log: Log)
    requires OthersSame(inboxes0, logs0, inboxes, logs, agent)
    ensures OthersSame(inboxes0, logs0, inboxes[agent := inbox], logs[agent := log], agent)
  {
  }

  lemma HalfDrainedOneMore(log0: Log, log: Log, entries: seq<OverflowEntry>, i: nat, log': Log)
    requires HalfDrained(log0, log, entries, i) && i < |entries|
    requires Delivered(log, log', Restored(entries[i]), true)
    ensures HalfDrained(log0, log', entries, i + 1)
  {
    hide Bodies;
    var m, rest := Restored(entries[i]), Envelopes(entries[i + 1..]);
    BodiesPop(Envelopes(entries[i..]));
    assert Envelopes(entries[i..])[1..] == rest;
    assert log.draining == log0.draining + Bodies(rest) + multiset{m.body};
    assert Envelopes(entries[..i + 1]) == Envelopes(entries[..i]) + [m];
    ConcatAssociates(log0.delivered, Envelopes(entries[..i]), [m]);
  }

  lemma DrainEnd(inboxes0: Inboxes, logs0: Logs, inboxes: Inboxes, logs: Logs, agent: string,
                 entries: seq<OverflowEntry>, stored: multiset<Body>)
    requires Draining(inboxes0, logs0, inboxes, logs, agent, entries, |entries|)
    requires Bodies(Envelopes(entries)) <= stored
    ensures DrainedLog(LogIn(logs0, agent), LogIn(logs, agent), |entries|, stored)
    ensures OthersSame(inboxes0, logs0, inboxes, logs, agent)
  {
    NoBodies();
    hide Bodies, OthersSame;
    assert Envelopes(entries[|entries|..]) == [] && entries[..|entries|] == entries;
    var d := LogIn(logs0, agent).delivered;
    assert (d + Envelopes(entries))[|d|..] == Envelopes(entries);
  }

  /**
    What a valid hub means for an agent: its inbox is bounded; removals followed by
    the inbox are the deliveries, in order; and when storing always works, every
    message stored at first or accepted is received, in the inbox, stored or being
    brought back.
    */
  lemma NothingIsLost(inboxes: Inboxes, logs: Logs, initial: Store, store: Store, agent: string)
    requires HubOk(inboxes, logs, initial, store, true)
    ensures var inbox, log := InboxIn(inboxes, agent), LogIn(logs, agent);
            && |inbox| <= INBOX_CAPACITY
            && log.removed + inbox == log.delivered
            && Stored(initial, agent) + log.accepted
               == log.received + Bodies(inbox) + Stored(store, agent) + log.draining
  {
    HubAgent(inboxes, logs, initial, store, true, agent);
    hide HubOk, Bodies, Stored;
  }

  lemma EnterIsDelivery(log: Log, inbox: seq<Envelope>, m: Envelope, drained: bool)
    ensures Delivered(log, AfterEnter(log, m, drained), m, drained)
    ensures AfterEnter(log, m, drained).lost == log.lost
    ensures inbox != [] ==> forall p: bool ::
              var log' := AfterOverflow(log, inbox[0], p);
              && Delivered(log, AfterEnter(log', m, drained), m, drained)
              && log'.draining == log.draining && AfterEnter(log', m, drained).lost == log'.lost
  {
  }

  /** What a delivery does to the recipient's log, whether or not it pushed another message out. */
  predicate Delivered(log: Log, log': Log, m: Envelope, drained: bool) {
    && log'.delivered == log.delivered + [m]
    && log'.received == log.received
    && log'.accepted == log.accepted + (if drained then multiset{} else multiset{m.body})
    && log'.draining == log.draining - (if drained then multiset{m.body} else multiset{})
  }

  // ----- Whole runs -----

  datatype Request =
    | DeliverRequest(env: Envelope)
    | ReceiveRequest(agent: string, limit: int)
    | DrainRequest(agent: string, limit: int)

  /** The messages sent to an agent, in order. */
  function SentTo(requests: seq<Request>, agent: string): seq<Envelope> {
    if requests == [] then []
    else
      var last := requests[|requests| - 1];
      SentTo(requests[..|requests| - 1], agent)
      + if last.DeliverRequest? && last.env.body.to == agent then [last.env] else []
  }

  /** The messages an agent got in reply to its requests, in order. */
  function GotBy(requests: seq<Request>, replies: seq<seq<Envelope>>, agent: string): seq<Envelope>
    requires |replies| == |requests|
  {
    if requests == [] then []
    else
      var n := |requests| - 1;
      GotBy(requests[..n], replies[..n], agent)
      + if requests[n].ReceiveRequest? && requests[n].agent == agent then replies[n] else []
  }

  /** The logs say what was asked and answered. */
  ghost predicate Tallied(logs: Logs, requests: seq<Request>, replies: seq<seq<Envelope>>, hasDrainer: bool) {
    && |replies| == |requests|
    && forall a :: AgentTallied(LogIn(logs, a), SentTo(requests, a), GotBy(requests, replies, a), hasDrainer)
  }

  predicate AgentTallied(log: Log, sent: seq<Envelope>, got: seq<Envelope>, hasDrainer: bool) {
    && log.accepted == Bodies(sent) && log.received == Bodies(got) && log.draining == multiset{}
    && (!hasDrainer ==> log.delivered == sent)
  }

  lemma NothingTallied(hasDrainer: bool)
    ensures Tallied(map[], [], [], hasDrainer)
  {
    NoBodies();
    hide Bodies;
  }

  lemma TallyStep(logs: Logs, logs': Logs, requests: seq<Request>, replies: seq<seq<Envelope>>, hasDrainer: bool,
                  request: Request, reply: seq<Envelope>)
    requires Tallied(logs, requests, replies, hasDrainer)
    requires forall a ::
               AgentTallied(LogIn(logs', a),
                 SentTo(requests, a)
                 + (if request.DeliverRequest? && request.env.body.to == a then [request.env] else []),
                 GotBy(requests, replies, a)
                 + (if request.ReceiveRequest? && request.agent == a then reply else []), hasDrainer)
    ensures Tallied(logs', requests + [request], replies + [reply], hasDrainer)
  {
    hide AgentTallied, LogIn;
    var longer, answers := requests + [request], replies + [reply];
    assert longer[..|requests|] == requests && answers[..|replies|] == replies;
  }

  lemma SentMore(log: Log, log': Log, sent: seq<Envelope>, got: seq<Envelope>, hasDrainer: bool, m: Envelope)
    requires AgentTallied(log, sent, got, hasDrainer) && Delivered(log, log', m, false)
    ensures AgentTallied(log', sent + [m], got, hasDrainer)
  {
    hide Bodies;
    BodiesConcat(sent, [m]);
    BodiesOfOne(m);
  }

  lemma GotMore(log: Log, sent: seq<Envelope>, got: seq<Envelope>, hasDrainer: bool, taken: seq<Envelope>)
    requires AgentTallied(log, sent, got, hasDrainer)
    ensures AgentTallied(AfterReceive(log, taken), sent, got + taken, hasDrainer)
  {
    hide Bodies;
    BodiesConcat(got, taken);
  }

  lemma TallyDeliver(logs: Logs, requests: seq<Request>, replies: seq<seq<Envelope>>, hasDrainer: bool, env: Envelope,
                     log: Log)
    requires Tallied(logs, requests, replies, hasDrainer) && Delivered(LogIn(logs, env.body.to), log, env, false)
    ensures Tallied(logs[env.body.to := log], requests + [DeliverRequest(env)], replies + [[]], hasDrainer)
  {
    var to := env.body.to;
    SentMore(LogIn(logs, to), log, SentTo(requests, to), GotBy(requests, replies, to), hasDrainer, env);
    hide AgentTallied, Delivered, SentTo, GotBy;
    assert forall s: seq<Envelope> :: s + [] == s;
    TallyStep(logs, logs[to := log], requests, replies, hasDrainer, DeliverRequest(env), []);
  }

  lemma TallyReceive(inboxes: Inboxes, logs: Logs, inboxes': Inboxes, logs': Logs, requests: seq<Request>,
                     replies: seq<seq<Envelope>>, hasDrainer: bool, agent: string, limit: int, reply: seq<Envelope>)
    requires Tallied(logs, requests, replies, hasDrainer)
    requires LogIn(logs', agent) == AfterReceive(LogIn(logs, agent), reply)
    requires OthersSame(inboxes, logs, inboxes', logs', agent)
    ensures Tallied(logs', requests + [ReceiveRequest(agent, limit)], replies + [reply], hasDrainer)
  {
    GotMore(LogIn(logs, agent), SentTo(requests, agent), GotBy(requests, replies, agent), hasDrainer, reply);
    hide AgentTallied, SentTo, GotBy, LogIn, InboxIn, AfterReceive;
    assert forall s: seq<Envelope> :: s + [] == s;
    TallyStep(logs, logs', requests, replies, hasDrainer, ReceiveRequest(agent, limit), reply);
  }

  lemma TallyDrain(inboxes: Inboxes, logs: Logs, inboxes': Inboxes, logs': Logs, requests: seq<Request>,
                   replies: seq<seq<Envelope>>, hasDrainer: bool, agent: string, limit: int,
                   recovered: nat, stored: multiset<Body>)
    requires Tallied(logs, requests, replies, hasDrainer)
    requires DrainedLog(LogIn(logs, agent), LogIn(logs', agent), recovered, stored) && (!hasDrainer ==> recovered == 0)
    requires OthersSame(inboxes, logs, inboxes', logs', agent)
    ensures Tallied(logs', requests + [DrainRequest(agent, limit)], replies + [[]], hasDrainer)
  {
    DrainTallied(LogIn(logs, agent), LogIn(logs', agent), SentTo(requests, agent), GotBy(requests, replies, agent),
      hasDrainer, recovered, stored);
    hide AgentTallied, SentTo, GotBy, LogIn, InboxIn, DrainedLog;
    forall a
      ensures AgentTallied(LogIn(logs', a), SentTo(requests, a) + [], GotBy(requests, replies, a) + [], hasDrainer)
    {
      assert SentTo(requests, a) + [] == SentTo(requests, a)
             && GotBy(requests, replies, a) + [] == GotBy(requests, replies, a);
      if a != agent {
        assert AgentTallied(LogIn(logs, a), SentTo(requests, a), GotBy(requests, replies, a), hasDrainer);
      }
    }
    TallyStep(logs, logs', requests, replies, hasDrainer, DrainRequest(agent, limit), []);
  }

  lemma DrainTallied(log: Log, log': Log, sent: seq<Envelope>, got: seq<Envelope>, hasDrainer: bool, recovered: nat,
                     stored: multiset<Body>)
    requires AgentTallied(log, sent, got, hasDrainer)
    requires DrainedLog(log, log', recovered, stored) && (!hasDrainer ==> recovered == 0)
    ensures AgentTallied(log', sent, got, hasDrainer)
  {
    hide Bodies;
    assert recovered == 0 ==> log'.delivered[..|log.delivered|] == log'.delivered;
  }

  /**
    A hub started over any store, then any requests in any order.  Per agent: the
    inbox is bounded; what left it, followed by what is in it, is all that was
    delivered to it, in order, which without a drainer is all that was sent; and when
    storing always works, the messages stored at first and those sent are together
    those the agent got, those in its inbox and those stored at last.
    */
  method RunHub(hasPersister: bool, hasDrainer: bool, reliable: bool, store: Store, requests: seq<Request>)
    returns (hub: CommHub, replies: seq<seq<Envelope>>)
    requires WellFiled(store)
    ensures |replies| == |requests| && hub.Valid()
    ensures forall a ::
              var inbox, log := InboxIn(hub.inboxes, a), LogIn(hub.logs, a);
              && |inbox| <= INBOX_CAPACITY
              && log.removed + inbox == log.delivered
              && (!hasDrainer ==> log.delivered == SentTo(requests, a))
              && (hasPersister && reliable ==>
                   Stored(store, a) + Bodies(SentTo(requests, a))
                   == Bodies(GotBy(requests, replies, a)) + Bodies(inbox) + Stored(hub.store, a))
  {
    hub := new CommHub(hasPersister, hasDrainer, reliable, store);
    replies := [];
    NothingTallied(hasDrainer);
    hide HubOk, Tallied, Stored, StoredFor, Bodies, AfterReceive, DrainedLog, OthersSame, Delivered, InboxIn, LogIn,
         SentTo, GotBy;
    for i := 0 to |requests|
      invariant fresh(hub) && hub.Valid() && hub.initial == store
      invariant hub.hasPersister == hasPersister && hub.hasDrainer == hasDrainer && hub.reliable == reliable
      invariant Tallied(hub.logs, requests[..i], replies, hasDrainer)
    {
      assert requests[..i + 1] == requests[..i] + [requests[i]];
      ghost var inboxes, logs := hub.inboxes, hub.logs;
      match requests[i] {
        case DeliverRequest(env) =>
          ghost var log := hub.Deliver(env, false);
          TallyDeliver(logs, requests[..i], replies, hasDrainer, env, log);
          replies := replies + [[]];
        case ReceiveRequest(agent, limit) =>
          var reply := hub.Receive(agent, limit);
          TallyReceive(inboxes, logs, hub.inboxes, hub.logs, requests[..i], replies, hasDrainer, agent, limit, reply);
          replies := replies + [reply];
        case DrainRequest(agent, limit) =>
          ghost var stored := Stored(hub.store, agent);
          var recovered := hub.DrainOverflow(agent, limit);
          TallyDrain(inboxes, logs, hub.inboxes, hub.logs, requests[..i], replies,
            hasDrainer, agent, limit, recovered, stored);
          replies := replies + [[]];
      }
    }
    assert requests[..|requests|] == requests;
    forall a
      ensures var inbox, log := InboxIn(hub.inboxes, a), LogIn(hub.logs, a);
              && |inbox| <= INBOX_CAPACITY
              && log.removed + inbox == log.delivered
              && (!hasDrainer ==> log.delivered == SentTo(requests, a))
              && (hasPersister && reliable ==>
                   Stored(store, a) + Bodies(SentTo(requests, a))
                   == Bodies(GotBy(requests, replies, a)) + Bodies(inbox) + Stored(hub.store, a))
    {
      RunIsTallied(hub.inboxes, hub.logs, store, hub.store, hasPersister && reliable, requests, replies, hasDrainer, a);
    }
  }

  lemma RunIsTallied(inboxes: Inboxes, logs: Logs, initial: Store, store: Store, noLoss: bool, requests: seq<Request>,
                     replies: seq<seq<Envelope>>, hasDrainer: bool, agent: string)
    requires HubOk(inboxes, logs, initial, store, noLoss) && Tallied(logs, requests, replies, hasDrainer)
    ensures |replies| == |requests|
    ensures var inbox, log := InboxIn(inboxes, agent), LogIn(logs, agent);
            && |inbox| <= INBOX_CAPACITY
            && log.removed + inbox == log.delivered
            && (!hasDrainer ==> log.delivered == SentTo(requests, agent))
            && (noLoss ==>
                 Stored(initial, agent) + Bodies(SentTo(requests, agent))
                 == Bodies(GotBy(requests, replies, agent)) + Bodies(inbox) + Stored(store, agent))
  {
    assert AgentTallied(LogIn(logs, agent), SentTo(requests, agent), GotBy(requests, replies, agent), hasDrainer);
    HubAgent(inboxes, logs, initial, store, noLoss, agent);
    if noLoss {
      NothingIsLost(inboxes, logs, initial, store, agent);
    }
    hide HubOk, Tallied, AgentOk, Bodies, Stored, SentTo, GotBy, InboxIn, LogIn;
  }
}
