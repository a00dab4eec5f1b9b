/**
  The debouncer of internal/index/watcher.go, as a protocol.

  Stopping a Go timer does not stop a callback that has already fired: it may be
  waiting for the mutex.  A timer is therefore followed through all its stages,
  and a run is any interleaving of file events, the clock, timers firing, the two
  parts of a callback (under the mutex, and the channel send after it), the
  receiving loop, and the shutdown.
  */
module IndexWatcher {
  import opened Collections
  import opened Strings

  /** Milliseconds. */
  const DEBOUNCE_DURATION: int := 500
  const DISPATCH_CHAN_SIZE: nat := 256

  datatype Kind = Created | Modified | Deleted | Renamed

  datatype Msg = Msg(path: string, kind: Kind)

  /** Armed, then Waiting once fired; Sending between the mutex and the send. */
  datatype Stage = Armed | Stopped | Waiting | Sending(kind: Kind) | Done

  datatype Timer = Timer(path: string, deadline: int, stage: Stage)

  /** Record: an event was noted.  Take: a callback took the pending event to dispatch it. */
  datatype Entry =
    | Record(path: string, kind: Kind, at: int)
    | Take(path: string, kind: Kind, at: int, current: bool)

  /**
    `accepted` is what the channel took and `received` what the loop got of it; `dropped`
    is what found the channel full, with how many messages were `waiting` there.  Timer k
    was started for the entry `born[k]` of the log, and fired when it had `fired[k]`.
    */
  datatype State = State(
    timers: map<string, nat>,
    pending: map<string, Kind>,
    started: seq<Timer>,
    channel: seq<Msg>,
    clock: int,
    closed: bool,
    log: seq<Entry>,
    received: seq<Msg>,
    dropped: seq<Msg>,
    waiting: seq<nat>,
    accepted: seq<Msg>,
    born: seq<nat>,
    fired: seq<nat>)

  function Init(clock: int): State { State(map[], map[], [], [], clock, false, [], [], [], [], [], [], []) }

  // ----- Steps -----

  /** time.Timer.Stop: too late once the timer has fired. */
  function StopTimer(started: seq<Timer>, k: nat): seq<Timer>
    requires k < |started|
  {
    if started[k].stage.Armed? then started[k := started[k].(stage := Stopped)] else started
  }

  predicate TimersExist(s: State) {
    forall p :: p in s.timers ==> s.timers[p] < |s.started|
  }

  /** `debounce`. */
  function AfterEvent(s: State, path: string, kind: Kind): State
    requires TimersExist(s)
  {
    var stopped := if path in s.timers then StopTimer(s.started, s.timers[path]) else s.started;
    s.(pending := s.pending[path := kind],
       timers := s.timers[path := |s.started|],
       started := stopped + [Timer(path, s.clock + DEBOUNCE_DURATION, Armed)],
       log := s.log + [Record(path, kind, s.clock)],
       born := s.born + [|s.log|], fired := s.fired + [0])
  }

  function AfterFire(s: State, k: nat): State
    requires k < |s.started|
  {
    s.(started := s.started[k := s.started[k].(stage := Waiting)],
       fired := if k < |s.fired| then s.fired[k := |s.log|] else s.fired)
  }

  /** The part of the timer callback that holds the mutex. */
  function AfterTake(s: State, k: nat): State
    requires k < |s.started|
  {
    var path := s.started[k].path;
    var s' := s.(pending := s.pending - {path}, timers := s.timers - {path});
    if path !in s.pending then s'.(started := s.started[k := s.started[k].(stage := Done)])
    else
      var current := path in s.timers && s.timers[path] == k;
      s'.(started := s.started[k := s.started[k].(stage := Sending(s.pending[path]))],
          log := s.log + [Take(path, s.pending[path], s.clock, current)])
  }

  /** The non-blocking send after it. */
  function AfterSend(s: State, k: nat): State
    requires k < |s.started| && s.started[k].stage.Sending?
  {
    var msg := Msg(s.started[k].path, s.started[k].stage.kind);
    var s' := s.(started := s.started[k := s.started[k].(stage := Done)]);
    if |s.channel| < DISPATCH_CHAN_SIZE then s'.(channel := s.channel + [msg], accepted := s.accepted + [msg])
    else s'.(dropped := s.dropped + [msg], waiting := s.waiting + [|s.channel|])
  }

  function AfterReceive(s: State): State
    requires s.channel != []
  {
    s.(channel := s.channel[1..], received := s.received + [s.channel[0]])
  }

  predicate Listed(timers: map<string, nat>, path: string, k: nat) {
    path in timers && timers[path] == k
  }

  function StopListed(started: seq<Timer>, timers: map<string, nat>): (r: seq<Timer>)
    ensures |r| == |started|
  {
    seq(|started|, k requires 0 <= k < |started| =>
      if Listed(timers, started[k].path, k) && started[k].stage.Armed? then started[k].(stage := Stopped)
      else started[k])
  }

  lemma StopListedOneMore(started: seq<Timer>, timers: map<string, nat>, path: string, k: nat)
    requires k < |started| && started[k].path == path && path !in timers
    ensures StopListed(started, timers[path := k]) == StopTimer(StopListed(started, timers), k)
  {
  }

  function Without(pending: map<string, Kind>, timers: map<string, nat>): map<string, Kind> {
    pending - timers.Keys
  }

  lemma WithoutOneMore(pending: map<string, Kind>, timers: map<string, nat>, path: string, k: nat)
    ensures Without(pending, timers[path := k]) == Without(pending, timers) - {path}
  {
    assert timers[path := k].Keys == timers.Keys + {path};
  }

  /** `cleanupTimers`: stops the listed timers and forgets their paths. */
  function AfterCleanup(s: State): State {
    s.(started := StopListed(s.started, s.timers), pending := Without(s.pending, s.timers),
       timers := map[], closed := true)
  }

  // ----- The watcher itself -----

  class IndexWatcher {
    var timers: map<string, nat>
    var pending: map<string, Kind>
    /** Every timer started so far; `timers` refers to them by number. */
    var started: seq<Timer>
    var dispatch: seq<Msg>
    var clock: int
    /** What has happened so far; its other fields are not used. */
    ghost var trace: State

    ghost function Value(): State
      reads this
    {
      trace.(timers := timers, pending := pending, started := started, channel := dispatch, clock := clock)
    }

    constructor (clock: int)
      ensures Value() == Init(clock)
    {
      timers, pending, started, dispatch, this.clock := map[], map[], [], [], clock;
      trace := Init(clock);
    }

    method Stop(k: nat)
      requires k < |started|
      modifies this`started
      ensures started == StopTimer(old(started), k)
    {
      if started[k].stage.Armed? {
        started := started[k := started[k].(stage := Stopped)];
      }
    }

    method Debounce(absPath: string, kind: Kind)
      requires TimersExist(Value())
      modifies this
      ensures Value() == AfterEvent(old(Value()), absPath, kind)
    {
      if absPath in timers {
        Stop(timers[absPath]);
      }
      pending := pending[absPath := kind];
      timers := timers[absPath := |started|];
      started := started + [Timer(absPath, clock + DEBOUNCE_DURATION, Armed)];
      trace := trace.(log := trace.log + [Record(absPath, kind, clock)],
                      born := trace.born + [|trace.log|], fired := trace.fired + [0]);
    }

    /** The callback of timer k while it holds the mutex; reports whether it found an event. */
    method TakePending(k: nat) returns (ok: bool)
      requires k < |started|
      modifies this
      ensures Value() == AfterTake(old(Value()), k)
      ensures ok <==> started[k].path in old(pending)
    {
      var absPath := started[k].path;
      ghost var current := absPath in timers && timers[absPath] == k;
      ok := absPath in pending;
      var stage := if ok then Sending(pending[absPath]) else Done;
      if ok {
        trace := trace.(log := trace.log + [Take(absPath, pending[absPath], clock, current)]);
      }
      pending := pending - {absPath};
      timers := timers - {absPath};
      started := started[k := started[k].(stage := stage)];
    }

    /** The rest of the callback: send, or drop when the channel is full. */
    method TrySend(k: nat)
      requires k < |started| && started[k].stage.Sending?
      modifies this
      ensures Value() == AfterSend(old(Value()), k)
    {
      var msg := Msg(started[k].path, started[k].stage.kind);
      if |dispatch| < DISPATCH_CHAN_SIZE {
        dispatch, trace := dispatch + [msg], trace.(accepted := trace.accepted + [msg]);
      } else {
        trace := trace.(dropped := trace.dropped + [msg], waiting := trace.waiting + [|dispatch|]);
      }
      started := started[k := started[k].(stage := Done)];
    }

    method StopAndForget(path: string)
      requires path in timers && timers[path] < |started|
      modifies this`started, this`timers, this`pending
      ensures started == StopTimer(old(started), old(timers)[path])
      ensures timers == old(timers) - {path} && pending == old(pending) - {path}
    {
      Stop(timers[path]);
      timers := timers - {path};
      pending := pending - {path};
    }

    /** Visits the listed timers in any order. */
    method StopAll(ghost s0: State)
      requires Cleaned(s0, timers, started, pending)
      modifies this`started, this`timers, this`pending
      ensures timers == map[] && Cleaned(s0, map[], started, pending)
    {
      hide *;
      while timers.Keys != {}
        invariant Cleaned(s0, timers, started, pending)
        decreases |timers.Keys|
      {
        ghost var some := Pick(timers.Keys);
        var path :| path in timers.Keys;
        CleanedOneMore(s0, timers, started, pending, path);
        StopAndForget(path);
      }
    }

    method CleanupTimers()
      requires TimersExist(Value())
      requires forall p :: p in timers ==> started[timers[p]].path == p
      modifies this
      ensures Value() == AfterCleanup(old(Value()))
    {
      ghost var s0 := Value();
      CleanedAtFirst(s0);
      hide Cleaned, AfterCleanup;
      StopAll(s0);
      CleanedAtLast(s0, started, pending);
      trace := trace.(closed := true);
    }
  }

  /** All timers but those still in `timers` have been stopped, and their paths forgotten. */
  ghost predicate Cleaned(s: State, timers: map<string, nat>, started: seq<Timer>, pending: map<string, Kind>) {
    var done := s.timers - timers.Keys;
    && (forall p :: p in timers ==> p in s.timers && timers[p] == s.timers[p])
    && TimersExist(s) && (forall p :: p in s.timers ==> s.started[s.timers[p]].path == p)
    && started == StopListed(s.started, done)
    && pending == Without(s.pending, done)
  }

  lemma CleanedAtFirst(s: State)
    requires TimersExist(s) && forall p :: p in s.timers ==> s.started[s.timers[p]].path == p
    ensures Cleaned(s, s.timers, s.started, s.pending)
  {
    assert s.timers - s.timers.Keys == map[];
    assert StopListed(s.started, map[]) == s.started;
  }

  lemma CleanedOneMore(s: State, timers: map<string, nat>, started: seq<Timer>, pending: map<string, Kind>,
                       path: string)
    requires Cleaned(s, timers, started, pending) && path in timers
    ensures timers[path] < |started|
    ensures Cleaned(s, timers - {path}, StopTimer(started, timers[path]), pending - {path})
    ensures |(timers - {path}).Keys| < |timers.Keys|
  {
    var done := s.timers - timers.Keys;
    assert s.timers - (timers - {path}).Keys == done[path := timers[path]];
    StopListedOneMore(s.started, done, path, timers[path]);
    WithoutOneMore(s.pending, done, path, timers[path]);
    assert timers.Keys == (timers - {path}).Keys + {path};
  }

  lemma CleanedAtLast(s: State, started: seq<Timer>, pending: map<string, Kind>)
    requires Cleaned(s, map[], started, pending)
    ensures AfterCleanup(s) == s.(started := started, pending := pending, timers := map[], closed := true)
  {
    var none: map<string, nat> := map[];
    assert s.timers - none.Keys == s.timers;
  }

  // ----- Runs -----

  datatype Step =
    | Event(path: string, kind: Kind)
    | Wait(ms: nat)
    | Fire(k: nat)
    | TakeStep(k: nat)
    | SendStep(k: nat)
    | Receive
    | Cleanup

  predicate Enabled(s: State, step: Step) {
    match step
    case Event(_, _) => !s.closed && TimersExist(s)
    case Wait(_) => true
    case Fire(k) => k < |s.started| && s.started[k].stage.Armed? && s.started[k].deadline <= s.clock
    case TakeStep(k) => k < |s.started| && s.started[k].stage.Waiting?
    case SendStep(k) => k < |s.started| && s.started[k].stage.Sending?
    case Receive => !s.closed && s.channel != []
    case Cleanup => !s.closed
  }

  function Apply(s: State, step: Step): State
    requires Enabled(s, step)
  {
    match step
    case Event(path, kind) => AfterEvent(s, path, kind)
    case Wait(ms) => s.(clock := s.clock + ms)
    case Fire(k) => AfterFire(s, k)
    case TakeStep(k) => AfterTake(s, k)
    case SendStep(k) => AfterSend(s, k)
    case Receive => AfterReceive(s)
    case Cleanup => AfterCleanup(s)
  }

  predicate Feasible(s: State, steps: seq<Step>)
    decreases |steps|
  {
    steps != [] ==> Enabled(s, steps[0]) && Feasible(Apply(s, steps[0]), steps[1..])
  }

  function Exec(s: State, steps: seq<Step>): State
    requires Feasible(s, steps)
    decreases |steps|
  {
    if steps == [] then s else Exec(Apply(s, steps[0]), steps[1..])
  }

  // ----- What the log says -----

  /** The last entry about a path. */
  function LastFor(log: seq<Entry>, p: string): Option<Entry> {
    if log == [] then None
    else if log[|log| - 1].path == p then Some(log[|log| - 1])
    else LastFor(log[..|log| - 1], p)
  }

  lemma LastForAppend(log: seq<Entry>, e: Entry)
    ensures forall p :: LastFor(log + [e], p) == if e.path == p then Some(e) else LastFor(log, p)
  {
    assert (log + [e])[..|log|] == log;
  }

  lemma {:induction false} LastForIsLast(log: seq<Entry>, p: string)
    ensures LastFor(log, p).None? ==> forall i :: 0 <= i < |log| ==> log[i].path != p
    ensures LastFor(log, p).Some? ==>
              exists m :: 0 <= m < |log| && log[m] == LastFor(log, p).value && log[m].path == p
                          && forall i :: m < i < |log| ==> log[i].path != p
  {
    if log != [] && log[|log| - 1].path != p {
      var front := log[..|log| - 1];
      LastForIsLast(front, p);
      if LastFor(front, p).Some? {
        var m :| 0 <= m < |front| && front[m] == LastFor(front, p).value && front[m].path == p
                 && forall i :: m < i < |front| ==> front[i].path != p;
        assert log[m] == front[m];
        forall i | m < i < |log|
          ensures log[i].path != p
        {
          if i < |log| - 1 {
            assert log[i] == front[i];
          }
        }
      }
    } else if log != [] {
      assert log[|log| - 1] == LastFor(log, p).value;
    }
  }

  /**
    What a callback takes is the latest event recorded for its path; and if the
    callback belongs to the path's current timer, the path has been quiet for the
    debounce duration.
    */
  predicate TakesLatest(before: seq<Entry>, e: Entry) {
    e.Take? ==>
      var last := LastFor(before, e.path);
      && last.Some? && last.value.Record? && last.value.kind == e.kind
      && (e.current ==> last.value.at + DEBOUNCE_DURATION <= e.at)
  }

  ghost predicate WellFormedLog(log: seq<Entry>) {
    forall i :: 0 <= i < |log| ==> TakesLatest(log[..i], log[i])
  }

  lemma WellFormedAppend(log: seq<Entry>, e: Entry)
    requires WellFormedLog(log) && TakesLatest(log, e)
    ensures WellFormedLog(log + [e])
  {
    var more := log + [e];
    forall i | 0 <= i < |more|
      ensures TakesLatest(more[..i], more[i])
    {
      assert more[..i] == if i < |log| then log[..i] else log;
    }
  }

  /** Between two dispatches for a path there is a new event for it. */
  lemma TakesAlternateWithEvents(log: seq<Entry>, i: nat, j: nat)
    requires WellFormedLog(log) && i < j < |log|
    requires log[i].Take? && log[j].Take? && log[i].path == log[j].path
    ensures exists m :: i < m < j && log[m].Record? && log[m].path == log[i].path
  {
    var p, before := log[i].path, log[..j];
    assert TakesLatest(before, log[j]);
    LastForIsLast(before, p);
    var m :| 0 <= m < |before| && before[m] == LastFor(before, p).value && before[m].path == p
             && forall k :: m < k < |before| ==> before[k].path != p;
    assert before[i] == log[i] && before[m] == log[m];
  }

  // ----- Messages, counted one message at a time -----

  function Count(msgs: seq<Msg>, m: Msg): nat {
    if msgs == [] then 0 else Count(msgs[1..], m) + (if msgs[0] == m then 1 else 0)
  }

  function Taken(log: seq<Entry>, m: Msg): nat {
    if log == [] then 0
    else
      var e := log[|log| - 1];
      Taken(log[..|log| - 1], m) + (if e.Take? && Msg(e.path, e.kind) == m then 1 else 0)
  }

  function Own(t: Timer, m: Msg): nat {
    if t.stage.Sending? && Msg(t.path, t.stage.kind) == m then 1 else 0
  }

  /** How often m has been taken by a callback that has not yet tried to send it. */
  function InFlight(started: seq<Timer>, m: Msg): nat {
    if started == [] then 0 else InFlight(started[..|started| - 1], m) + Own(started[|started| - 1], m)
  }

  lemma {:induction false} CountAppend(msgs: seq<Msg>, x: Msg, m: Msg)
    ensures Count(msgs + [x], m) == Count(msgs, m) + (if x == m then 1 else 0)
  {
    if msgs != [] {
      CountAppend(msgs[1..], x, m);
      assert (msgs + [x])[1..] == msgs[1..] + [x];
    }
  }

  lemma {:induction false} InFlightUpdate(started: seq<Timer>, k: nat, t: Timer, m: Msg)
    requires k < |started|
    ensures InFlight(started[k := t], m) + Own(started[k], m) == InFlight(started, m) + Own(t, m)
    decreases |started|
  {
    var front := started[..|started| - 1];
    if k == |started| - 1 {
      assert started[k := t][..|started| - 1] == front;
    } else {
      InFlightUpdate(front, k, t, m);
      assert started[k := t][..|started| - 1] == front[k := t];
    }
  }

  lemma InFlightAppend(started: seq<Timer>, t: Timer, m: Msg)
    ensures InFlight(started + [t], m) == InFlight(started, m) + Own(t, m)
  {
    assert (started + [t])[..|started|] == started;
  }

  lemma {:induction false} InFlightSame(a: seq<Timer>, b: seq<Timer>, m: Msg)
    requires |a| == |b| && forall k :: 0 <= k < |a| ==> Own(a[k], m) == Own(b[k], m)
    ensures InFlight(a, m) == InFlight(b, m)
    decreases |a|
  {
    if a != [] {
      InFlightSame(a[..|a| - 1], b[..|b| - 1], m);
    }
  }

  lemma TakenAppend(log: seq<Entry>, e: Entry, m: Msg)
    ensures Taken(log + [e], m) == Taken(log, m) + (if e.Take? && Msg(e.path, e.kind) == m then 1 else 0)
  {
    assert (log + [e])[..|log|] == log;
  }

  // ----- The invariant -----

  /** Every pending path has a timer whose callback is still to come. */
  predicate CallbacksOutstanding(s: State) {
    && s.pending.Keys == s.timers.Keys
    && forall p :: p in s.timers ==>
         && s.timers[p] < |s.started|
         && s.started[s.timers[p]].path == p
         && (s.started[s.timers[p]].stage.Armed? || s.started[s.timers[p]].stage.Waiting?)
  }

  /** The pending kind is the kind last recorded, and the current timer counts from that event. */
  ghost predicate PendingIsLatest(s: State) {
    && (forall p :: p in s.pending && p in s.timers && s.timers[p] < |s.started| ==>
         var last := LastFor(s.log, p);
         && last.Some? && last.value.Record? && last.value.kind == s.pending[p]
         && s.started[s.timers[p]].deadline == last.value.at + DEBOUNCE_DURATION)
    && (!s.closed ==> forall p :: p !in s.pending && LastFor(s.log, p).Some? ==> LastFor(s.log, p).value.Take?)
  }

  predicate FiredInTime(s: State) {
    forall k :: 0 <= k < |s.started| && s.started[k].stage.Waiting? ==> s.started[k].deadline <= s.clock
  }

  /** Every message taken is being sent, in the channel, received or dropped. */
  predicate ConservedFor(s: State, m: Msg) {
    Taken(s.log, m) == InFlight(s.started, m) + Count(s.channel, m) + Count(s.received, m) + Count(s.dropped, m)
  }

  predicate OnlyDroppedWhenFull(dropped: seq<Msg>, waiting: seq<nat>) {
    |waiting| == |dropped| && forall i :: 0 <= i < |waiting| ==> waiting[i] == DISPATCH_CHAN_SIZE
  }

  /** The channel is first in, first out. */
  predicate InOrder(s: State) { s.accepted == s.received + s.channel }

  ghost predicate Conserved(s: State) {
    && InOrder(s)
    && |s.channel| <= DISPATCH_CHAN_SIZE && (forall m :: ConservedFor(s, m))
    && OnlyDroppedWhenFull(s.dropped, s.waiting)
  }

  /** Timer k was started for an event of its path, and falls due the debounce duration after it. */
  predicate BornRight(s: State, k: nat)
    requires k < |s.started|
  {
    && k < |s.born| && k < |s.fired| && s.born[k] < |s.log|
    && s.log[s.born[k]].Record? && s.log[s.born[k]].path == s.started[k].path
    && s.started[k].deadline == s.log[s.born[k]].at + DEBOUNCE_DURATION
    && (s.started[k].stage.Waiting? ==> s.born[k] < s.fired[k] <= |s.log|)
  }

  /** Entries from `from` up to `to` are not about the path. */
  predicate Silent(log: seq<Entry>, path: string, from: nat, to: nat) {
    forall i :: from <= i < to && i < |log| ==> log[i].path != path
  }

  /** Nothing has happened to the path since its timer was started. */
  predicate Undisturbed(log: seq<Entry>, path: string, born: nat) { Silent(log, path, born + 1, |log|) }

  /** The first thing that happened to the path since then is that another callback took its event. */
  ghost predicate Orphaned(log: seq<Entry>, path: string, born: nat) {
    exists i :: born < i < |log| && log[i].Take? && log[i].path == path && Silent(log, path, born + 1, i)
  }

  /**
    A timer that is armed or waiting is listed exactly as long as nothing happens to its
    path.  It stays armed beyond that only when it is orphaned, and it fires only when
    it is undisturbed or orphaned.
    */
  ghost predicate TimerRight(s: State, k: nat)
    requires k < |s.started|
  {
    var path, stage := s.started[k].path, s.started[k].stage;
    && BornRight(s, k)
    && (!s.closed && (stage.Armed? || stage.Waiting?) ==>
         (Listed(s.timers, path, k) <==> Undisturbed(s.log, path, s.born[k])))
    && (stage.Armed? ==> Undisturbed(s.log, path, s.born[k]) || Orphaned(s.log, path, s.born[k]))
    && (stage.Waiting? ==>
         Silent(s.log, path, s.born[k] + 1, s.fired[k]) || Orphaned(s.log, path, s.born[k]))
  }

  ghost predicate TimersRight(s: State) {
    && |s.born| == |s.started| && |s.fired| == |s.started|
    && (forall k :: 0 <= k < |s.started| ==> TimerRight(s, k))
    && (s.closed ==> s.timers == map[] && s.pending == map[])
  }

  ghost predicate Inv(s: State) {
    && CallbacksOutstanding(s) && PendingIsLatest(s) && FiredInTime(s) && Conserved(s) && WellFormedLog(s.log)
    && TimersRight(s)
  }

  // Timers.

  lemma StillSilent(log: seq<Entry>, e: Entry, path: string, from: nat, to: nat)
    requires Silent(log, path, from, to) && (to <= |log| || e.path != path)
    ensures Silent(log + [e], path, from, to)
  {
  }

  lemma StillOrphaned(log: seq<Entry>, e: Entry, path: string, born: nat)
    requires Orphaned(log, path, born)
    ensures Orphaned(log + [e], path, born)
  {
    var i :| born < i < |log| && log[i].Take? && log[i].path == path && Silent(log, path, born + 1, i);
    StillSilent(log, e, path, born + 1, i);
    assert (log + [e])[i] == log[i];
  }

  lemma Disturbed(log: seq<Entry>, e: Entry, path: string, born: nat)
    requires born < |log|
    ensures e.path == path ==> !Undisturbed(log + [e], path, born)
    ensures e.path != path ==> (Undisturbed(log + [e], path, born) <==> Undisturbed(log, path, born))
    ensures e.Take? && e.path == path && Undisturbed(log, path, born) ==> Orphaned(log + [e], path, born)
  {
    var more := log + [e];
    assert more[|log|] == e;
    assert forall i :: 0 <= i < |log| ==> more[i] == log[i];
  }

  /** What a new log entry does to a timer that stays in its stage. */
  lemma TimerAfterEntry(s: State, s': State, k: nat, e: Entry)
    requires k < |s.started| && TimerRight(s, k) && k < |s'.started| && s'.log == s.log + [e]
    requires k < |s'.born| && s'.born[k] == s.born[k] && k < |s'.fired| && s'.fired[k] == s.fired[k]
    requires s'.started[k] == s.started[k] && s'.closed == s.closed
    requires e.path != s.started[k].path ==>
               (Listed(s'.timers, s.started[k].path, k) <==> Listed(s.timers, s.started[k].path, k))
    requires e.path == s.started[k].path ==> !Listed(s'.timers, s.started[k].path, k)
    requires s.started[k].stage.Armed? && e.path == s.started[k].path ==>
               (Undisturbed(s.log, e.path, s.born[k]) ==> e.Take?)
    ensures TimerRight(s', k)
  {
    var path, born := s.started[k].path, s.born[k];
    Disturbed(s.log, e, path, born);
    if Orphaned(s.log, path, born) {
      StillOrphaned(s.log, e, path, born);
    }
    if s.started[k].stage.Waiting? && Silent(s.log, path, born + 1, s.fired[k]) {
      StillSilent(s.log, e, path, born + 1, s.fired[k]);
    }
    hide Undisturbed, Orphaned, Silent;
    assert s'.log[born] == s.log[born];
  }

  /** A timer that is stopped, or done, needs only its birth. */
  lemma TimerAtRest(s: State, s': State, k: nat)
    requires k < |s.started| && TimerRight(s, k) && k < |s'.started|
    requires |s.log| <= |s'.log| && s'.log[..|s.log|] == s.log
    requires k < |s'.born| && s'.born[k] == s.born[k] && k < |s'.fired|
    requires s'.started[k].path == s.started[k].path && s'.started[k].deadline == s.started[k].deadline
    requires !s'.started[k].stage.Armed? && !s'.started[k].stage.Waiting?
    ensures TimerRight(s', k)
  {
    assert s'.log[s.born[k]] == s.log[s.born[k]];
  }

  lemma TimerUnchanged(s: State, s': State, k: nat)
    requires k < |s.started| && TimerRight(s, k) && k < |s'.started| && s'.started[k] == s.started[k]
    requires s'.log == s.log && k < |s'.born| && s'.born[k] == s.born[k] && k < |s'.fired| && s'.fired[k] == s.fired[k]
    requires (s'.closed || s'.timers == s.timers) && (s.closed ==> s'.closed)
    ensures TimerRight(s', k)
  {
    hide Undisturbed, Orphaned, Silent;
  }

  lemma EventKeepsTimers(s: State, path: string, kind: Kind)
    requires CallbacksOutstanding(s) && TimersRight(s) && !s.closed
    ensures TimersRight(AfterEvent(s, path, kind))
  {
    hide Undisturbed, Orphaned, Silent, BornRight;
    var s', e := AfterEvent(s, path, kind), Record(path, kind, s.clock);
    forall k | 0 <= k < |s'.started|
      ensures TimerRight(s', k)
    {
      if k == |s.started| {
        NewTimerRight(s, path, kind);
      } else if s'.started[k] != s.started[k] {
        PrefixOfMore(s.log, e);
        TimerAtRest(s, s', k);
      } else {
        TimerAfterEntry(s, s', k, e);
      }
    }
  }

  lemma PrefixOfMore(log: seq<Entry>, e: Entry)
    ensures (log + [e])[..|log|] == log
  {
  }

  lemma NewTimerRight(s: State, path: string, kind: Kind)
    requires TimersExist(s) && |s.born| == |s.started| && |s.fired| == |s.started|
    ensures TimerRight(AfterEvent(s, path, kind), |s.started|)
  {
    var s' := AfterEvent(s, path, kind);
    assert s'.log[|s.log|] == Record(path, kind, s.clock);
    assert Undisturbed(s'.log, path, |s.log|);
  }

  lemma FireKeepsTimers(s: State, k: nat)
    requires TimersRight(s) && Enabled(s, Fire(k))
    ensures TimersRight(AfterFire(s, k))
  {
    var s' := AfterFire(s, k);
    forall j | 0 <= j < |s'.started|
      ensures TimerRight(s', j)
    {
      if j == k {
        FiredRight(s, k);
      } else {
        TimerUnchanged(s, s', j);
      }
    }
  }

  lemma FiredRight(s: State, k: nat)
    requires k < |s.started| && TimerRight(s, k) && s.started[k].stage.Armed?
    ensures TimerRight(AfterFire(s, k), k)
  {
    assert Undisturbed(s.log, s.started[k].path, s.born[k]) ==>
             Silent(s.log, s.started[k].path, s.born[k] + 1, |s.log|);
    hide Orphaned;
  }

  lemma TakeKeepsTimers(s: State, k: nat)
    requires CallbacksOutstanding(s) && TimersRight(s) && Enabled(s, TakeStep(k))
    ensures TimersRight(AfterTake(s, k))
  {
    hide Undisturbed, Orphaned, Silent, BornRight;
    var s', path := AfterTake(s, k), s.started[k].path;
    if path in s.pending {
      var e := s'.log[|s.log|];
      PrefixOfMore(s.log, e);
      assert s'.log == s.log + [e] && e.Take? && e.path == path;
      forall j | 0 <= j < |s'.started|
        ensures TimerRight(s', j)
      {
        if j == k {
          TimerAtRest(s, s', j);
        } else {
          TimerAfterEntry(s, s', j, e);
        }
      }
    } else {
      NothingToForget(s.timers, s.pending, path);
      forall j | 0 <= j < |s'.started|
        ensures TimerRight(s', j)
      {
        if j == k {
          assert s.log[..|s.log|] == s.log;
          TimerAtRest(s, s', j);
        } else {
          TimerUnchanged(s, s', j);
        }
      }
    }
  }

  lemma NothingToForget(timers: map<string, nat>, pending: map<string, Kind>, path: string)
    requires path !in timers && path !in pending
    ensures timers - {path} == timers && pending - {path} == pending
  {
  }

  lemma SendKeepsTimers(s: State, k: nat)
    requires TimersRight(s) && Enabled(s, SendStep(k))
    ensures TimersRight(AfterSend(s, k))
  {
    hide Undisturbed, Orphaned, Silent, BornRight;
    var s' := AfterSend(s, k);
    forall j | 0 <= j < |s'.started|
      ensures TimerRight(s', j)
    {
      if j == k {
        assert s.log[..|s.log|] == s.log;
        TimerAtRest(s, s', j);
      } else {
        TimerUnchanged(s, s', j);
      }
    }
  }

  lemma CleanupKeepsTimers(s: State)
    requires CallbacksOutstanding(s) && TimersRight(s) && !s.closed
    ensures TimersRight(AfterCleanup(s))
  {
    hide Undisturbed, Orphaned, Silent, BornRight;
    var s' := AfterCleanup(s);
    forall j | 0 <= j < |s'.started|
      ensures TimerRight(s', j)
    {
      if s'.started[j] == s.started[j] {
        TimerUnchanged(s, s', j);
      } else {
        assert s.log[..|s.log|] == s.log;
        TimerAtRest(s, s', j);
      }
    }
    assert s'.pending == map[];
  }

  lemma StepKeepsTimers(s: State, step: Step)
    requires CallbacksOutstanding(s) && TimersRight(s) && Enabled(s, step)
    ensures TimersRight(Apply(s, step))
  {
    hide AfterEvent, AfterFire, AfterTake, AfterSend, AfterCleanup, TimerRight;
    match step
    case Event(path, kind) => EventKeepsTimers(s, path, kind);
    case Wait(_) => OthersKeepTimers(s, Apply(s, step));
    case Fire(k) => FireKeepsTimers(s, k);
    case TakeStep(k) => TakeKeepsTimers(s, k);
    case SendStep(k) => SendKeepsTimers(s, k);
    case Receive => OthersKeepTimers(s, Apply(s, step));
    case Cleanup => CleanupKeepsTimers(s);
  }

  lemma OthersKeepTimers(s: State, s': State)
    requires TimersRight(s)
    requires s'.started == s.started && s'.log == s.log && s'.born == s.born && s'.fired == s.fired
    requires s'.timers == s.timers && s'.pending == s.pending && s'.closed == s.closed
    ensures TimersRight(s')
  {
    forall j | 0 <= j < |s'.started|
      ensures TimerRight(s', j)
    {
      TimerUnchanged(s, s', j);
    }
    hide TimerRight;
  }

  // Callbacks.

  lemma EventKeepsCallbacks(s: State, path: string, kind: Kind)
    requires CallbacksOutstanding(s) && FiredInTime(s)
    ensures CallbacksOutstanding(AfterEvent(s, path, kind)) && FiredInTime(AfterEvent(s, path, kind))
  {
    var s' := AfterEvent(s, path, kind);
    forall p | p in s'.timers
      ensures s'.timers[p] < |s'.started| && s'.started[s'.timers[p]].path == p
      ensures s'.started[s'.timers[p]].stage.Armed? || s'.started[s'.timers[p]].stage.Waiting?
    {
      if p != path {
        assert path in s.timers ==> s.timers[p] != s.timers[path];
      }
    }
  }

  lemma TakeKeepsCallbacks(s: State, k: nat)
    requires CallbacksOutstanding(s) && FiredInTime(s) && Enabled(s, TakeStep(k))
    ensures CallbacksOutstanding(AfterTake(s, k)) && FiredInTime(AfterTake(s, k))
  {
  }

  lemma SendKeepsCallbacks(s: State, k: nat)
    requires CallbacksOutstanding(s) && FiredInTime(s) && Enabled(s, SendStep(k))
    ensures CallbacksOutstanding(AfterSend(s, k)) && FiredInTime(AfterSend(s, k))
  {
  }

  lemma CleanupKeepsCallbacks(s: State)
    requires CallbacksOutstanding(s) && FiredInTime(s)
    ensures CallbacksOutstanding(AfterCleanup(s)) && FiredInTime(AfterCleanup(s))
  {
  }

  lemma StepKeepsCallbacks(s: State, step: Step)
    requires CallbacksOutstanding(s) && FiredInTime(s) && Enabled(s, step)
    ensures CallbacksOutstanding(Apply(s, step)) && FiredInTime(Apply(s, step))
  {
    hide AfterEvent, AfterTake, AfterSend, AfterCleanup;
    match step
    case Event(path, kind) => EventKeepsCallbacks(s, path, kind);
    case TakeStep(k) => TakeKeepsCallbacks(s, k);
    case SendStep(k) => SendKeepsCallbacks(s, k);
    case Cleanup => CleanupKeepsCallbacks(s);
    case _ =>
  }

  // The log.

  lemma EventKeepsOthers(s: State, path: string, kind: Kind, p: string)
    requires CallbacksOutstanding(s) && p in s.timers && p != path
    ensures var s' := AfterEvent(s, path, kind);
            s'.timers[p] == s.timers[p] && s'.started[s.timers[p]] == s.started[s.timers[p]]
  {
    assert path in s.timers ==> s.timers[p] != s.timers[path];
  }

  lemma EventShape(s: State, path: string, kind: Kind)
    requires CallbacksOutstanding(s)
    ensures TimersExist(s)
    ensures var s' := AfterEvent(s, path, kind);
            && s'.log == s.log + [Record(path, kind, s.clock)]
            && s'.pending == s.pending[path := kind] && s'.timers == s.timers[path := |s.started|]
            && |s'.started| == |s.started| + 1
            && s'.started[|s.started|].deadline == s.clock + DEBOUNCE_DURATION
            && s'.closed == s.closed
  {
  }

  lemma EventKeepsLog(s: State, path: string, kind: Kind)
    requires CallbacksOutstanding(s) && PendingIsLatest(s) && WellFormedLog(s.log)
    ensures PendingIsLatest(AfterEvent(s, path, kind)) && WellFormedLog(AfterEvent(s, path, kind).log)
  {
    hide AfterEvent, LastFor, WellFormedLog;
    var s', e := AfterEvent(s, path, kind), Record(path, kind, s.clock);
    EventShape(s, path, kind);
    WellFormedAppend(s.log, e);
    LastForAppend(s.log, e);
    forall p | p in s.timers && p != path
      ensures s'.started[s.timers[p]] == s.started[s.timers[p]]
    {
      EventKeepsOthers(s, path, kind, p);
    }
  }

  lemma TakeKeepsLog(s: State, k: nat)
    requires CallbacksOutstanding(s) && FiredInTime(s) && PendingIsLatest(s) && WellFormedLog(s.log)
    requires Enabled(s, TakeStep(k))
    ensures PendingIsLatest(AfterTake(s, k)) && WellFormedLog(AfterTake(s, k).log)
  {
    hide LastFor, WellFormedLog;
    var s', path := AfterTake(s, k), s.started[k].path;
    if path in s.pending {
      var e := Take(path, s.pending[path], s.clock, path in s.timers && s.timers[path] == k);
      assert s'.log == s.log + [e];
      LastForAppend(s.log, e);
      WellFormedAppend(s.log, e);
    }
  }

  lemma StepKeepsLog(s: State, step: Step)
    requires CallbacksOutstanding(s) && FiredInTime(s) && PendingIsLatest(s) && WellFormedLog(s.log)
    requires Enabled(s, step)
    ensures PendingIsLatest(Apply(s, step)) && WellFormedLog(Apply(s, step).log)
  {
    hide LastFor, WellFormedLog, PendingIsLatest, CallbacksOutstanding, FiredInTime, AfterEvent, AfterTake;
    match step
    case Event(path, kind) => EventKeepsLog(s, path, kind);
    case TakeStep(k) => TakeKeepsLog(s, k);
    case Cleanup => CleanupKeepsLog(s);
    case _ => OthersKeepLog(s, Apply(s, step));
  }

  /** Only pending kinds, listed deadlines and the log matter. */
  lemma OthersKeepLog(s: State, s': State)
    requires PendingIsLatest(s) && s'.pending == s.pending && s'.timers == s.timers && s'.log == s.log
    requires s'.closed == s.closed && |s'.started| == |s.started|
    requires forall k :: 0 <= k < |s.started| ==> s'.started[k].deadline == s.started[k].deadline
    ensures PendingIsLatest(s')
  {
    hide LastFor;
  }

  lemma CleanupKeepsLog(s: State)
    ensures PendingIsLatest(AfterCleanup(s)) && AfterCleanup(s).log == s.log
  {
  }

  // The messages.

  lemma EventConserves(s: State, path: string, kind: Kind, m: Msg)
    requires TimersExist(s) && ConservedFor(s, m)
    ensures ConservedFor(AfterEvent(s, path, kind), m)
  {
    hide Taken, InFlight, Count;
    TakenAppend(s.log, Record(path, kind, s.clock), m);
    var stopped := if path in s.timers then StopTimer(s.started, s.timers[path]) else s.started;
    InFlightSame(stopped, s.started, m);
    InFlightAppend(stopped, Timer(path, s.clock + DEBOUNCE_DURATION, Armed), m);
  }

  lemma TakeConserves(s: State, k: nat, m: Msg)
    requires Enabled(s, TakeStep(k)) && ConservedFor(s, m)
    ensures ConservedFor(AfterTake(s, k), m)
  {
    hide Taken, InFlight, Count;
    var s', path := AfterTake(s, k), s.started[k].path;
    InFlightUpdate(s.started, k, s'.started[k], m);
    if path in s.pending {
      TakenAppend(s.log, Take(path, s.pending[path], s.clock, path in s.timers && s.timers[path] == k), m);
    }
  }

  lemma SendConserves(s: State, k: nat, m: Msg)
    requires Enabled(s, SendStep(k)) && ConservedFor(s, m)
    ensures ConservedFor(AfterSend(s, k), m)
  {
    hide Taken, InFlight, Count;
    InFlightUpdate(s.started, k, s.started[k].(stage := Done), m);
    var msg := Msg(s.started[k].path, s.started[k].stage.kind);
    CountAppend(s.channel, msg, m);
    CountAppend(s.dropped, msg, m);
  }

  lemma StepConserves(s: State, step: Step, m: Msg)
    requires Enabled(s, step) && ConservedFor(s, m)
    ensures ConservedFor(Apply(s, step), m)
  {
    hide Taken, InFlight, Count, AfterEvent, AfterTake, AfterSend;
    match step
    case Event(path, kind) => EventConserves(s, path, kind, m);
    case Wait(_) =>
    case Fire(k) => InFlightUpdate(s.started, k, s.started[k].(stage := Waiting), m);
    case TakeStep(k) => TakeConserves(s, k, m);
    case SendStep(k) => SendConserves(s, k, m);
    case Receive =>
      CountPop(s.channel, m);
      CountAppend(s.received, s.channel[0], m);
    case Cleanup => InFlightSame(AfterCleanup(s).started, s.started, m);
  }

  lemma CountPop(msgs: seq<Msg>, m: Msg)
    requires msgs != []
    ensures Count(msgs, m) == Count(msgs[1..], m) + (if msgs[0] == m then 1 else 0)
  {
  }

  lemma StepKeepsOrder(s: State, step: Step)
    requires InOrder(s) && Enabled(s, step)
    ensures InOrder(Apply(s, step))
  {
    hide AfterEvent, AfterTake, AfterCleanup;
    match step
    case Event(path, kind) => EventKeepsChannel(s, path, kind);
    case TakeStep(k) => TakeKeepsChannel(s, k);
    case Cleanup => CleanupKeepsChannel(s);
    case _ =>
  }

  lemma EventKeepsChannel(s: State, path: string, kind: Kind)
    requires TimersExist(s)
    ensures var s' := AfterEvent(s, path, kind);
            s'.channel == s.channel && s'.received == s.received && s'.accepted == s.accepted
  {
  }

  lemma TakeKeepsChannel(s: State, k: nat)
    requires k < |s.started|
    ensures var s' := AfterTake(s, k);
            s'.channel == s.channel && s'.received == s.received && s'.accepted == s.accepted
  {
  }

  lemma CleanupKeepsChannel(s: State)
    ensures var s' := AfterCleanup(s);
            s'.channel == s.channel && s'.received == s.received && s'.accepted == s.accepted
  {
  }

  lemma StepKeepsInv(s: State, step: Step)
    requires Inv(s) && Enabled(s, step)
    ensures Inv(Apply(s, step))
  {
    StepKeepsCallbacks(s, step);
    StepKeepsLog(s, step);
    StepKeepsTimers(s, step);
    StepKeepsOrder(s, step);
    assert |Apply(s, step).channel| <= DISPATCH_CHAN_SIZE;
    assert OnlyDroppedWhenFull(Apply(s, step).dropped, Apply(s, step).waiting);
    forall m
      ensures ConservedFor(Apply(s, step), m)
    {
      StepConserves(s, step, m);
    }
    hide Apply, Enabled, CallbacksOutstanding, PendingIsLatest, FiredInTime, WellFormedLog, ConservedFor, TimersRight,
         InOrder;
  }

  /** The invariant holds throughout every run, however its steps interleave. */
  lemma {:induction false} InvAlways(s: State, steps: seq<Step>)
    requires Inv(s) && Feasible(s, steps)
    ensures Inv(Exec(s, steps))
    decreases |steps|
  {
    if steps != [] {
      hide Inv, Apply, Enabled;
      StepKeepsInv(s, steps[0]);
      InvAlways(Apply(s, steps[0]), steps[1..]);
    }
  }

  lemma InitInv(clock: int)
    ensures Inv(Init(clock))
  {
  }

  /**
    The properties of a run from the start.  Before shutdown each pending path has
    a callback to come; whatever was dispatched carried the latest event's kind,
    after a new event each time; and every message taken is being sent, in the channel,
    received, or was dropped when it found the channel full.
    */
  lemma DebouncerIsCorrect(clock: int, steps: seq<Step>)
    requires Feasible(Init(clock), steps)
    ensures var s := Exec(Init(clock), steps);
            && CallbacksOutstanding(s)
            && (forall i :: 0 <= i < |s.log| ==> TakesLatest(s.log[..i], s.log[i]))
            && (forall i, j :: 0 <= i < j < |s.log| && s.log[i].Take? && s.log[j].Take? ==>
                 (s.log[i].path == s.log[j].path ==>
                   exists m :: i < m < j && s.log[m].Record? && s.log[m].path == s.log[i].path))
            && Conserved(s)
  {
    InitInv(clock);
    InvAlways(Init(clock), steps);
    var s := Exec(Init(clock), steps);
    forall i, j | 0 <= i < j < |s.log| && s.log[i].Take? && s.log[j].Take? && s.log[i].path == s.log[j].path
      ensures exists m :: i < m < j && s.log[m].Record? && s.log[m].path == s.log[i].path
    {
      TakesAlternateWithEvents(s.log, i, j);
    }
  }

  // ----- What a run can always do, and what it cannot be kept from doing -----

  lemma StepThen(s: State, step: Step, rest: seq<Step>)
    requires Enabled(s, step) && Feasible(Apply(s, step), rest)
    ensures Feasible(s, [step] + rest) && Exec(s, [step] + rest) == Exec(Apply(s, step), rest)
  {
    assert ([step] + rest)[1..] == rest;
  }

  lemma NoStep(s: State)
    ensures Feasible(s, []) && Exec(s, []) == s
  {
  }

  /** No pending event is stuck: the clock and its own timer suffice to dispatch it as last recorded. */
  lemma PendingCanBeTaken(s: State, p: string) returns (steps: seq<Step>)
    requires Inv(s) && p in s.pending
    ensures Feasible(s, steps)
    ensures exists at :: Exec(s, steps).log == s.log + [Take(p, s.pending[p], at, true)]
  {
    var k := s.timers[p];
    if s.started[k].stage.Waiting? {
      StepThen(s, TakeStep(k), []);
      steps := [TakeStep(k)] + [];
      assert Exec(s, steps).log == s.log + [Take(p, s.pending[p], s.clock, true)];
    } else {
      var ms: nat := if s.started[k].deadline > s.clock then s.started[k].deadline - s.clock else 0;
      var s1 := Apply(s, Wait(ms));
      var s2 := Apply(s1, Fire(k));
      StepThen(s2, TakeStep(k), []);
      StepThen(s1, Fire(k), [TakeStep(k)] + []);
      steps := [Wait(ms)] + ([Fire(k)] + ([TakeStep(k)] + []));
      StepThen(s, Wait(ms), [Fire(k)] + ([TakeStep(k)] + []));
      assert Exec(s, steps).log == s.log + [Take(p, s.pending[p], s1.clock, true)];
    }
  }

  /**
    Whichever callback takes a pending event, its path has been quiet for the debounce
    duration exactly when the deadline of the path's listed timer has passed.
    */
  lemma TakeIsQuietIff(s: State, k: nat)
    requires Inv(s) && Enabled(s, TakeStep(k)) && s.started[k].path in s.pending
    ensures var p, last := s.started[k].path, LastFor(s.log, s.started[k].path);
            && p in s.timers && s.timers[p] < |s.started| && last.Some?
            && Apply(s, TakeStep(k)).log == s.log + [Take(p, s.pending[p], s.clock, s.timers[p] == k)]
            && (last.value.at + DEBOUNCE_DURATION <= s.clock <==> s.started[s.timers[p]].deadline <= s.clock)
  {
    hide LastFor, Conserved, WellFormedLog;
  }

  /**
    Other callbacks than the listed timer's may come too early.  Here a callback
    that was waiting for the mutex dispatches a new event the moment it is recorded.
    */
  lemma StaleCallbackIsEarly(p: string)
    ensures exists steps ::
              Feasible(Init(0), steps)
              && Exec(Init(0), steps).log
                 == [Record(p, Created, 0), Record(p, Modified, 500), Take(p, Modified, 500, false)]
  {
    hide Exec, Feasible;
    var s0 := Init(0);
    var s1 := Apply(s0, Event(p, Created));
    var s2 := Apply(s1, Wait(500));
    var s3 := Apply(s2, Fire(0));
    var s4 := Apply(s3, Event(p, Modified));
    var rest := [TakeStep(0)] + [];
    NoStep(Apply(s4, TakeStep(0)));
    StepThen(s4, TakeStep(0), []);
    StepThen(s3, Event(p, Modified), rest);
    StepThen(s2, Fire(0), [Event(p, Modified)] + rest);
    StepThen(s1, Wait(500), [Fire(0)] + ([Event(p, Modified)] + rest));
    StepThen(s0, Event(p, Created), [Wait(500)] + ([Fire(0)] + ([Event(p, Modified)] + rest)));
    assert Exec(s0, [Event(p, Created)] + ([Wait(500)] + ([Fire(0)] + ([Event(p, Modified)] + rest)))).log
        == [Record(p, Created, 0), Record(p, Modified, 500), Take(p, Modified, 500, false)];
  }

  // ----- Which timers are still running, and when they are early -----

  lemma NotBoth(log: seq<Entry>, path: string, born: nat)
    ensures !(Undisturbed(log, path, born) && Orphaned(log, path, born))
  {
  }

  lemma UndisturbedIsLast(log: seq<Entry>, path: string, born: nat)
    requires born < |log| && log[born].path == path && Undisturbed(log, path, born)
    ensures LastFor(log, path) == Some(log[born])
  {
    LastForIsLast(log, path);
    hide LastFor;
    assert LastFor(log, path).Some?;
    var m :| 0 <= m < |log| && log[m] == LastFor(log, path).value && log[m].path == path
             && forall i :: m < i < |log| ==> log[i].path != path;
    assert m == born;
  }

  /**
    In every reachable state before shutdown an armed timer is the listed one of its path,
    unless it is orphaned: unless a callback that had been waiting took the timer's event
    and with it its place in the list.  The timer can then no longer be stopped.
    */
  lemma ArmedIsListedIff(s: State, k: nat)
    requires Inv(s) && !s.closed && k < |s.started| && s.started[k].stage.Armed?
    ensures k < |s.born|
    ensures Listed(s.timers, s.started[k].path, k) <==> !Orphaned(s.log, s.started[k].path, s.born[k])
  {
    assert TimerRight(s, k);
    NotBoth(s.log, s.started[k].path, s.born[k]);
  }

  /** A timer that is not orphaned fires only after the full quiet period. */
  lemma FiringIsQuiet(s: State, k: nat)
    requires Inv(s) && Enabled(s, Fire(k)) && k < |s.born|
    requires !Orphaned(s.log, s.started[k].path, s.born[k])
    ensures var last := LastFor(s.log, s.started[k].path);
            last.Some? && last.value.Record? && last.value.at + DEBOUNCE_DURATION <= s.clock
  {
    assert TimerRight(s, k);
    UndisturbedIsLast(s.log, s.started[k].path, s.born[k]);
  }

  /**
    A callback that takes an event for which its timer is not listed comes from a timer
    that had fired before that event was recorded, or from an orphaned one.
    */
  lemma UnlistedTakeIsStale(s: State, k: nat)
    requires Inv(s) && Enabled(s, TakeStep(k)) && s.started[k].path in s.pending
    requires !Listed(s.timers, s.started[k].path, k)
    ensures k < |s.born| && k < |s.fired|
    ensures || Orphaned(s.log, s.started[k].path, s.born[k])
            || exists i :: s.fired[k] <= i < |s.log| && Some(s.log[i]) == LastFor(s.log, s.started[k].path)
  {
    assert TimerRight(s, k);
    var path := s.started[k].path;
    assert !s.closed;
    LastForIsLast(s.log, path);
    hide LastFor;
    if !Orphaned(s.log, path, s.born[k]) {
      var i :| s.born[k] < i < |s.log| && s.log[i].path == path;
      var m :| 0 <= m < |s.log| && s.log[m] == LastFor(s.log, path).value && s.log[m].path == path
               && forall j :: m < j < |s.log| ==> s.log[j].path != path;
      assert i <= m;
    }
  }

  /** After shutdown no callback takes anything. */
  lemma NothingTakenAfterShutdown(s: State, step: Step)
    requires Inv(s) && s.closed && Enabled(s, step)
    ensures Apply(s, step).log == s.log && Apply(s, step).closed
  {
  }

  /**
    An orphaned timer can be early too: here it dispatches an event 100 ms after that was
    recorded, although nobody was waiting for the mutex at the time.
    */
  lemma OrphanIsEarly(p: string)
    ensures exists steps ::
              Feasible(Init(0), steps)
              && Exec(Init(0), steps).log
                 == [Record(p, Created, 0), Record(p, Modified, 500), Take(p, Modified, 500, false),
                     Record(p, Deleted, 900), Take(p, Deleted, 1000, false)]
  {
    hide Exec, Feasible;
    var s4 := AfterStaleTake(p);
    var rest := [Wait(400)] + ([Event(p, Deleted)] + ([Wait(100)] + ([Fire(1)] + ([TakeStep(1)] + []))));
    OrphanFires(p, s4);
    var steps := [Event(p, Created)] + ([Wait(500)] + ([Fire(0)] + ([Event(p, Modified)] + ([TakeStep(0)] + rest))));
    StaleTakeThen(p, rest);
    assert Feasible(Init(0), steps);
  }

  /** The state after the five steps in which a waiting callback takes a new event. */
  function AfterStaleTake(p: string): State {
    var s := Init(0).(log := [Record(p, Created, 0), Record(p, Modified, 500), Take(p, Modified, 500, false)],
                      clock := 500, born := [0, 1], fired := [1, 0]);
    s.(started := [Timer(p, 500, Sending(Modified)), Timer(p, 1000, Armed)])
  }

  lemma OrphanFires(p: string, s4: State)
    requires s4 == AfterStaleTake(p)
    ensures var rest := [Wait(400)] + ([Event(p, Deleted)] + ([Wait(100)] + ([Fire(1)] + ([TakeStep(1)] + []))));
            && Feasible(s4, rest)
            && Exec(s4, rest).log == s4.log + [Record(p, Deleted, 900), Take(p, Deleted, 1000, false)]
  {
    hide Exec, Feasible;
    var s5 := Apply(s4, Wait(400));
    var s6 := Apply(s5, Event(p, Deleted));
    var s7 := Apply(s6, Wait(100));
    var s8 := Apply(s7, Fire(1));
    NoStep(Apply(s8, TakeStep(1)));
    StepThen(s8, TakeStep(1), []);
    StepThen(s7, Fire(1), [TakeStep(1)] + []);
    StepThen(s6, Wait(100), [Fire(1)] + ([TakeStep(1)] + []));
    StepThen(s5, Event(p, Deleted), [Wait(100)] + ([Fire(1)] + ([TakeStep(1)] + [])));
    StepThen(s4, Wait(400), [Event(p, Deleted)] + ([Wait(100)] + ([Fire(1)] + ([TakeStep(1)] + []))));
    assert Apply(s8, TakeStep(1)).log == s4.log + [Record(p, Deleted, 900), Take(p, Deleted, 1000, false)];
  }

  lemma StaleTakeThen(p: string, rest: seq<Step>)
    requires Feasible(AfterStaleTake(p), rest)
    ensures var steps :=
              [Event(p, Created)] + ([Wait(500)] + ([Fire(0)] + ([Event(p, Modified)] + ([TakeStep(0)] + rest))));
            Feasible(Init(0), steps) && Exec(Init(0), steps) == Exec(AfterStaleTake(p), rest)
  {
    hide Exec, Feasible;
    var s0 := Init(0);
    var s1 := Apply(s0, Event(p, Created));
    var s2 := Apply(s1, Wait(500));
    var s3 := Apply(s2, Fire(0));
    var s4 := Apply(s3, Event(p, Modified));
    StaleTakeIs(p, s4);
    StepThen(s4, TakeStep(0), rest);
    StepThen(s3, Event(p, Modified), [TakeStep(0)] + rest);
    StepThen(s2, Fire(0), [Event(p, Modified)] + ([TakeStep(0)] + rest));
    StepThen(s1, Wait(500), [Fire(0)] + ([Event(p, Modified)] + ([TakeStep(0)] + rest)));
    StepThen(s0, Event(p, Created), [Wait(500)] + ([Fire(0)] + ([Event(p, Modified)] + ([TakeStep(0)] + rest))));
  }

  lemma StaleTakeIs(p: string, s4: State)
    requires s4 == AfterEvent(AfterFire(AfterEvent(Init(0), p, Created).(clock := 500), 0), p, Modified)
    ensures Enabled(s4, TakeStep(0)) && Apply(s4, TakeStep(0)) == AfterStaleTake(p)
  {
    var none: map<string, nat> := map[];
    var nothing: map<string, Kind> := map[];
    assert s4.timers - {p} == none && s4.pending - {p} == nothing;
  }
}
