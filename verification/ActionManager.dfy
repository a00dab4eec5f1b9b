/**
  Pending guard actions of internal/guard/action_manager.go.

  A decision has two parts: under the mutex the action leaves `pending` and enters
  `history`; afterwards, without the mutex, the caller's channel gets the decision
  and is closed.  A run interleaves these parts of any number of approvals,
  rejections and timeouts, with the two parts of a creation (the timer is armed
  before the action is inserted).  A timeout may strike at any moment, even after
  its timer was stopped.  Action IDs are random and taken to be distinct.
  */
module ActionManager {
  import opened Strings

  const HISTORY_MAX: nat := 1000
  const HISTORY_KEPT: nat := 500

  datatype Status = Pending | Approved | Rejected | TimedOut

  datatype GuardAction = GuardAction(id: string, toolName: string, status: Status, decidedBy: string, notes: string)

  datatype Decision = Decision(approved: bool, decidedBy: string, notes: string)

  /**
    A channel of capacity one, with what its caller has read from it; Go panics on a
    send after close and on a second close.
    */
  datatype Channel = Channel(buffer: seq<Decision>, received: seq<Decision>, closed: bool) {
    /** All that was ever sent on it. */
    function Carried(): seq<Decision> { received + buffer }
  }

  const NEW_CHANNEL := Channel([], [], false)

  /** A decider after it released the mutex. */
  datatype Stage = ToSend | ToClose | Finished
  datatype Decider = Decider(id: string, decision: Decision, stage: Stage)

  datatype State = State(
    creating: map<string, GuardAction>,
    pending: map<string, GuardAction>,
    history: seq<GuardAction>,
    channels: map<string, Channel>,
    log: seq<GuardAction>,
    deciders: seq<Decider>,
    panicked: bool)

  const INIT: State := State(map[], map[], [], map[], [], [], false)

  // ----- Steps -----

  function Decided(a: GuardAction, status: Status, decidedBy: string, notes: string): GuardAction {
    a.(status := status, decidedBy := decidedBy, notes := notes)
  }

  /** Appending to the history, which is cut back when it grows too long. */
  function Recorded(history: seq<GuardAction>, a: GuardAction): seq<GuardAction> {
    var longer := history + [a];
    if |longer| > HISTORY_MAX then longer[|longer| - HISTORY_KEPT..] else longer
  }

  function AfterArm(s: State, id: string, toolName: string): State {
    s.(creating := s.creating[id := GuardAction(id, toolName, Pending, "", "")],
       channels := s.channels[id := NEW_CHANNEL])
  }

  function AfterInsert(s: State, id: string): State
    requires id in s.creating
  {
    s.(pending := s.pending[id := s.creating[id]], creating := s.creating - {id})
  }

  /** The part of a decision or timeout under the mutex; nothing happens when the action is not pending. */
  function AfterDecide(s: State, id: string, status: Status, d: Decision): State {
    if id !in s.pending then s
    else
      var a := Decided(s.pending[id], status, d.decidedBy, if status == TimedOut then "" else d.notes);
      s.(pending := s.pending - {id}, history := Recorded(s.history, a), log := s.log + [a],
         deciders := s.deciders + [Decider(id, d, ToSend)])
  }

  /** A decider goes on to its next stage, having changed its channel. */
  function Moved(s: State, k: nat, ch: Channel, stage: Stage): State
    requires k < |s.deciders|
  {
    s.(channels := s.channels[s.deciders[k].id := ch], deciders := s.deciders[k := s.deciders[k].(stage := stage)])
  }

  function AfterSend(s: State, k: nat): State
    requires k < |s.deciders| && s.deciders[k].id in s.channels
  {
    var d := s.deciders[k];
    var ch := s.channels[d.id];
    if ch.closed then s.(panicked := true)
    else Moved(s, k, ch.(buffer := ch.buffer + [d.decision]), ToClose)
  }

  function AfterClose(s: State, k: nat): State
    requires k < |s.deciders| && s.deciders[k].id in s.channels
  {
    var d := s.deciders[k];
    var ch := s.channels[d.id];
    if ch.closed then s.(panicked := true)
    else Moved(s, k, ch.(closed := true), Finished)
  }

  function Read(ch: Channel): Channel
    requires ch.buffer != []
  {
    ch.(buffer := ch.buffer[1..], received := ch.received + [ch.buffer[0]])
  }

  function AfterReceive(s: State, id: string): State
    requires id in s.channels && s.channels[id].buffer != []
  {
    s.(channels := s.channels[id := Read(s.channels[id])])
  }

  datatype Step =
    | Arm(id: string, toolName: string)
    | Insert(id: string)
    | Decide(id: string, approved: bool, decidedBy: string, notes: string)
    | Timeout(id: string)
    | Send(k: nat)
    | Close(k: nat)
    | Receive(id: string)

  predicate Enabled(s: State, step: Step) {
    match step
    case Arm(id, _) => id !in s.channels
    case Insert(id) => id in s.creating
    case Decide(_, _, _, _) => true
    case Timeout(_) => true
    case Send(k) => k < |s.deciders| && s.deciders[k].stage == ToSend && s.deciders[k].id in s.channels
    case Close(k) => k < |s.deciders| && s.deciders[k].stage == ToClose && s.deciders[k].id in s.channels
    case Receive(id) => id in s.channels && s.channels[id].buffer != []
  }

  const TIMEOUT_DECISION: Decision := Decision(false, "", "timeout")

  function Apply(s: State, step: Step): State
    requires Enabled(s, step)
  {
    match step
    case Arm(id, toolName) => AfterArm(s, id, toolName)
    case Insert(id) => AfterInsert(s, id)
    case Decide(id, approved, decidedBy, notes) =>
      AfterDecide(s, id, if approved then Approved else Rejected, Decision(approved, decidedBy, notes))
    case Timeout(id) => AfterDecide(s, id, TimedOut, TIMEOUT_DECISION)
    case Send(k) => AfterSend(s, k)
    case Close(k) => AfterClose(s, k)
    case Receive(id) => AfterReceive(s, id)
  }

  predicate Feasible(s: State, steps: seq<Step>)
    decreases |steps|
  {
    steps != [] ==> Enabled(s, steps[0]) && Feasible(Apply(s, steps[0]), steps[1..])
  }

  function Exec(s: State, steps: seq<Step>): State
    requires Feasible(s, steps)
    decreases |steps|
  {
    if steps == [] then s else Exec(Apply(s, steps[0]), steps[1..])
  }

  // ----- The invariant -----

  /** How many of n decisions the history holds: all up to 1000, then 500 to 1000 in turn. */
  function Kept(n: nat): (k: nat)
    ensures k <= n && k <= 1000
  {
    if n <= 1000 then n else 500 + (n - 1001) % 501
  }

  lemma OneMoreKept(n: nat)
    ensures Kept(n + 1) == if Kept(n) < 1000 then Kept(n) + 1 else 500
  {
    if n > 1000 {
      var q, r := (n - 1001) / 501, (n - 1001) % 501;
      assert n - 1001 == 501 * q + r;
      if r < 500 {
        RemainderIs(n - 1000, q, r + 1);
      } else {
        RemainderIs(n - 1000, q + 1, 0);
      }
    }
  }

  lemma RemainderIs(n: nat, q: nat, r: nat)
    requires n == 501 * q + r && r < 501
    ensures n % 501 == r
  {
  }

  /** The history is the end of the full log. */
  predicate HistoryIsRecent(history: seq<GuardAction>, log: seq<GuardAction>) {
    |history| == Kept(|log|) && history == log[|log| - |history|..]
  }

  /** The decision that goes to the caller is the one in the log. */
  predicate Agrees(a: GuardAction, d: Decision) {
    && a.status != Pending && (d.approved <==> a.status == Approved) && a.decidedBy == d.decidedBy
    && if a.status == TimedOut then a.notes == "" && d == TIMEOUT_DECISION else a.notes == d.notes
  }

  predicate InLog(log: seq<GuardAction>, id: string) {
    exists k :: 0 <= k < |log| && log[k].id == id
  }

  /** No action that was ever created gets lost: it is undecided or in the log. */
  predicate Accounted(created: set<string>, undecided: set<string>, log: seq<GuardAction>) {
    forall id :: id in created ==> id in undecided || InLog(log, id)
  }

  predicate IsBlank(a: GuardAction, id: string) {
    a.id == id && a.status == Pending && a.decidedBy == "" && a.notes == ""
  }

  /** No action is decided twice, and none is decided while it is pending or being created. */
  predicate DecidedOnce(log: seq<GuardAction>, deciders: seq<Decider>, pending: map<string, GuardAction>,
                        creating: map<string, GuardAction>)
  {
    && |deciders| == |log|
    && (forall k :: 0 <= k < |log| ==> deciders[k].id == log[k].id && Agrees(log[k], deciders[k].decision))
    && (forall i, j :: 0 <= i < j < |log| ==> log[i].id != log[j].id)
    && (forall k :: 0 <= k < |log| ==> log[k].id !in pending && log[k].id !in creating)
    && (forall id :: id in pending ==> id !in creating && IsBlank(pending[id], id))
    && (forall id :: id in creating ==> IsBlank(creating[id], id))
  }

  /** How far a decider has come is exactly what has happened on its channel. */
  predicate ChannelFits(ch: Channel, stage: Stage, d: Decision) {
    match stage
    case ToSend => ch.Carried() == [] && !ch.closed
    case ToClose => ch.Carried() == [d] && !ch.closed
    case Finished => ch.Carried() == [d] && ch.closed
  }

  /** Undecided actions have untouched channels, decided ones channels in step with their deciders. */
  predicate ChannelsFit(undecided: set<string>, deciders: seq<Decider>, channels: map<string, Channel>) {
    && (forall k :: 0 <= k < |deciders| ==>
         deciders[k].id in channels && ChannelFits(channels[deciders[k].id], deciders[k].stage, deciders[k].decision))
    && (forall id :: id in undecided ==> id in channels && channels[id] == NEW_CHANNEL)
  }

  function Undecided(s: State): set<string> { s.pending.Keys + s.creating.Keys }

  predicate Inv(s: State) {
    && HistoryIsRecent(s.history, s.log)
    && DecidedOnce(s.log, s.deciders, s.pending, s.creating)
    && ChannelsFit(Undecided(s), s.deciders, s.channels)
    && Accounted(s.channels.Keys, Undecided(s), s.log)
    && !s.panicked
  }

  /** The last n entries, the last one first. */
  function LatestFirst(s: seq<GuardAction>, n: nat): seq<GuardAction>
    requires n <= |s|
  {
    if n == 0 then [] else LatestFirst(s, n - 1) + [s[|s| - n]]
  }

  /** As far as the history goes, its latest entries are the latest decisions. */
  lemma {:induction false} LatestAgree(history: seq<GuardAction>, log: seq<GuardAction>, n: nat)
    requires HistoryIsRecent(history, log) && n <= |history|
    ensures n <= |log| && LatestFirst(history, n) == LatestFirst(log, n)
  {
    if n > 0 {
      LatestAgree(history, log, n - 1);
    }
  }

  lemma {:induction false} LatestFirstAt(s: seq<GuardAction>, n: nat, i: nat)
    requires i < n <= |s|
    ensures |LatestFirst(s, n)| == n && LatestFirst(s, n)[i] == s[|s| - 1 - i]
  {
    if i < n - 1 {
      LatestFirstAt(s, n - 1, i);
    } else if n > 1 {
      LatestFirstAt(s, n - 1, 0);
    }
  }

  lemma RecordedIsRecent(history: seq<GuardAction>, log: seq<GuardAction>, a: GuardAction)
    requires HistoryIsRecent(history, log)
    ensures HistoryIsRecent(Recorded(history, a), log + [a])
  {
    OneMoreKept(|log|);
    hide Kept;
    assert history + [a] == (log + [a])[|log| - |history|..];
  }

  // Deciders and channels.

  lemma ArmKeepsChannels(undecided: set<string>, deciders: seq<Decider>, channels: map<string, Channel>, id: string)
    requires ChannelsFit(undecided, deciders, channels) && id !in channels
    ensures ChannelsFit(undecided + {id}, deciders, channels[id := NEW_CHANNEL])
    ensures forall k :: 0 <= k < |deciders| ==> deciders[k].id != id
    ensures id !in undecided
  {
  }

  lemma DecideKeepsOnce(log: seq<GuardAction>, deciders: seq<Decider>, pending: map<string, GuardAction>,
                        creating: map<string, GuardAction>, a: GuardAction, d: Decider)
    requires DecidedOnce(log, deciders, pending, creating)
    requires a.id in pending && d.id == a.id && Agrees(a, d.decision)
    ensures DecidedOnce(log + [a], deciders + [d], pending - {a.id}, creating)
  {
  }

  lemma DecideKeepsChannels(undecided: set<string>, deciders: seq<Decider>, channels: map<string, Channel>, d: Decider)
    requires ChannelsFit(undecided, deciders, channels) && d.id in undecided && d.stage == ToSend
    ensures ChannelsFit(undecided - {d.id}, deciders + [d], channels)
  {
    assert ChannelFits(NEW_CHANNEL, ToSend, d.decision);
    hide ChannelFits;
  }

  lemma OtherDecidersElsewhere(log: seq<GuardAction>, deciders: seq<Decider>, pending: map<string, GuardAction>,
                               creating: map<string, GuardAction>, k: nat)
    requires DecidedOnce(log, deciders, pending, creating) && k < |deciders|
    ensures forall j :: 0 <= j < |deciders| && j != k ==> deciders[j].id != deciders[k].id
    ensures deciders[k].id !in pending.Keys + creating.Keys
  {
    forall j | 0 <= j < |deciders| && j != k
      ensures deciders[j].id != deciders[k].id
    {
      if j < k {
        assert log[j].id != log[k].id;
      } else {
        assert log[k].id != log[j].id;
      }
    }
  }

  lemma MoveKeepsOnce(log: seq<GuardAction>, deciders: seq<Decider>, pending: map<string, GuardAction>,
                      creating: map<string, GuardAction>, k: nat, stage: Stage)
    requires DecidedOnce(log, deciders, pending, creating) && k < |deciders|
    ensures DecidedOnce(log, deciders[k := deciders[k].(stage := stage)], pending, creating)
  {
  }

  /** A decider going one stage further, on its own channel, disturbs no other. */
  lemma MoveKeepsChannels(undecided: set<string>, deciders: seq<Decider>, channels: map<string, Channel>, k: nat,
                          ch: Channel, stage: Stage)
    requires ChannelsFit(undecided, deciders, channels) && k < |deciders|
    requires ChannelFits(ch, stage, deciders[k].decision)
    requires forall j :: 0 <= j < |deciders| && j != k ==> deciders[j].id != deciders[k].id
    requires deciders[k].id !in undecided
    ensures ChannelsFit(undecided, deciders[k := deciders[k].(stage := stage)], channels[deciders[k].id := ch])
  {
    hide ChannelFits;
  }

  lemma ReadKeepsCarried(ch: Channel)
    requires ch.buffer != []
    ensures Read(ch).Carried() == ch.Carried() && Read(ch).closed == ch.closed
  {
  }

  lemma ReceiveKeepsChannels(undecided: set<string>, deciders: seq<Decider>, channels: map<string, Channel>, id: string)
    requires ChannelsFit(undecided, deciders, channels) && id in channels && channels[id].buffer != []
    ensures ChannelsFit(undecided, deciders, channels[id := Read(channels[id])])
  {
    ReadKeepsCarried(channels[id]);
    hide Read;
  }

  // No action is lost.

  lemma DecideKeepsAccounted(created: set<string>, undecided: set<string>, log: seq<GuardAction>, a: GuardAction)
    requires Accounted(created, undecided, log)
    ensures Accounted(created, undecided - {a.id}, log + [a])
  {
    forall id | id in created && id !in undecided - {a.id}
      ensures InLog(log + [a], id)
    {
      if id == a.id {
        assert (log + [a])[|log|].id == id;
      } else {
        var k :| 0 <= k < |log| && log[k].id == id;
        assert (log + [a])[k].id == id;
      }
    }
  }

  // Steps.

  lemma ArmKeepsInv(s: State, id: string, toolName: string)
    requires Inv(s) && id !in s.channels
    ensures Inv(AfterArm(s, id, toolName))
  {
    ArmKeepsChannels(Undecided(s), s.deciders, s.channels, id);
    ArmKeepsOnce(s, id, toolName);
    hide HistoryIsRecent, ChannelsFit, InLog, DecidedOnce;
    assert Undecided(AfterArm(s, id, toolName)) == Undecided(s) + {id};
  }

  lemma ArmKeepsOnce(s: State, id: string, toolName: string)
    requires DecidedOnce(s.log, s.deciders, s.pending, s.creating) && id !in Undecided(s)
    requires forall k :: 0 <= k < |s.deciders| ==> s.deciders[k].id != id
    ensures var s' := AfterArm(s, id, toolName); DecidedOnce(s'.log, s'.deciders, s'.pending, s'.creating)
  {
    hide Agrees;
  }

  lemma InsertKeepsInv(s: State, id: string)
    requires Inv(s) && id in s.creating
    ensures Inv(AfterInsert(s, id))
  {
    hide HistoryIsRecent, ChannelsFit, InLog;
    assert Undecided(AfterInsert(s, id)) == Undecided(s);
  }

  /** What a decision with this status signals. */
  predicate Signals(status: Status, d: Decision) {
    && status != Pending && (d.approved <==> status == Approved)
    && (status == TimedOut ==> d == TIMEOUT_DECISION)
  }

  lemma DecideKeepsInv(s: State, id: string, status: Status, d: Decision)
    requires Inv(s) && Signals(status, d)
    ensures Inv(AfterDecide(s, id, status, d))
  {
    if id in s.pending {
      var a := Decided(s.pending[id], status, d.decidedBy, if status == TimedOut then "" else d.notes);
      assert a.id == id;
      hide *;
      DecideParts(s, a, Decider(id, d, ToSend));
    }
  }

  lemma DecideParts(s: State, a: GuardAction, d: Decider)
    requires Inv(s) && a.id in s.pending && a.id == d.id && Agrees(a, d.decision) && d.stage == ToSend
    ensures Inv(s.(pending := s.pending - {a.id}, history := Recorded(s.history, a), log := s.log + [a],
                   deciders := s.deciders + [d]))
  {
    PendingIsNotCreating(s, a.id);
    hide HistoryIsRecent, DecidedOnce, ChannelsFit, Recorded, Accounted, Agrees;
    RecordedIsRecent(s.history, s.log, a);
    DecideKeepsOnce(s.log, s.deciders, s.pending, s.creating, a, d);
    DecideKeepsChannels(Undecided(s), s.deciders, s.channels, d);
    DecideKeepsAccounted(s.channels.Keys, Undecided(s), s.log, a);
    OneFewerUndecided(s.pending, s.creating, a.id);
  }

  lemma OneFewerUndecided(pending: map<string, GuardAction>, creating: map<string, GuardAction>, id: string)
    requires id !in creating
    ensures (pending - {id}).Keys + creating.Keys == pending.Keys + creating.Keys - {id}
  {
  }

  lemma PendingIsNotCreating(s: State, id: string)
    requires DecidedOnce(s.log, s.deciders, s.pending, s.creating) && id in s.pending
    ensures id !in s.creating
  {
  }

  /** A decider meets the channel it expects. */
  lemma DeciderChannel(s: State, k: nat)
    requires Inv(s) && k < |s.deciders|
    ensures s.deciders[k].id in s.channels
            && ChannelFits(s.channels[s.deciders[k].id], s.deciders[k].stage, s.deciders[k].decision)
  {
  }

  lemma MoveKeepsInv(s: State, k: nat, ch: Channel, stage: Stage)
    requires Inv(s) && k < |s.deciders| && ChannelFits(ch, stage, s.deciders[k].decision)
    ensures Inv(Moved(s, k, ch, stage))
  {
    hide HistoryIsRecent, DecidedOnce, ChannelsFit, ChannelFits, Accounted;
    var s' := Moved(s, k, ch, stage);
    assert s'.channels.Keys == s.channels.Keys by {
      DeciderChannel(s, k);
    }
    assert Undecided(s') == Undecided(s);
    assert DecidedOnce(s'.log, s'.deciders, s'.pending, s'.creating) by {
      MoveKeepsOnce(s.log, s.deciders, s.pending, s.creating, k, stage);
    }
    assert ChannelsFit(Undecided(s), s'.deciders, s'.channels) by {
      OtherDecidersElsewhere(s.log, s.deciders, s.pending, s.creating, k);
      MoveKeepsChannels(Undecided(s), s.deciders, s.channels, k, ch, stage);
    }
  }

  lemma SendKeepsInv(s: State, k: nat)
    requires Inv(s) && k < |s.deciders| && s.deciders[k].stage == ToSend && s.deciders[k].id in s.channels
    ensures Inv(AfterSend(s, k))
    // The send neither blocks nor panics: the channel is open and its buffer empty.
    ensures s.channels[s.deciders[k].id].buffer == [] && !s.channels[s.deciders[k].id].closed
  {
    hide Inv;
    DeciderChannel(s, k);
    var d := s.deciders[k];
    var ch := s.channels[d.id];
    MoveKeepsInv(s, k, ch.(buffer := ch.buffer + [d.decision]), ToClose);
  }

  lemma CloseKeepsInv(s: State, k: nat)
    requires Inv(s) && k < |s.deciders| && s.deciders[k].stage == ToClose && s.deciders[k].id in s.channels
    ensures Inv(AfterClose(s, k))
    ensures !s.channels[s.deciders[k].id].closed
  {
    hide Inv;
    DeciderChannel(s, k);
    MoveKeepsInv(s, k, s.channels[s.deciders[k].id].(closed := true), Finished);
  }

  lemma ReceiveKeepsInv(s: State, id: string)
    requires Inv(s) && id in s.channels && s.channels[id].buffer != []
    ensures Inv(AfterReceive(s, id))
  {
    hide HistoryIsRecent, DecidedOnce, ChannelsFit, InLog;
    ReceiveKeepsChannels(Undecided(s), s.deciders, s.channels, id);
  }

  lemma StepKeepsInv(s: State, step: Step)
    requires Inv(s) && Enabled(s, step)
    ensures Inv(Apply(s, step))
  {
    hide Inv, AfterArm, AfterInsert, AfterDecide, AfterSend, AfterClose, AfterReceive;
    match step
    case Arm(id, toolName) => ArmKeepsInv(s, id, toolName);
    case Insert(id) => InsertKeepsInv(s, id);
    case Decide(id, approved, decidedBy, notes) =>
      DecideKeepsInv(s, id, if approved then Approved else Rejected, Decision(approved, decidedBy, notes));
    case Timeout(id) => DecideKeepsInv(s, id, TimedOut, TIMEOUT_DECISION);
    case Send(k) => SendKeepsInv(s, k);
    case Close(k) => CloseKeepsInv(s, k);
    case Receive(id) => ReceiveKeepsInv(s, id);
  }

  lemma {:induction false} InvAlways(s: State, steps: seq<Step>)
    requires Inv(s) && Feasible(s, steps)
    ensures Inv(Exec(s, steps))
    decreases |steps|
  {
    if steps != [] {
      hide Inv, Apply, Enabled;
      StepKeepsInv(s, steps[0]);
      InvAlways(Apply(s, steps[0]), steps[1..]);
    }
  }

  /** What has become of a created action: exactly one of being created, pending and decided. */
  ghost predicate FateIsClear(s: State, id: string) {
    || (id in s.creating && id !in s.pending && !InLog(s.log, id))
    || (id in s.pending && id !in s.creating && !InLog(s.log, id))
    || (id !in s.pending && id !in s.creating && InLog(s.log, id))
  }

  /** The channel of a decided action has carried nothing yet or the logged decision, once; it is closed after that. */
  predicate SignalIsRight(s: State, k: nat)
    requires k < |s.log|
  {
    && k < |s.deciders| && s.deciders[k].id == s.log[k].id && s.log[k].id in s.channels
    && var d, ch := s.deciders[k], s.channels[s.log[k].id];
       && Agrees(s.log[k], d.decision)
       && ch.Carried() == (if d.stage == ToSend then [] else [d.decision])
       && (ch.closed <==> d.stage == Finished)
  }

  /**
    Every run from the start.  An action created is still being created, or pending,
    or decided, and only one of these; while undecided nothing was sent to its
    caller.  It is decided once; the caller's channel carries that decision and
    nothing else, and is closed after it.  The history is the recent end of the log.
    */
  lemma DecisionsAreFinal(steps: seq<Step>)
    requires Feasible(INIT, steps)
    ensures var s := Exec(INIT, steps);
            && !s.panicked
            && (forall id :: id in s.channels ==> FateIsClear(s, id))
            && (forall id :: id in s.pending || id in s.creating ==> id in s.channels && s.channels[id] == NEW_CHANNEL)
            && (forall i, j :: 0 <= i < j < |s.log| ==> s.log[i].id != s.log[j].id)
            && |s.deciders| == |s.log| && (forall k :: 0 <= k < |s.log| ==> SignalIsRight(s, k))
            && HistoryIsRecent(s.history, s.log)
  {
    InvAlways(INIT, steps);
    var s := Exec(INIT, steps);
    hide Exec, Feasible, HistoryIsRecent;
    forall id | id in s.channels
      ensures FateIsClear(s, id)
    {
      FateFollows(s, id);
    }
    forall id | id in s.pending || id in s.creating
      ensures id in s.channels && s.channels[id] == NEW_CHANNEL
    {
      assert id in Undecided(s);
    }
    forall k | 0 <= k < |s.log|
      ensures SignalIsRight(s, k)
    {
      SignalFollows(s, k);
    }
    hide Inv;
  }

  lemma FateFollows(s: State, id: string)
    requires Inv(s) && id in s.channels
    ensures FateIsClear(s, id)
  {
    hide HistoryIsRecent, ChannelsFit, Agrees;
    assert id in Undecided(s) || InLog(s.log, id);
  }

  lemma SignalFollows(s: State, k: nat)
    requires Inv(s) && k < |s.log|
    ensures SignalIsRight(s, k)
  {
    hide HistoryIsRecent, Accounted, Agrees;
    DeciderChannel(s, k);
  }

  lemma ArmThenInsert(s: State, id: string, toolName: string)
    requires Inv(s) && id !in s.channels && s.creating == map[]
    ensures id in AfterArm(s, id, toolName).creating
    ensures var s' := AfterInsert(AfterArm(s, id, toolName), id);
            && Inv(s')
            && s' == s.(pending := s.pending[id := GuardAction(id, toolName, Pending, "", "")],
                        channels := s.channels[id := NEW_CHANNEL])
  {
    hide Inv;
    var armed := AfterArm(s, id, toolName);
    assert id in armed.creating;
    ArmKeepsInv(s, id, toolName);
    InsertKeepsInv(armed, id);
    OnlyOne(id, GuardAction(id, toolName, Pending, "", ""));
  }

  lemma OnlyOne(id: string, a: GuardAction)
    ensures var none: map<string, GuardAction> := map[]; none[id := a] - {id} == none
  {
  }

  // ----- The manager, called from one goroutine at a time -----

  class ActionManager {
    var pending: map<string, GuardAction>
    var history: seq<GuardAction>
    var channels: map<string, Channel>
    ghost var log: seq<GuardAction>
    ghost var deciders: seq<Decider>

    ghost function Value(): State
      reads this
    {
      State(map[], pending, history, channels, log, deciders, false)
    }

    constructor ()
      ensures Value() == INIT && Inv(Value())
    {
      pending, history, channels, log, deciders := map[], [], map[], [], [];
    }

    /** Arms the timer and inserts the action under a fresh ID. */
    method CreatePending(id: string, toolName: string)
      requires Inv(Value()) && id !in channels
      modifies this
      ensures Inv(Value())
      ensures pending == old(pending)[id := GuardAction(id, toolName, Pending, "", "")]
      ensures channels == old(channels)[id := NEW_CHANNEL]
      ensures history == old(history) && log == old(log)
    {
      ArmThenInsert(Value(), id, toolName);
      hide Inv, AfterArm, AfterInsert;
      channels := channels[id := NEW_CHANNEL];
      pending := pending[id := GuardAction(id, toolName, Pending, "", "")];
    }

    /** The part of `decide` and `timeoutAction` under the mutex. */
    method TakeDecision(id: string, status: Status, d: Decision) returns (action: Option<GuardAction>)
      requires Inv(Value()) && Signals(status, d)
      modifies this
      ensures Inv(Value()) && Value() == AfterDecide(old(Value()), id, status, d)
      ensures action.Some? <==> id in old(pending)
      ensures action.Some? ==> |deciders| > 0 && deciders[|deciders| - 1] == Decider(id, d, ToSend)
      ensures action.Some? ==> action.value.id == id && action.value.status == status && action.value == log[|log| - 1]
    {
      hide Inv, Signals, Decided, Recorded, AfterDecide;
      DecisionTaken(Value(), id, status, d);
      if id !in pending {
        return None;
      }
      var a := Decided(pending[id], status, d.decidedBy, if status == TimedOut then "" else d.notes);
      pending := pending - {id};
      history := Append(history, a);
      log := log + [a];
      deciders := deciders + [Decider(id, d, ToSend)];
      return Some(a);
    }

    /** What there is to do for a decision, field by field. */
    lemma DecisionTaken(s: State, id: string, status: Status, d: Decision)
      requires Inv(s) && Signals(status, d)
      ensures Inv(AfterDecide(s, id, status, d))
      ensures id !in s.pending ==> AfterDecide(s, id, status, d) == s
      ensures id in s.pending ==>
                var a := Decided(s.pending[id], status, d.decidedBy, if status == TimedOut then "" else d.notes);
                && a.id == id && a.status == status
                && AfterDecide(s, id, status, d)
                   == State(s.creating, s.pending - {id}, Recorded(s.history, a), s.channels, s.log + [a],
                            s.deciders + [Decider(id, d, ToSend)], s.panicked)
    {
      DecideKeepsInv(s, id, status, d);
      PendingAreBlank(s);
      hide Inv, Signals, Recorded;
    }

    lemma PendingAreBlank(s: State)
      requires Inv(s)
      ensures forall id :: id in s.pending ==> IsBlank(s.pending[id], id)
    {
      hide HistoryIsRecent, ChannelsFit, Accounted, Agrees;
    }

    static method Append(history: seq<GuardAction>, a: GuardAction) returns (result: seq<GuardAction>)
      ensures result == Recorded(history, a)
    {
      result := history + [a];
      if |result| > HISTORY_MAX {
        result := result[|result| - HISTORY_KEPT..];
      }
    }

    /** The signal to the caller: the decision, then the end of the channel. */
    method Signal(ghost k: nat, id: string, d: Decision)
      requires Inv(Value()) && k < |deciders| && deciders[k] == Decider(id, d, ToSend)
      modifies this
      ensures Inv(Value())
      ensures id in channels && channels[id] == Channel([d], [], true)
      ensures pending == old(pending) && history == old(history) && log == old(log)
    {
      hide Inv;
      SignalGiven(Value(), k);
      var ch := channels[id].(buffer := channels[id].buffer + [d]);
      assert ch == Channel([d], [], false);
      channels := channels[id := ch];
      deciders := deciders[k := Decider(id, d, ToClose)];
      channels := channels[id := ch.(closed := true)];
      deciders := deciders[k := Decider(id, d, Finished)];
    }

    /** Send and close, one after the other. */
    lemma SignalGiven(s: State, k: nat)
      requires Inv(s) && k < |s.deciders| && s.deciders[k].stage == ToSend
      ensures s.deciders[k].id in s.channels && s.channels[s.deciders[k].id] == NEW_CHANNEL
      ensures var d := s.deciders[k];
              Inv(Moved(Moved(s, k, Channel([d.decision], [], false), ToClose),
                        k, Channel([d.decision], [], true), Finished))
    {
      hide Inv, Moved;
      var d := s.deciders[k].decision;
      UnsentIsNew(s, k);
      SendKeepsInv(s, k);
      assert NEW_CHANNEL.buffer + [d] == [d];
      var sent := Moved(s, k, Channel([d], [], false), ToClose);
      MovedStage(s, k, Channel([d], [], false), ToClose);
      CloseKeepsInv(sent, k);
    }

    lemma MovedStage(s: State, k: nat, ch: Channel, stage: Stage)
      requires k < |s.deciders|
      ensures var s' := Moved(s, k, ch, stage);
              && |s'.deciders| == |s.deciders| && s'.deciders[k] == s.deciders[k].(stage := stage)
              && s.deciders[k].id in s'.channels && s'.channels[s.deciders[k].id] == ch
    {
    }

    lemma UnsentIsNew(s: State, k: nat)
      requires Inv(s) && k < |s.deciders| && s.deciders[k].stage == ToSend
      ensures s.deciders[k].id in s.channels && s.channels[s.deciders[k].id] == NEW_CHANNEL
    {
      DeciderChannel(s, k);
      hide Inv;
      CarriesNothing(s.channels[s.deciders[k].id], s.deciders[k].decision);
    }

    lemma CarriesNothing(ch: Channel, d: Decision)
      requires ChannelFits(ch, ToSend, d)
      ensures ch == NEW_CHANNEL
    {
      assert |ch.Carried()| == |ch.received| + |ch.buffer|;
    }

    /** `Approve` and `Reject`: an error exactly when the action is not pending. */
    method DecideNow(id: string, approved: bool, decidedBy: string, notes: string) returns (action: Option<GuardAction>)
      requires Inv(Value())
      modifies this
      ensures Inv(Value())
      ensures action.Some? <==> id in old(pending)
      ensures action.None? ==> Value() == old(Value())
      ensures action.Some? ==>
                && pending == old(pending) - {id}
                && action.value == old(pending)[id].(status := if approved then Approved else Rejected,
                                                     decidedBy := decidedBy, notes := notes)
                && log == old(log) + [action.value] && HistoryIsRecent(history, log)
                && id in channels && channels[id] == Channel([Decision(approved, decidedBy, notes)], [], true)
    {
      hide Inv;
      var d := Decision(approved, decidedBy, notes);
      assert Signals(if approved then Approved else Rejected, d);
      action := TakeDecision(id, if approved then Approved else Rejected, d);
      if action.Some? {
        Signal(|deciders| - 1, id, d);
      }
      HistoryInLog(Value());
    }

    /** `timeoutAction`: nothing happens when the action is not pending any more. */
    method TimeoutAction(id: string)
      requires Inv(Value())
      modifies this
      ensures Inv(Value())
      ensures id !in old(pending) ==> Value() == old(Value())
      ensures id in old(pending) ==>
                var action := old(pending)[id].(status := TimedOut);
                && pending == old(pending) - {id}
                && log == old(log) + [action] && HistoryIsRecent(history, log)
                && id in channels && channels[id] == Channel([Decision(false, "", "timeout")], [], true)
    {
      PendingAreBlank(Value());
      hide Inv;
      assert Signals(TimedOut, TIMEOUT_DECISION);
      var action := TakeDecision(id, TimedOut, TIMEOUT_DECISION);
      if action.Some? {
        Signal(|deciders| - 1, id, TIMEOUT_DECISION);
      }
      HistoryInLog(Value());
    }

    lemma HistoryInLog(s: State)
      requires Inv(s)
      ensures HistoryIsRecent(s.history, s.log)
    {
      hide HistoryIsRecent, DecidedOnce, ChannelsFit, Accounted;
    }

    lemma HistoryIsLogged(history: seq<GuardAction>, log: seq<GuardAction>)
      requires HistoryIsRecent(history, log)
      ensures forall a :: a in history ==> a in log
      ensures |log| <= 1000 ==> history == log
      ensures history == log[|log| - Kept(|log|)..]
    {
    }

    /** Looks among the pending actions, then through the history from its end. */
    method GetAction(id: string) returns (action: Option<GuardAction>)
      requires Inv(Value())
      ensures id in pending ==> action == Some(pending[id])
      ensures id !in pending ==> (action.Some? <==> InLog(history, id))
      ensures id !in pending && action.Some? ==> action.value in history && action.value.id == id && action.value in log
      // A decision is missed exactly when it was cut.
      ensures id !in pending ==> (action.None? <==> !InLog(log[|log| - Kept(|log|)..], id))
      ensures action.None? && InLog(log, id) ==> |log| > 1000
    {
      HistoryIsLogged(history, log);
      hide Inv, InLog;
      if id in pending {
        return Some(pending[id]);
      }
      action := FindLast(history, id);
    }

    static method FindLast(history: seq<GuardAction>, id: string) returns (action: Option<GuardAction>)
      ensures action.Some? <==> InLog(history, id)
      ensures action.Some? ==> action.value in history && action.value.id == id
    {
      var i := |history|;
      while i > 0
        invariant 0 <= i <= |history| && forall k :: i <= k < |history| ==> history[k].id != id
      {
        i := i - 1;
        if history[i].id == id {
          assert history[i] in history;
          return Some(history[i]);
        }
      }
      return None;
    }

    /** The most recent decisions first. */
    method History(limit: int) returns (result: seq<GuardAction>)
      requires Inv(Value())
      ensures var n := if limit <= 0 || limit > |history| then |history| else limit;
              && n <= |log| && |result| == n
              && result == LatestFirst(log, n)
              && forall i :: 0 <= i < n ==> result[i] == log[|log| - 1 - i]
    {
      hide HistoryIsRecent, DecidedOnce, ChannelsFit, Undecided;
      result := Latest(history, if limit <= 0 || limit > |history| then |history| else limit);
      LatestAgree(history, log, |result|);
      forall i | 0 <= i < |result|
        ensures result[i] == log[|log| - 1 - i]
      {
        LatestFirstAt(log, |result|, i);
      }
    }

    static method Latest(history: seq<GuardAction>, n: nat) returns (result: seq<GuardAction>)
      requires n <= |history|
      ensures |result| == n && result == LatestFirst(history, n)
    {
      result := [];
      for i := 0 to n
        invariant |result| == i && result == LatestFirst(history, i)
      {
        result := result + [history[|history| - 1 - i]];
      }
    }
  }
}
