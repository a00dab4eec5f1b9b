/**
  The pulse engine of internal/pulse/engine.go: cadences that fire when their cron
  schedules say so.  Instants are nanoseconds, as in CronSchedule.

  One goroutine runs the ticks.  A tick reads the clock, takes a snapshot of the
  cadence IDs and evaluates each; firing releases the lock, dispatches, and takes the
  lock again to clear the running mark.  Other goroutines create, update and delete
  cadences between any two of these parts.  Readings of the clock never decrease.
  */
module Pulse {
  import opened Strings
  import opened CronSchedule
  import CronParser
  import Collections

  // ----- When a schedule fires next -----

  type Durations = string -> Option<int>

  /** The first minute after an instant that the five fields speak of. */
  ghost predicate FirstSaid(fields: seq<string>, after: int, m: int)
    requires |fields| == 5
  {
    && after < m * NANOS_PER_MINUTE < after + SEARCH_WINDOW
    && CronParser.Says(fields, m)
    && forall u :: after < u * NANOS_PER_MINUTE && u < m ==> !CronParser.Says(fields, u)
  }

  /** When a schedule fires next, said without the parser and the search; None when it does not parse. */
  ghost function Timing(parseDuration: Durations, schedule: string, after: int): Option<int> {
    var e := CronParser.Canonical(schedule);
    if HasPrefix(e, CronParser.EVERY) then
      var d := parseDuration(e[|CronParser.EVERY|..]);
      if d.Some? && d.value > 0 then Some(after + d.value) else None
    else
      var fields := Fields(e);
      if !CronParser.WellFormed(fields) then None
      else if m :| FirstSaid(fields, after, m) then Some(m * NANOS_PER_MINUTE)
      else Some(after + NANOS_PER_MINUTE)
  }

  predicate Parses(parseDuration: Durations, schedule: string) {
    var e := CronParser.Canonical(schedule);
    if HasPrefix(e, CronParser.EVERY) then
      var d := parseDuration(e[|CronParser.EVERY|..]);
      d.Some? && d.value > 0
    else CronParser.WellFormed(Fields(e))
  }

  /** A `@every` schedule with its duration. */
  predicate IsEvery(parseDuration: Durations, schedule: string, d: int) {
    var e := CronParser.Canonical(schedule);
    HasPrefix(e, CronParser.EVERY) && parseDuration(e[|CronParser.EVERY|..]) == Some(d) && d > 0
  }

  /** No minute or month step is so large that the parser's arithmetic wraps around. */
  predicate NoWrap(schedule: string) {
    var e := CronParser.Canonical(schedule);
    HasPrefix(e, CronParser.EVERY) || !CronParser.WellFormed(Fields(e)) || !CronParser.SearchFieldWraps(Fields(e))
  }

  lemma TimingIsLater(parseDuration: Durations, schedule: string, after: int)
    ensures var next := Timing(parseDuration, schedule, after);
            && (next.Some? <==> Parses(parseDuration, schedule))
            && (next.Some? ==> next.value > after)
            && (forall d :: IsEvery(parseDuration, schedule, d) ==> next == Some(after + d))
  {
    hide CronParser.Canonical, CronParser.WellFormed, CronParser.Says, Fields;
  }

  /** Five well-formed fields name the first minute they speak of, or the instant a minute later when there is none. */
  lemma TimingOfFields(parseDuration: Durations, schedule: string, after: int)
    requires var e := CronParser.Canonical(schedule);
             !HasPrefix(e, CronParser.EVERY) && CronParser.WellFormed(Fields(e))
    ensures var next, fields := Timing(parseDuration, schedule, after), Fields(CronParser.Canonical(schedule));
            && next.Some?
            && (forall m :: FirstSaid(fields, after, m) ==> next.value == m * NANOS_PER_MINUTE)
            && ((forall m :: !FirstSaid(fields, after, m)) ==> next.value == after + NANOS_PER_MINUTE)
  {
    hide CronParser.Canonical, CronParser.Says, Fields;
    var fields := Fields(CronParser.Canonical(schedule));
    assert |fields| == 5;
    hide CronParser.WellFormed;
    forall m, n | FirstSaid(fields, after, m) && FirstSaid(fields, after, n)
      ensures m == n
    {
      FirstSaidIsUnique(fields, after, m, n);
    }
  }

  lemma FirstSaidIsUnique(fields: seq<string>, after: int, m: int, n: int)
    requires |fields| == 5 && FirstSaid(fields, after, m) && FirstSaid(fields, after, n)
    ensures m == n
  {
  }

  /** What a parsed schedule says is what the expression says. */
  ghost predicate Means(s: Schedule, parseDuration: Durations, schedule: string) {
    var e := CronParser.Canonical(schedule);
    if HasPrefix(e, CronParser.EVERY) then IsEvery(parseDuration, schedule, s.every)
    else
      && CronParser.WellFormed(Fields(e)) && FiveField(s)
      && forall t :: Matches(s, t) <==> CronParser.Says(Fields(e), t)
  }

  method ParseSchedule(parseDuration: Durations, schedule: string) returns (s: Option<Schedule>)
    requires NoWrap(schedule)
    ensures s.Some? <==> Parses(parseDuration, schedule)
    ensures s.Some? ==> Means(s.value, parseDuration, schedule)
  {
    hide CronParser.Canonical, CronParser.Says, Fields, CronParser.SearchFieldWraps, FiveField, Matches;
    var r := CronParser.Parse(schedule, parseDuration);
    return if r.Success? then Some(r.value) else None;
  }

  /** Parsing the schedule and searching from `after` computes just that. */
  method NextTime(parseDuration: Durations, schedule: string, after: int) returns (next: Option<int>)
    requires NoWrap(schedule)
    ensures next == Timing(parseDuration, schedule, after)
  {
    TimingIsLater(parseDuration, schedule, after);
    hide *;
    var s := ParseSchedule(parseDuration, schedule);
    if s.None? {
      return None;
    }
    MeaningIsUsable(s.value, parseDuration, schedule);
    var t := NextAfter(s.value, after);
    SearchIsTiming(s.value, parseDuration, schedule, after, t);
    return Some(t);
  }

  lemma MeaningIsUsable(s: Schedule, parseDuration: Durations, schedule: string)
    requires Means(s, parseDuration, schedule)
    ensures s.every > 0 || FiveField(s)
  {
    hide CronParser.Canonical, CronParser.Says, Fields, Matches;
  }

  lemma SearchIsTiming(s: Schedule, parseDuration: Durations, schedule: string, after: int, t: int)
    requires Means(s, parseDuration, schedule)
    requires s.every > 0 ==> t == after + s.every
    requires s.every <= 0 && MatchInWindow(s, after) ==>
               exists m :: t == m * NANOS_PER_MINUTE && IsFirstMatchAfter(s, after, m)
    requires s.every <= 0 && !MatchInWindow(s, after) ==> t == after + NANOS_PER_MINUTE
    ensures Timing(parseDuration, schedule, after) == Some(t)
  {
    hide CronParser.Canonical, CronParser.Says, Fields, Matches, MatchInWindow, IsFirstMatchAfter, FirstSaid, IsField;
    var e := CronParser.Canonical(schedule);
    if !HasPrefix(e, CronParser.EVERY) {
      SearchFindsFirst(s, Fields(e), after, t);
    }
  }

  lemma SearchFindsFirst(s: Schedule, fields: seq<string>, after: int, t: int)
    requires |fields| == 5 && forall u :: Matches(s, u) <==> CronParser.Says(fields, u)
    requires MatchInWindow(s, after) ==> exists m :: t == m * NANOS_PER_MINUTE && IsFirstMatchAfter(s, after, m)
    requires !MatchInWindow(s, after) ==> t == after + NANOS_PER_MINUTE
    ensures (exists m :: FirstSaid(fields, after, m)) || t == after + NANOS_PER_MINUTE
    ensures forall m :: FirstSaid(fields, after, m) ==> t == m * NANOS_PER_MINUTE
  {
    hide CronParser.Says, Matches;
    if MatchInWindow(s, after) {
      var m :| t == m * NANOS_PER_MINUTE && IsFirstMatchAfter(s, after, m);
      var n :| after < n * NANOS_PER_MINUTE < after + SEARCH_WINDOW && Matches(s, n);
      assert m <= n;
      assert FirstSaid(fields, after, m);
      forall k | FirstSaid(fields, after, k)
        ensures t == k * NANOS_PER_MINUTE
      {
        FirstSaidIsUnique(fields, after, m, k);
      }
    }
    assert forall m :: FirstSaid(fields, after, m) ==> Matches(s, m);
  }

  // ----- Cadences -----

  datatype Error =
    | NameRequired
    | ScheduleRequired
    | InvalidPriority
    | InvalidMode
    | TargetRequired
    | InvalidSchedule
    | IdRequired
    | NotFound

  const BACKGROUND := "background"
  const MODE_EVENT := "event"
  const MODE_AGENT_ORDER := "agent_order"

  predicate ValidPriority(priority: string) { priority == BACKGROUND || priority == "standard" || priority == "urgent" }

  predicate ValidMode(mode: string) { mode == MODE_EVENT || mode == MODE_AGENT_ORDER || mode == "" }

  /**
    A cadence, with its history: all its fires, how many of them came before it got
    its present schedule, and the instant from which that schedule was first asked.
    */
  datatype Cadence = Cadence(
    name: string,
    schedule: string,
    priority: string,
    mode: string,
    targetAgent: string,
    enabled: bool,
    running: bool,
    lastFired: Option<int>,
    nextFire: Option<int>,
    fires: seq<int>,
    before: nat,
    setAt: int)

  predicate IsDue(c: Cadence, now: int) { c.nextFire.Some? && c.nextFire.value <= now }

  /** A cadence that is due, enabled and idle fires, unless it is a background one under backpressure. */
  predicate Fires(c: Cadence, now: int, backpressure: bool) {
    && c.enabled && IsDue(c, now)
    && !c.running && !(c.priority == BACKGROUND && backpressure)
  }

  ghost function Fired(pd: Durations, c: Cadence, now: int): Cadence {
    c.(running := true, lastFired := Some(now), nextFire := Timing(pd, c.schedule, now), fires := c.fires + [now])
  }

  ghost function Created(pd: Durations, name: string, schedule: string, priority: string, mode: string,
                         targetAgent: string,
                         now: int): Cadence
  {
    Cadence(name, schedule, priority, if mode == "" then MODE_EVENT else mode, targetAgent, true, false, None,
            Timing(pd, schedule, now), [], 0, now)
  }

  function CreateError(pd: Durations, name: string, schedule: string, priority: string, mode: string,
                       targetAgent: string): Option<Error> {
    if name == "" then Some(NameRequired)
    else if schedule == "" then Some(ScheduleRequired)
    else if !ValidPriority(priority) then Some(InvalidPriority)
    else if !ValidMode(mode) then Some(InvalidMode)
    else if mode == MODE_AGENT_ORDER && targetAgent == "" then Some(TargetRequired)
    else if !Parses(pd, schedule) then Some(InvalidSchedule)
    else None
  }

  /** An update takes effect part by part: what precedes an error stays changed. */
  ghost function Updated(pd: Durations, c: Cadence, name: string, schedule: string, priority: string,
                         now: int): (Cadence, Option<Error>) {
    var c1 := if name == "" then c else c.(name := name);
    var changes := schedule != "" && schedule != c.schedule;
    if changes && !Parses(pd, schedule) then (c1, Some(InvalidSchedule))
    else
      var c2 := if !changes then c1
                else Rescheduled(c1, schedule, Timing(pd, schedule, now), now);
      if priority == "" then (c2, None)
      else if !ValidPriority(priority) then (c2, Some(InvalidPriority))
      else (c2.(priority := priority), None)
  }

  /** What an update does to each field, and how it fails. */
  lemma UpdatedFields(pd: Durations, c: Cadence, name: string, schedule: string, priority: string, now: int)
    ensures var (c', error) := Updated(pd, c, name, schedule, priority, now);
            && UpdateIsRight(pd, c, c', error, name, schedule, priority, now)
  {
    hide Parses, Timing;
  }

  /** A new schedule must parse, a new priority be one of the three; a failed schedule also stops the priority. */
  ghost predicate UpdateIsRight(pd: Durations, c: Cadence, c': Cadence, error: Option<Error>, name: string,
                                schedule: string, priority: string, now: int) {
    var reschedules := schedule != "" && schedule != c.schedule;
    && error == (if reschedules && !Parses(pd, schedule) then Some(InvalidSchedule)
                 else if priority !in {"", "background", "standard", "urgent"} then Some(InvalidPriority)
                 else None)
    && c'.name == (if name == "" then c.name else name)
    && (if reschedules && Parses(pd, schedule)
        then c'.schedule == schedule && c'.nextFire == Timing(pd, schedule, now)
        else c'.schedule == c.schedule && c'.nextFire == c.nextFire)
    && c'.priority == (if error.None? && priority != "" then priority else c.priority)
    && c'.mode == c.mode && c'.targetAgent == c.targetAgent && c'.enabled == c.enabled
    && c'.running == c.running && c'.lastFired == c.lastFired && c'.fires == c.fires
  }

  /**
    Exactly when an update that fails leaves the cadence as it was: when it brings no
    new name, and no new schedule that parses.
    */
  lemma FailedUpdateUndoneIff(pd: Durations, c: Cadence, name: string, schedule: string, priority: string, now: int)
    requires Updated(pd, c, name, schedule, priority, now).1.Some?
    ensures Updated(pd, c, name, schedule, priority, now).0 == c
            <==> && (name == "" || name == c.name)
                 && (schedule == "" || schedule == c.schedule || !Parses(pd, schedule))
  {
    hide Parses, Timing;
    assert Updated(pd, c, name, schedule, priority, now).0.name == if name == "" then c.name else name;
  }

  // ----- One cadence -----

  predicate Increasing(times: seq<int>) { forall i, j :: 0 <= i < j < |times| ==> times[i] < times[j] }

  /** The instant from which the present schedule was last asked for its next fire. */
  function AskedAt(c: Cadence): int
    requires c.before <= |c.fires|
  {
    if c.before < |c.fires| then c.fires[|c.fires| - 1] else c.setAt
  }

  /** No fire comes before the time that the schedule named at the fire before it. */
  ghost predicate Spaced(pd: Durations, schedule: string, fires: seq<int>, before: nat, setAt: int) {
    forall i :: before <= i < |fires| ==> OnTime(pd, schedule, Previous(fires, before, setAt, i), fires[i])
  }

  function Previous(fires: seq<int>, before: nat, setAt: int, i: int): int
    requires before <= i <= |fires|
  {
    if i == before then setAt else fires[i - 1]
  }

  ghost predicate OnTime(pd: Durations, schedule: string, asked: int, fire: int) {
    var due := Timing(pd, schedule, asked);
    due.Some? && fire >= due.value
  }

  ghost predicate CadenceInv(pd: Durations, c: Cadence, time: int) {
    && c.enabled && NoWrap(c.schedule) && Parses(pd, c.schedule)
    && c.before <= |c.fires| && AskedAt(c) <= time
    && c.nextFire.Some? && c.nextFire == Timing(pd, c.schedule, AskedAt(c))
    && c.lastFired == (if c.fires == [] then None else Some(c.fires[|c.fires| - 1]))
    && (c.lastFired.Some? ==> c.lastFired.value < c.nextFire.value)
    && (c.lastFired.Some? ==> c.lastFired.value <= time)
    && Increasing(c.fires)
    && Spaced(pd, c.schedule, c.fires, c.before, c.setAt)
  }

  lemma FiringKeepsInv(pd: Durations, c: Cadence, time: int, now: int)
    requires CadenceInv(pd, c, time) && c.nextFire.value <= now <= time
    ensures CadenceInv(pd, Fired(pd, c, now), time)
    ensures Fired(pd, c, now).nextFire.value > now
  {
    TimingIsLater(pd, c.schedule, now);
    hide Timing, Parses, NoWrap;
    var fires := c.fires + [now];
    forall i, j | 0 <= i < j < |fires|
      ensures fires[i] < fires[j]
    {
      if j == |c.fires| && i < j - 1 {
        assert c.fires[i] < c.fires[j - 1];
      }
    }
    SpacedGoesOn(pd, c.schedule, c.fires, c.before, c.setAt, now);
  }

  lemma SpacedGoesOn(pd: Durations, schedule: string, fires: seq<int>, before: nat, setAt: int, now: int)
    requires Spaced(pd, schedule, fires, before, setAt) && before <= |fires|
    requires OnTime(pd, schedule, Previous(fires, before, setAt, |fires|), now)
    ensures Spaced(pd, schedule, fires + [now], before, setAt)
  {
    hide OnTime;
    var longer := fires + [now];
    forall i | before <= i < |longer|
      ensures OnTime(pd, schedule, Previous(longer, before, setAt, i), longer[i])
    {
      assert Previous(longer, before, setAt, i) == Previous(fires, before, setAt, i);
    }
  }

  lemma CreationHasInv(pd: Durations, name: string, schedule: string, priority: string, mode: string,
                       targetAgent: string,
                       now: int, time: int)
    requires CreateError(pd, name, schedule, priority, mode, targetAgent).None? && NoWrap(schedule) && now <= time
    ensures CadenceInv(pd, Created(pd, name, schedule, priority, mode, targetAgent, now), time)
  {
    TimingIsLater(pd, schedule, now);
    hide Timing, Parses, NoWrap;
  }

  function Rescheduled(c: Cadence, schedule: string, next: Option<int>, now: int): Cadence {
    c.(schedule := schedule, nextFire := next, before := |c.fires|, setAt := now)
  }

  lemma ReschedulingKeepsInv(pd: Durations, c: Cadence, schedule: string, now: int)
    requires CadenceInv(pd, c, now) && NoWrap(schedule) && Parses(pd, schedule)
    ensures CadenceInv(pd, Rescheduled(c, schedule, Timing(pd, schedule, now), now), now)
  {
    TimingIsLater(pd, schedule, now);
    hide Timing, Parses, NoWrap, Increasing;
  }

  /** Name, priority and running mark play no part in the invariant. */
  lemma LabelsDoNotMatter(pd: Durations, c: Cadence, c': Cadence, time: int)
    requires CadenceInv(pd, c, time)
    requires c' == c.(name := c'.name, priority := c'.priority, running := c'.running)
    ensures CadenceInv(pd, c', time)
  {
    hide Timing, Parses, NoWrap, Increasing, Spaced;
  }

  lemma UpdateKeepsInv(pd: Durations, c: Cadence, name: string, schedule: string, priority: string, now: int)
    requires CadenceInv(pd, c, now) && NoWrap(schedule)
    ensures CadenceInv(pd, Updated(pd, c, name, schedule, priority, now).0, now)
    ensures Updated(pd, c, name, schedule, priority, now).0.running == c.running
  {
    hide CadenceInv, NoWrap, Parses, Timing;
    var c' := Updated(pd, c, name, schedule, priority, now).0;
    if c'.schedule != c.schedule {
      ReschedulingKeepsInv(pd, c, schedule, now);
      LabelsDoNotMatter(pd, Rescheduled(c, schedule, Timing(pd, schedule, now), now), c', now);
    } else {
      LabelsDoNotMatter(pd, c, c', now);
    }
  }

  lemma LaterKeepsInv(pd: Durations, c: Cadence, time: int, later: int)
    requires CadenceInv(pd, c, time) && time <= later
    ensures CadenceInv(pd, c, later)
  {
    hide Timing, Parses, NoWrap, Increasing, Spaced;
  }

  lemma NextFireIsApart(pd: Durations, c: Cadence, time: int, d: int, i: nat)
    requires CadenceInv(pd, c, time) && IsEvery(pd, c.schedule, d) && c.before < i < |c.fires|
    ensures c.fires[i] >= c.fires[i - 1] + d
  {
    assert OnTime(pd, c.schedule, Previous(c.fires, c.before, c.setAt, i), c.fires[i]);
    TimingIsLater(pd, c.schedule, c.fires[i - 1]);
    hide Timing, Parses, NoWrap, Increasing, Spaced, IsEvery, AskedAt;
  }

  /** On an `@every d` schedule fires are at least d apart, also over any number of them. */
  lemma {:induction false} EveryIsSpaced(pd: Durations, c: Cadence, time: int, d: int, i: nat, j: nat)
    requires CadenceInv(pd, c, time) && IsEvery(pd, c.schedule, d)
    requires c.before <= i <= j < |c.fires|
    ensures c.fires[j] - c.fires[i] >= (j - i) * d
    decreases j - i
  {
    hide CadenceInv, IsEvery;
    if i < j {
      EveryIsSpaced(pd, c, time, d, i, j - 1);
      NextFireIsApart(pd, c, time, d, j);
      assert (j - i) * d == (j - 1 - i) * d + d;
    }
  }

  // ----- The engine -----

  datatype Phase =
    | Idle
    | Clocked(now: int)
    | Ticking(now: int, todo: set<string>)
    | Firing(now: int, todo: set<string>, id: string)

  /** `time` is the latest reading of the clock, `used` the IDs given out. */
  datatype State = State(cadences: map<string, Cadence>, phase: Phase, time: int, used: set<string>)

  datatype Step =
    | ReadClock(now: int)
    | Snapshot
    | Evaluate(id: string, backpressure: bool)
    | Done
    | EndTick
    | Create(id: string, name: string, schedule: string, priority: string, mode: string, targetAgent: string, now: int)
    | Update(id: string, name: string, schedule: string, priority: string, now: int)
    | Delete(id: string)

  predicate Enabled(s: State, step: Step) {
    match step
    case ReadClock(now) => s.phase.Idle? && now >= s.time
    case Snapshot => s.phase.Clocked?
    case Evaluate(id, _) => s.phase.Ticking? && id in s.phase.todo
    case Done => s.phase.Firing?
    case EndTick => s.phase.Ticking? && s.phase.todo == {}
    // The clock was read some time before the insertion.
    case Create(id, _, schedule, _, _, _, now) => id !in s.used && NoWrap(schedule)
    case Update(_, _, schedule, _, now) => now >= s.time && NoWrap(schedule)
    case Delete(_) => true
  }

  ghost function AfterEvaluate(pd: Durations, s: State, id: string, backpressure: bool): State
    requires s.phase.Ticking?
  {
    if id in s.cadences && Fires(s.cadences[id], s.phase.now, backpressure) then
      s.(cadences := s.cadences[id := Fired(pd, s.cadences[id], s.phase.now)],
         phase := Firing(s.phase.now, s.phase.todo - {id}, id))
    else s.(phase := Ticking(s.phase.now, s.phase.todo - {id}))
  }

  ghost function AfterDone(s: State): State
    requires s.phase.Firing?
  {
    var id, idle := s.phase.id, Ticking(s.phase.now, s.phase.todo);
    if id in s.cadences then s.(cadences := s.cadences[id := s.cadences[id].(running := false)], phase := idle)
    else s.(phase := idle)
  }

  function Max(a: int, b: int): int { if a > b then a else b }

  ghost function AfterCreate(pd: Durations, s: State, id: string, c: Cadence, now: int): State {
    s.(cadences := s.cadences[id := c], time := Max(s.time, now), used := s.used + {id})
  }

  ghost function AfterUpdate(pd: Durations, s: State, id: string, name: string, schedule: string, priority: string,
                             now: int): State {
    if id in s.cadences then
      s.(cadences := s.cadences[id := Updated(pd, s.cadences[id], name, schedule, priority, now).0], time := now)
    else s.(time := now)
  }

  ghost function Apply(pd: Durations, s: State, step: Step): State
    requires Enabled(s, step)
  {
    match step
    case ReadClock(now) => s.(phase := Clocked(now), time := now)
    case Snapshot => s.(phase := Ticking(s.phase.now, s.cadences.Keys))
    case Evaluate(id, backpressure) => AfterEvaluate(pd, s, id, backpressure)
    case Done => AfterDone(s)
    case EndTick => s.(phase := Idle)
    case Create(id, name, schedule, priority, mode, targetAgent, now) =>
      if CreateError(pd, name, schedule, priority, mode, targetAgent).None?
      then AfterCreate(pd, s, id, Created(pd, name, schedule, priority, mode, targetAgent, now), now)
      else s
    case Update(id, name, schedule, priority, now) => AfterUpdate(pd, s, id, name, schedule, priority, now)
    case Delete(id) => s.(cadences := s.cadences - {id})
  }

  ghost predicate Feasible(pd: Durations, s: State, steps: seq<Step>)
    decreases |steps|
  {
    steps != [] ==> Enabled(s, steps[0]) && Feasible(pd, Apply(pd, s, steps[0]), steps[1..])
  }

  ghost function Exec(pd: Durations, s: State, steps: seq<Step>): State
    requires Feasible(pd, s, steps)
    decreases |steps|
  {
    if steps == [] then s else Exec(pd, Apply(pd, s, steps[0]), steps[1..])
  }

  ghost predicate AllCadences(pd: Durations, cadences: map<string, Cadence>, time: int) {
    forall id :: id in cadences ==> CadenceInv(pd, cadences[id], time)
  }

  /** A cadence is marked running exactly while the tick goroutine dispatches it. */
  predicate RunningIsFiring(cadences: map<string, Cadence>, phase: Phase) {
    forall id :: id in cadences ==> (cadences[id].running <==> phase.Firing? && phase.id == id)
  }

  ghost predicate Inv(pd: Durations, s: State) {
    && AllCadences(pd, s.cadences, s.time)
    && RunningIsFiring(s.cadences, s.phase)
    && s.cadences.Keys <= s.used
    && (!s.phase.Idle? ==> s.phase.now <= s.time)
    && (s.phase.Firing? ==> s.phase.id in s.used)
  }

  lemma AllLater(pd: Durations, cadences: map<string, Cadence>, time: int, later: int)
    requires AllCadences(pd, cadences, time) && time <= later
    ensures AllCadences(pd, cadences, later)
  {
    forall id | id in cadences
      ensures CadenceInv(pd, cadences[id], later)
    {
      LaterKeepsInv(pd, cadences[id], time, later);
    }
  }

  lemma EvaluateKeepsInv(pd: Durations, s: State, id: string, backpressure: bool)
    requires Inv(pd, s) && s.phase.Ticking?
    ensures Inv(pd, AfterEvaluate(pd, s, id, backpressure))
  {
    if id in s.cadences && Fires(s.cadences[id], s.phase.now, backpressure) {
      FiringKeepsInv(pd, s.cadences[id], s.time, s.phase.now);
    }
    hide CadenceInv, Timing;
  }

  lemma DoneKeepsInv(pd: Durations, s: State)
    requires Inv(pd, s) && s.phase.Firing?
    ensures Inv(pd, AfterDone(s))
  {
    hide AllCadences, CadenceInv;
    if s.phase.id in s.cadences {
      ClearingKeeps(pd, s.cadences, s.phase.id, s.time);
    }
  }

  lemma ClearingKeeps(pd: Durations, cadences: map<string, Cadence>, id: string, time: int)
    requires AllCadences(pd, cadences, time) && id in cadences
    ensures AllCadences(pd, cadences[id := cadences[id].(running := false)], time)
  {
    hide CadenceInv;
    LabelsDoNotMatter(pd, cadences[id], cadences[id].(running := false), time);
  }

  lemma CreateKeepsInv(pd: Durations, s: State, id: string, c: Cadence, now: int)
    requires Inv(pd, s) && CadenceInv(pd, c, now) && !c.running && id !in s.used
    ensures Inv(pd, AfterCreate(pd, s, id, c, now))
  {
    hide CadenceInv, AllCadences;
    AllLater(pd, s.cadences, s.time, Max(s.time, now));
    LaterKeepsInv(pd, c, now, Max(s.time, now));
    OneMoreCadence(pd, s.cadences, id, c, Max(s.time, now));
  }

  lemma OneMoreCadence(pd: Durations, cadences: map<string, Cadence>, id: string, c: Cadence, time: int)
    requires AllCadences(pd, cadences, time) && CadenceInv(pd, c, time)
    ensures AllCadences(pd, cadences[id := c], time)
  {
    hide CadenceInv;
  }

  lemma UpdateStepKeepsInv(pd: Durations, s: State, id: string, name: string, schedule: string, priority: string,
                           now: int)
    requires Inv(pd, s) && now >= s.time && NoWrap(schedule)
    ensures Inv(pd, AfterUpdate(pd, s, id, name, schedule, priority, now))
  {
    AllLater(pd, s.cadences, s.time, now);
    if id in s.cadences {
      UpdateKeepsInv(pd, s.cadences[id], name, schedule, priority, now);
    }
    hide CadenceInv, Updated, NoWrap;
  }

  lemma StepKeepsInv(pd: Durations, s: State, step: Step)
    requires Inv(pd, s) && Enabled(s, step)
    ensures Inv(pd, Apply(pd, s, step))
  {
    hide CadenceInv, AfterEvaluate, AfterDone, AfterCreate, AfterUpdate, NoWrap, Created, CreateError;
    match step
    case ReadClock(now) => AllLater(pd, s.cadences, s.time, now);
    case Snapshot =>
    case Evaluate(id, backpressure) => EvaluateKeepsInv(pd, s, id, backpressure);
    case Done => DoneKeepsInv(pd, s);
    case EndTick =>
    case Create(id, name, schedule, priority, mode, targetAgent, now) =>
      if CreateError(pd, name, schedule, priority, mode, targetAgent).None? {
        CreationHasInv(pd, name, schedule, priority, mode, targetAgent, now, now);
        CreatedIsIdle(pd, name, schedule, priority, mode, targetAgent, now);
        CreateKeepsInv(pd, s, id, Created(pd, name, schedule, priority, mode, targetAgent, now), now);
      }
    case Update(id, name, schedule, priority, now) => UpdateStepKeepsInv(pd, s, id, name, schedule, priority, now);
    case Delete(id) =>
  }

  lemma CreatedIsIdle(pd: Durations, name: string, schedule: string, priority: string, mode: string,
                      targetAgent: string, now: int)
    ensures !Created(pd, name, schedule, priority, mode, targetAgent, now).running
  {
  }

  lemma {:induction false} InvAlways(pd: Durations, s: State, steps: seq<Step>)
    requires Inv(pd, s) && Feasible(pd, s, steps)
    ensures Inv(pd, Exec(pd, s, steps))
    decreases |steps|
  {
    if steps != [] {
      hide Inv, Apply, Enabled;
      StepKeepsInv(pd, s, steps[0]);
      InvAlways(pd, Apply(pd, s, steps[0]), steps[1..]);
    }
  }

  /**
    In every run: each cadence is enabled and its schedule parses, so that evaluating it never
    meets a parse error; it fired at strictly increasing instants, none before the
    time that its schedule had named at the fire before; and whenever a cadence is
    evaluated no cadence is running, so that one is never skipped for that.
    */
  lemma CadencesKeepTime(pd: Durations, time: int, steps: seq<Step>)
    requires Feasible(pd, State(map[], Idle, time, {}), steps)
    ensures var s := Exec(pd, State(map[], Idle, time, {}), steps);
            forall id :: id in s.cadences ==>
              var c := s.cadences[id];
              && c.enabled && Parses(pd, c.schedule)
              && (forall i, j :: 0 <= i < j < |c.fires| ==> c.fires[i] < c.fires[j])
              && Spaced(pd, c.schedule, c.fires, c.before, c.setAt)
              && c.before <= |c.fires|
              && c.nextFire.Some?
              && c.nextFire == Timing(pd, c.schedule,
                                      if c.before < |c.fires| then c.fires[|c.fires| - 1] else c.setAt)
              && (c.fires != [] ==>
                   (c.lastFired == Some(c.fires[|c.fires| - 1]) && c.lastFired.value < c.nextFire.value))
              && (c.running <==> s.phase.Firing? && s.phase.id == id)
  {
    InvAlways(pd, State(map[], Idle, time, {}), steps);
    hide Exec, Feasible, Timing, Parses, NoWrap;
  }

  /** With the same results in any run, fires under one `@every d` schedule are at least d apart. */
  lemma EveryKeepsItsDistance(pd: Durations, time: int, steps: seq<Step>, id: string, d: int)
    requires Feasible(pd, State(map[], Idle, time, {}), steps)
    requires id in Exec(pd, State(map[], Idle, time, {}), steps).cadences
    requires IsEvery(pd, Exec(pd, State(map[], Idle, time, {}), steps).cadences[id].schedule, d)
    ensures var c := Exec(pd, State(map[], Idle, time, {}), steps).cadences[id];
            forall i, j :: c.before <= i <= j < |c.fires| ==> c.fires[j] - c.fires[i] >= (j - i) * d
  {
    InvAlways(pd, State(map[], Idle, time, {}), steps);
    var s := Exec(pd, State(map[], Idle, time, {}), steps);
    var c := s.cadences[id];
    forall i, j | c.before <= i <= j < |c.fires|
      ensures c.fires[j] - c.fires[i] >= (j - i) * d
    {
      EveryIsSpaced(pd, c, s.time, d, i, j);
    }
  }

  /** What the invariant says of a fire. */
  lemma FiringMeans(pd: Durations, c: Cadence, time: int, now: int, backpressure: bool)
    requires CadenceInv(pd, c, time) && !c.running && now <= time
    ensures c.nextFire.Some?
    ensures Fires(c, now, backpressure) <==> c.nextFire.value <= now && !(c.priority == "background" && backpressure)
    ensures Fires(c, now, backpressure) ==>
              var next := Fired(pd, c, now).nextFire;
              && next == Timing(pd, c.schedule, now) && next.Some? && next.value > now
              && Fired(pd, c, now).fires == c.fires + [now]
  {
    if Fires(c, now, backpressure) {
      FiringKeepsInv(pd, c, time, now);
    }
    hide Timing, Parses, NoWrap, Increasing, Spaced, AskedAt;
  }

  /**
    In a tick, whatever happens between its parts, a cadence that is evaluated fires
    exactly when its next fire time has come and it is not deferred, and gets the time
    after this one that its schedule names.
    */
  lemma EvaluationFiresIff(pd: Durations, s: State, id: string, backpressure: bool)
    requires Inv(pd, s) && Enabled(s, Evaluate(id, backpressure))
    ensures var s' := Apply(pd, s, Evaluate(id, backpressure));
            var now := s.phase.now;
            && (s'.phase.Firing? <==>
                 && id in s.cadences && s.cadences[id].nextFire.value <= now
                 && !(s.cadences[id].priority == "background" && backpressure))
            && (s'.phase.Firing? ==>
                 && s'.phase.id == id && s'.cadences.Keys == s.cadences.Keys
                 && (forall other :: other in s.cadences && other != id ==> s'.cadences[other] == s.cadences[other])
                 && s'.cadences[id].fires == s.cadences[id].fires + [now]
                 && s'.cadences[id].nextFire == Timing(pd, s.cadences[id].schedule, now)
                 && s'.cadences[id].nextFire.Some? && s'.cadences[id].nextFire.value > now)
            // A cadence that is deferred stays as it was, and due.
            && (!s'.phase.Firing? ==> s'.cadences == s.cadences)
            && s'.phase.todo == s.phase.todo - {id}
  {
    if id in s.cadences {
      FiringMeans(pd, s.cadences[id], s.time, s.phase.now, backpressure);
    }
    hide CadenceInv, Fires, Fired, Timing;
  }

  // ----- The engine, called from one goroutine at a time -----

  /** A cadence after its evaluation in a tick, the dispatch being over. */
  ghost function Evaluated(pd: Durations, c: Cadence, now: int, backpressure: bool): Cadence {
    if Fires(c, now, backpressure) then Fired(pd, c, now).(running := false) else c
  }

  lemma EvaluationKeepsInv(pd: Durations, s: State, id: string, now: int, backpressure: bool)
    requires Inv(pd, s) && s.phase.Idle? && id in s.cadences && now <= s.time
    ensures NoWrap(s.cadences[id].schedule)
    ensures Inv(pd, s.(cadences := s.cadences[id := Evaluated(pd, s.cadences[id], now, backpressure)]))
  {
    assert CadenceInv(pd, s.cadences[id], s.time);
    var ticking := s.(phase := Ticking(now, {id}));
    if Fires(s.cadences[id], now, backpressure) {
      EvaluateKeepsInv(pd, ticking, id, backpressure);
      DoneKeepsInv(pd, AfterEvaluate(pd, ticking, id, backpressure));
      hide CadenceInv, Timing, Fires;
      Collections.UpdateTwice(s.cadences, id, Fired(pd, s.cadences[id], now),
        Evaluated(pd, s.cadences[id], now, backpressure));
    } else {
      Collections.UpdateSame(s.cadences, id);
    }
  }

  lemma TickKeepsInv(pd: Durations, s: State, now: int)
    requires Inv(pd, s) && now >= s.time
    ensures Inv(pd, s.(time := now))
  {
    AllLater(pd, s.cadences, s.time, now);
    hide CadenceInv;
  }

  /** All but the cadences in `todo` have been evaluated. */
  ghost predicate AllEvaluated(pd: Durations, cadences: map<string, Cadence>, before: map<string, Cadence>,
                               todo: set<string>,
                               now: int, backpressure: bool)
  {
    && cadences.Keys == before.Keys
    && forall id :: id in before ==>
         cadences[id] == if id in todo then before[id] else Evaluated(pd, before[id], now, backpressure)
  }

  /** The cadences that fired, each once. */
  ghost predicate AllFired(fired: seq<string>, before: map<string, Cadence>, todo: set<string>, now: int,
                           backpressure: bool) {
    && (forall id :: id in fired <==> id in before && id !in todo && Fires(before[id], now, backpressure))
    && (forall i, j :: 0 <= i < j < |fired| ==> fired[i] != fired[j])
  }

  lemma NoneEvaluated(pd: Durations, before: map<string, Cadence>, now: int, backpressure: bool)
    ensures AllEvaluated(pd, before, before, before.Keys, now, backpressure)
    ensures AllFired([], before, before.Keys, now, backpressure)
  {
  }

  lemma OneMoreEvaluated(pd: Durations, cadences: map<string, Cadence>, before: map<string, Cadence>, todo: set<string>,
                         id: string, now: int, backpressure: bool)
    requires AllEvaluated(pd, cadences, before, todo, now, backpressure) && id in todo && todo <= before.Keys
    ensures id in cadences && cadences[id] == before[id]
    ensures AllEvaluated(pd, cadences[id := Evaluated(pd, before[id], now, backpressure)],
                         before, todo - {id}, now, backpressure)
  {
    hide Evaluated;
  }

  lemma OneMoreFired(fired: seq<string>, before: map<string, Cadence>, todo: set<string>, id: string, now: int,
                     backpressure: bool)
    requires AllFired(fired, before, todo, now, backpressure) && id in todo && todo <= before.Keys
    ensures Fires(before[id], now, backpressure) ==> AllFired(fired + [id], before, todo - {id}, now, backpressure)
    ensures !Fires(before[id], now, backpressure) ==> AllFired(fired, before, todo - {id}, now, backpressure)
  {
    hide Fires;
  }

  /**
    A tick is right: exactly those cadences fire whose time has come and that are not
    deferred, each once.  They get the time after this one that their schedule names;
    the others stay as they were.
    */
  ghost predicate Ticked(pd: Durations, before: map<string, Cadence>, cadences: map<string, Cadence>,
                         fired: seq<string>, now: int, backpressure: bool)
  {
    && (forall id :: id in fired <==>
         && id in before && before[id].nextFire.Some? && before[id].nextFire.value <= now
         && !(before[id].priority == "background" && backpressure))
    && (forall i, j :: 0 <= i < j < |fired| ==> fired[i] != fired[j])
    && cadences.Keys == before.Keys
    && forall id :: id in before ==>
         cadences[id] == if id !in fired then before[id]
                         else var c := before[id];
                              c.(lastFired := Some(now), nextFire := Timing(pd, c.schedule, now),
                                 fires := c.fires + [now])
  }

  /** Every cadence is enabled and none is running, so that evaluating each once is just that. */
  lemma TickMeans(pd: Durations, s: State, cadences: map<string, Cadence>, fired: seq<string>, now: int,
                  backpressure: bool)
    requires Inv(pd, s) && s.phase.Idle?
    requires AllEvaluated(pd, cadences, s.cadences, {}, now, backpressure)
             && AllFired(fired, s.cadences, {}, now, backpressure)
    ensures Ticked(pd, s.cadences, cadences, fired, now, backpressure)
  {
    hide Timing, Parses, NoWrap, Increasing, Spaced;
  }

  class Engine {
    const parseDuration: Durations
    var backpressure: bool
    var cadences: map<string, Cadence>
    ghost var time: int
    ghost var used: set<string>

    ghost function Value(): State
      reads this
    {
      State(cadences, Idle, time, used)
    }

    ghost predicate Valid()
      reads this
    {
      Inv(parseDuration, Value())
    }

    constructor (parseDuration: Durations, ghost time: int)
      ensures Valid() && cadences == map[] && this.parseDuration == parseDuration && this.time == time
    {
      this.parseDuration, this.time := parseDuration, time;
      backpressure, cadences, used := false, map[], {};
    }

    /** Evaluates every cadence once, in whatever order the map gives them, and reports which ones fired. */
    method ProcessTick(now: int) returns (fired: seq<string>)
      requires Valid() && now >= time
      modifies this`cadences, this`time
      ensures Valid() && time == now
      ensures Ticked(parseDuration, old(cadences), cadences, fired, now, backpressure)
    {
      hide Inv, Evaluated, Fires, AllEvaluated, AllFired, Ticked;
      ghost var start := Value();
      TickKeepsInv(parseDuration, Value(), now);
      time := now;
      fired := [];
      var todo := cadences.Keys;
      ghost var before := cadences;
      NoneEvaluated(parseDuration, before, now, backpressure);
      while todo != {}
        invariant Valid() && time == now && todo <= before.Keys
        invariant AllEvaluated(parseDuration, cadences, before, todo, now, backpressure)
        invariant AllFired(fired, before, todo, now, backpressure)
        decreases |todo|
      {
        ghost var some := Collections.Pick(todo);
        var id :| id in todo;
        OneMoreEvaluated(parseDuration, cadences, before, todo, id, now, backpressure);
        OneMoreFired(fired, before, todo, id, now, backpressure);
        todo := todo - {id};
        var fires := EvaluateCadence(id, now);
        if fires {
          fired := fired + [id];
        }
      }
      TickMeans(parseDuration, start, cadences, fired, now, backpressure);
    }

    method EvaluateCadence(id: string, now: int) returns (fired: bool)
      requires Valid() && now <= time
      modifies this`cadences
      ensures Valid()
      ensures fired <==> id in old(cadences) && Fires(old(cadences)[id], now, backpressure)
      ensures cadences == if id in old(cadences)
                          then old(cadences)[id := Evaluated(parseDuration, old(cadences)[id], now, backpressure)]
                          else old(cadences)
    {
      if id !in cadences {
        return false;
      }
      EvaluationKeepsInv(parseDuration, Value(), id, now, backpressure);
      hide *;
      var c: Cadence;
      c, fired := EvaluateOne(parseDuration, cadences[id], now, backpressure);
      cadences := cadences[id := c];
    }

    static method EvaluateOne(parseDuration: Durations, before: Cadence, now: int, backpressure: bool)
      returns (c: Cadence, fired: bool)
      requires NoWrap(before.schedule)
      ensures fired == Fires(before, now, backpressure) && c == Evaluated(parseDuration, before, now, backpressure)
    {
      c := before;
      if !c.enabled || c.nextFire.None? || now < c.nextFire.value || c.running
         || (c.priority == BACKGROUND && backpressure) {
        return c, false;
      }
      c := c.(running := true, lastFired := Some(now));
      var next := NextTime(parseDuration, c.schedule, now);
      hide Timing;
      c := c.(nextFire := next, fires := c.fires + [now]);
      // The dispatch comes here.
      return c.(running := false), true;
    }

    /** `CreateCadenceWithMode`, with the new ID. */
    method CreateCadence(id: string, name: string, schedule: string, priority: string, mode: string,
                         targetAgent: string, now: int)
      returns (error: Option<Error>)
      requires Valid() && id !in used && now >= time && NoWrap(schedule)
      modifies this`cadences, this`time, this`used
      ensures Valid()
      ensures error == (if name == "" then Some(NameRequired)
                        else if schedule == "" then Some(ScheduleRequired)
                        else if priority !in {"background", "standard", "urgent"} then Some(InvalidPriority)
                        else if mode !in {"", "event", "agent_order"} then Some(InvalidMode)
                        else if mode == "agent_order" && targetAgent == "" then Some(TargetRequired)
                        else if !Parses(parseDuration, schedule) then Some(InvalidSchedule)
                        else None)
      ensures error.Some? ==> cadences == old(cadences)
      ensures error.None? ==>
                && id in cadences && cadences == old(cadences)[id := cadences[id]]
                && var c := cadences[id];
                && c.name == name && c.schedule == schedule && c.priority == priority
                && c.mode == (if mode == "" then "event" else mode) && c.targetAgent == targetAgent
                && c.enabled && !c.running && c.lastFired == None && c.fires == []
                && c.nextFire == Timing(parseDuration, schedule, now)
      ensures if error.Some? then time == old(time) && used == old(used) else time == now && used == old(used) + {id}
    {
      if name == "" {
        return Some(NameRequired);
      }
      if schedule == "" {
        return Some(ScheduleRequired);
      }
      if !ValidPriority(priority) {
        return Some(InvalidPriority);
      }
      if !ValidMode(mode) {
        return Some(InvalidMode);
      }
      if mode == MODE_AGENT_ORDER && targetAgent == "" {
        return Some(TargetRequired);
      }
      var next := NextTime(parseDuration, schedule, now);
      TimingIsLater(parseDuration, schedule, now);
      if next.None? {
        return Some(InvalidSchedule);
      }
      CreationHasInv(parseDuration, name, schedule, priority, mode, targetAgent, now, now);
      CreateKeepsInv(parseDuration, Value(), id,
        Created(parseDuration, name, schedule, priority, mode, targetAgent, now), now);
      hide Inv, NoWrap, Timing, Parses, CadenceInv;
      cadences := cadences[id := Cadence(name, schedule, priority, if mode == "" then MODE_EVENT else mode, targetAgent,
                                         true, false, None, next, [], 0, now)];
      time := now;
      used := used + {id};
      return None;
    }

    /** What precedes an error in an update stays changed. */
    method UpdateCadence(id: string, name: string, schedule: string, priority: string, now: int)
      returns (error: Option<Error>)
      requires Valid() && now >= time && NoWrap(schedule)
      modifies this`cadences, this`time
      ensures Valid()
      ensures id == "" ==> error == Some(IdRequired) && cadences == old(cadences)
      ensures id != "" && id !in old(cadences) ==> error == Some(NotFound) && cadences == old(cadences)
      ensures id != "" && id in old(cadences) ==>
                && id in cadences && cadences == old(cadences)[id := cadences[id]]
                && UpdateIsRight(parseDuration, old(cadences)[id], cadences[id], error, name, schedule, priority, now)
      ensures old(time) <= time <= now
    {
      if id == "" {
        return Some(IdRequired);
      }
      if id !in cadences {
        return Some(NotFound);
      }
      UpdateStepKeepsInv(parseDuration, Value(), id, name, schedule, priority, now);
      UpdatedFields(parseDuration, cadences[id], name, schedule, priority, now);
      hide Inv, NoWrap, Timing, Parses, CadenceInv, Updated, UpdateIsRight;
      time := now;
      var c: Cadence;
      c, error := UpdateOne(parseDuration, cadences[id], name, schedule, priority, now);
      cadences := cadences[id := c];
    }

    static method UpdateOne(parseDuration: Durations, before: Cadence, name: string, schedule: string,
                            priority: string, now: int)
      returns (c: Cadence, error: Option<Error>)
      requires NoWrap(schedule)
      ensures (c, error) == Updated(parseDuration, before, name, schedule, priority, now)
    {
      TimingIsLater(parseDuration, schedule, now);
      hide NoWrap, Timing, Parses;
      c := before;
      if name != "" {
        c := c.(name := name);
      }
      if schedule != "" && schedule != c.schedule {
        var next := NextTime(parseDuration, schedule, now);
        if next.None? {
          return c, Some(InvalidSchedule);
        }
        c := Rescheduled(c, schedule, next, now);
      }
      if priority != "" {
        if !ValidPriority(priority) {
          return c, Some(InvalidPriority);
        }
        c := c.(priority := priority);
      }
      return c, None;
    }

    method DeleteCadence(id: string) returns (error: Option<Error>)
      requires Valid()
      modifies this`cadences
      ensures Valid()
      ensures error == (if id == "" then Some(IdRequired) else if id !in old(cadences) then Some(NotFound) else None)
      ensures cadences == if error.Some? then old(cadences) else old(cadences) - {id}
    {
      hide CadenceInv;
      if id == "" {
        return Some(IdRequired);
      }
      if id !in cadences {
        return Some(NotFound);
      }
      cadences := cadences - {id};
      return None;
    }
  }
}
