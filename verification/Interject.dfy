/**
  The Andon cord of internal/interject: interjections in a store, and Safe Mode,
  an in-memory map of halted scopes that must agree with the store.

  Each public operation is atomic.  The store is a map from IDs to interjections
  with the behaviour of internal/storage/sqlite/interjection_repo.go; each call
  to it may fail unless the store is `reliable`.  Published events and
  remediation messages change neither and are not modelled.
  */
module Interject {
  import opened AgentWalks
  import opened Collections
  import opened Strings

  const GLOBAL := "global"

  datatype Status = Active | Resolved | Expired

  datatype Interjection = Interjection(
    id: string,
    scope: string,
    severity: string,
    source: string,
    createdBy: string,
    sourceClearance: int,
    expiresAt: Option<int>,
    status: Status)

  predicate HaltingSeverity(severity: string) { severity == "critical" || severity == "fatal" }

  predicate IsHalt(ij: Interjection) { ij.status.Active? && HaltingSeverity(ij.severity) }

  /** The time to live has passed; a zero time counts as none. */
  predicate Overdue(ij: Interjection, now: int) {
    ij.status.Active? && ij.expiresAt.Some? && ij.expiresAt.value != 0 && ij.expiresAt.value < now
  }

  /** An active row of the given scope, or of any scope. */
  predicate Selects(scope: Option<string>, ij: Interjection) {
    ij.status.Active? && (scope.None? || ij.scope == scope.value)
  }

  function Scopes(ijs: seq<Interjection>): (r: seq<string>)
    ensures |r| == |ijs|
    ensures forall k :: 0 <= k < |ijs| ==> r[k] == ijs[k].scope
  {
    seq(|ijs|, k requires 0 <= k < |ijs| => ijs[k].scope)
  }

  type Rows = map<string, Interjection>

  ghost predicate HaltedIn(rows: Rows, scope: string) {
    exists id :: id in rows && IsHalt(rows[id]) && rows[id].scope == scope
  }

  /** The scope itself, or the global scope, has an active critical or fatal interjection. */
  ghost predicate Halted(rows: Rows, scope: string) {
    HaltedIn(rows, scope) || HaltedIn(rows, GLOBAL)
  }

  method FreshId(used: set<string>) returns (id: string)
    ensures id !in used && id != ""
  {
    var length, rest := 0, used;
    while rest != {}
      invariant rest <= used && length >= 0
      invariant forall s :: s in used && s !in rest ==> |s| <= length
      decreases rest
    {
      ghost var some := Pick(rest);
      var s :| s in rest;
      if |s| > length {
        length := |s|;
      }
      rest := rest - {s};
    }
    id := seq(length + 1, _ => 'f');
    assert |id| == length + 1;
  }

  // ----- The store -----

  class InterjectionRepo {
    /** When set, no call fails for a reason of its own. */
    const reliable: bool
    var rows: Rows
    /** Every interjection ever created, in order. */
    ghost var created: seq<Interjection>

    ghost predicate Valid()
      reads this
    {
      forall id :: id in rows ==> rows[id].id == id && id != ""
    }

    constructor (reliable: bool, rows: Rows)
      requires forall id :: id in rows ==> rows[id].id == id && id != ""
      ensures Valid() && this.reliable == reliable && this.rows == rows && created == []
    {
      this.reliable := reliable;
      this.rows := rows;
      created := [];
    }

    /** Whether the next call gets through. */
    method Available() returns (ok: bool)
      ensures reliable ==> ok
    {
      if reliable {
        return true;
      }
      ok := *;
    }

    method Create(ij: Interjection) returns (id: Option<string>)
      requires Valid()
      modifies this
      ensures Valid()
      ensures id.None? ==> rows == old(rows) && created == old(created)
      ensures id.Some? ==>
                && id.value !in old(rows) && (ij.id != "" ==> id.value == ij.id)
                && rows == old(rows)[id.value := ij.(id := id.value, status := Active)]
                && created == old(created) + [rows[id.value]]
      ensures reliable && (ij.id == "" || ij.id !in old(rows)) ==> id.Some?
    {
      var ok := Available();
      if !ok || (ij.id != "" && ij.id in rows) {
        return None;
      }
      var key := ij.id;
      if key == "" {
        key := FreshId(rows.Keys);
      }
      var row := ij.(id := key, status := Active);
      rows := rows[key := row];
      created := created + [row];
      return Some(key);
    }

    method GetByID(id: string) returns (ij: Option<Interjection>)
      ensures ij.Some? ==> id in rows && ij.value == rows[id]
      ensures reliable && id in rows ==> ij.Some?
    {
      var ok := Available();
      if !ok || id !in rows {
        return None;
      }
      return Some(rows[id]);
    }

    /** Marks an active row; reports whether there was one. */
    method Resolve(id: string) returns (ok: bool)
      requires Valid()
      modifies this`rows
      ensures Valid()
      ensures ok ==> id in old(rows) && old(rows)[id].status.Active?
      ensures ok ==> rows == old(rows)[id := old(rows)[id].(status := Resolved)]
      ensures !ok ==> rows == old(rows)
      ensures reliable ==> (ok <==> id in old(rows) && old(rows)[id].status.Active?)
    {
      ok := Available();
      if !ok || id !in rows || !rows[id].status.Active? {
        return false;
      }
      rows := rows[id := rows[id].(status := Resolved)];
    }

    /** Marks an active row; a row that is not active is left alone without an error. */
    method Expire(id: string) returns (ok: bool)
      requires Valid()
      modifies this`rows
      ensures Valid()
      ensures reliable ==> ok
      ensures rows == if ok && id in old(rows) && old(rows)[id].status.Active?
                      then old(rows)[id := old(rows)[id].(status := Expired)] else old(rows)
    {
      ok := Available();
      if ok && id in rows && rows[id].status.Active? {
        rows := rows[id := rows[id].(status := Expired)];
      }
    }

    /** list holds each active row of the scope (of every scope when None) once. */
    ghost predicate ListsActive(list: seq<Interjection>, scope: Option<string>)
      reads this
    {
      && (forall k :: 0 <= k < |list| ==>
           (list[k].id in rows && rows[list[k].id] == list[k] && Selects(scope, list[k])))
      && (forall id :: id in rows && Selects(scope, rows[id]) ==> rows[id] in list)
      && (forall a, b :: 0 <= a < b < |list| ==> list[a].id != list[b].id)
    }

    /** The active rows of a scope or of all scopes, in an order the store chooses. */
    method GetActive(scope: Option<string>) returns (list: Option<seq<Interjection>>)
      requires Valid()
      ensures list.Some? ==> ListsActive(list.value, scope)
      ensures reliable ==> list.Some?
    {
      var ok := Available();
      if !ok {
        return None;
      }
      var found: seq<Interjection> := [];
      var rest := rows.Keys;
      while rest != {}
        invariant rest <= rows.Keys
        invariant forall k :: 0 <= k < |found| ==> (found[k].id in rows && found[k].id !in rest)
        invariant forall k :: 0 <= k < |found| ==> (rows[found[k].id] == found[k] && Selects(scope, found[k]))
        invariant forall id :: id in rows && id !in rest && Selects(scope, rows[id]) ==> rows[id] in found
        invariant forall a, b :: 0 <= a < b < |found| ==> found[a].id != found[b].id
        decreases rest
      {
        ghost var some := Pick(rest);
        var id :| id in rest;
        if Selects(scope, rows[id]) {
          found := found + [rows[id]];
        }
        rest := rest - {id};
      }
      return Some(found);
    }
  }

  /** Whether a list of active interjections holds a halting one. */
  method AnyHalting(list: seq<Interjection>) returns (found: bool)
    ensures found <==> exists k :: 0 <= k < |list| && HaltingSeverity(list[k].severity)
  {
    for i := 0 to |list|
      invariant forall k :: 0 <= k < i ==> !HaltingSeverity(list[k].severity)
    {
      if list[i].severity == "critical" || list[i].severity == "fatal" {
        return true;
      }
    }
    return false;
  }

  // ----- Safe Mode -----

  datatype SafeModeState = SafeModeState(active: bool, interjectionIDs: seq<string>)

  class SafeModeController {
    var states: map<string, SafeModeState>

    constructor ()
      ensures states == map[]
    {
      states := map[];
    }

    method Engage(scope: string, interjectionID: string)
      modifies this
      ensures states.Keys == old(states).Keys + {scope}
      ensures forall s :: s in old(states) && s != scope ==> states[s] == old(states)[s]
      ensures scope !in old(states) ==> states[scope] == SafeModeState(true, [interjectionID])
      ensures scope in old(states) ==>
                states[scope] == old(states)[scope].(interjectionIDs :=
                  if interjectionID in old(states)[scope].interjectionIDs then old(states)[scope].interjectionIDs
                  else old(states)[scope].interjectionIDs + [interjectionID])
    {
      if scope in states {
        if interjectionID in states[scope].interjectionIDs {
          return;
        }
        var ids := states[scope].interjectionIDs + [interjectionID];
        states := states[scope := states[scope].(interjectionIDs := ids)];
        return;
      }
      states := states[scope := SafeModeState(true, [interjectionID])];
    }

    method Disengage(scope: string)
      modifies this
      ensures states == old(states) - {scope}
    {
      if scope !in states {
        return;
      }
      states := states - {scope};
    }

    predicate IsHalted(scope: string)
      reads this
    {
      || (scope in states && states[scope].active)
      || (scope != GLOBAL && GLOBAL in states && states[GLOBAL].active)
    }
  }

  // ----- The manager -----

  datatype Error = NotFound | InsufficientClearance | InvalidAction | StoreFailed

  datatype Result<+T> = Success(value: T) | Failure(error: Error)

  const MAX_CASCADE_DEPTH: nat := 20

  class Manager {
    const repo: InterjectionRepo
    const safeMode: SafeModeController
    const childResolver: Option<Hierarchy>
    /** The clearance of a persona, None when the lookup fails. */
    const clearanceOf: string -> Option<int>

    constructor (repo: InterjectionRepo, childResolver: Option<Hierarchy>, clearanceOf: string -> Option<int>)
      ensures this.repo == repo && this.childResolver == childResolver && this.clearanceOf == clearanceOf
      ensures fresh(safeMode) && safeMode.states == map[]
    {
      this.repo := repo;
      this.childResolver := childResolver;
      this.clearanceOf := clearanceOf;
      safeMode := new SafeModeController();
    }

    /** Every active halt is tracked in Safe Mode under its scope. */
    ghost predicate Covered()
      reads this, repo, safeMode
    {
      && repo.Valid()
      && (forall s :: s in safeMode.states ==> safeMode.states[s].active)
      && forall id :: id in repo.rows && IsHalt(repo.rows[id]) ==>
           && repo.rows[id].scope in safeMode.states
           && id in safeMode.states[repo.rows[id].scope].interjectionIDs
    }

    /** Safe Mode holds the scopes with an active halt, and no others, `except` perhaps some. */
    ghost predicate ExactExcept(except: set<string>)
      reads this, repo, safeMode
    {
      Covered() && forall s :: s in safeMode.states && s !in except ==> HaltedIn(repo.rows, s)
    }

    ghost predicate Exact()
      reads this, repo, safeMode
    {
      ExactExcept({})
    }

    /** With exact tracking the two ways to ask give one answer; covering alone gives one direction. */
    lemma SafeModeAgrees(scope: string)
      requires Covered()
      ensures Halted(repo.rows, scope) ==> safeMode.IsHalted(scope)
      ensures Exact() ==> (safeMode.IsHalted(scope) <==> Halted(repo.rows, scope))
      ensures Exact() ==> (scope in safeMode.states <==> HaltedIn(repo.rows, scope))
    {
    }

    method IsHalted(scope: string) returns (halted: bool)
      requires repo.Valid()
      ensures halted ==> Halted(repo.rows, scope)
      ensures repo.reliable ==> (halted <==> Halted(repo.rows, scope))
      ensures repo.reliable ==>
                (halted <==> exists id :: id in repo.rows && repo.rows[id].status.Active?
                               && repo.rows[id].severity in {"critical", "fatal"}
                               && repo.rows[id].scope in {scope, "global"})
    {
      var own := repo.GetActive(Some(scope));
      if own.None? {
        return false;
      }
      halted := AnyHalting(own.value);
      ListShowsHalt(own.value, scope);
      if halted || scope == GLOBAL {
        return;
      }
      var globals := repo.GetActive(Some(GLOBAL));
      if globals.None? {
        return false;
      }
      halted := AnyHalting(globals.value);
      ListShowsHalt(globals.value, GLOBAL);
    }

    lemma ListShowsHalt(list: seq<Interjection>, scope: string)
      requires repo.ListsActive(list, Some(scope))
      ensures (exists k :: 0 <= k < |list| && HaltingSeverity(list[k].severity)) <==> HaltedIn(repo.rows, scope)
    {
      if HaltedIn(repo.rows, scope) {
        var id :| id in repo.rows && IsHalt(repo.rows[id]) && repo.rows[id].scope == scope;
        assert repo.rows[id] in list;
      }
      if exists k :: 0 <= k < |list| && HaltingSeverity(list[k].severity) {
        var k :| 0 <= k < |list| && HaltingSeverity(list[k].severity);
        assert list[k].id in repo.rows && IsHalt(repo.rows[list[k].id]);
      }
    }

    method DisengageSafeModeIfClear(scope: string)
      requires Covered()
      modifies safeMode
      ensures Covered()
      ensures repo.reliable && old(ExactExcept({scope})) ==> Exact()
      ensures safeMode.states == old(safeMode.states)
           || (!HaltedIn(repo.rows, scope) && safeMode.states == old(safeMode.states) - {scope})
    {
      var active := repo.GetActive(Some(scope));
      if active.None? {
        return;
      }
      var hasHalt := AnyHalting(active.value);
      ListShowsHalt(active.value, scope);
      if !hasHalt {
        safeMode.Disengage(scope);
      }
    }

    /** Creates an interjection and, if it is a halt, engages its scope. */
    method StoreAndEngage(ij: Interjection) returns (id: Option<string>)
      requires Covered()
      modifies repo, safeMode
      ensures Covered()
      ensures repo.reliable && old(Exact()) ==> Exact()
      ensures repo.reliable ==> (id.Some? <==> ij.id == "" || ij.id !in old(repo.rows))
      ensures id.None? ==>
                && repo.rows == old(repo.rows) && repo.created == old(repo.created)
                && safeMode.states == old(safeMode.states)
      ensures id.Some? ==>
                var row := ij.(id := id.value, status := Active);
                && id.value !in old(repo.rows) && (ij.id != "" ==> id.value == ij.id)
                && repo.rows == old(repo.rows)[id.value := row] && repo.created == old(repo.created) + [row]
                && (HaltingSeverity(ij.severity) ==> ij.scope in safeMode.states)
    {
      id := repo.Create(ij);
      if id.None? {
        return;
      }
      HaltsAfterOneMore(old(repo.rows), id.value, repo.rows[id.value]);
      if ij.severity == "critical" || ij.severity == "fatal" {
        safeMode.Engage(ij.scope, id.value);
      }
    }

    /** One step of the cascade. */
    method HaltChild(parent: Interjection, agent: string) returns (halted: bool)
      requires Covered()
      modifies repo, safeMode
      ensures Covered()
      ensures repo.reliable ==> halted
      ensures repo.reliable && old(Exact()) ==> Exact()
      ensures Grown(parent, old(repo.rows), old(repo.created), repo.rows, repo.created)
      ensures !halted ==> repo.created == old(repo.created)
      ensures halted ==> |repo.created| == |old(repo.created)| + 1 && repo.created[|old(repo.created)|].scope == agent
    {
      hide Covered, Exact, ExactExcept;
      var child := Interjection("", agent, parent.severity, "cascade:" + parent.source, parent.createdBy, 0,
                                parent.expiresAt, Active);
      var id := StoreAndEngage(child);
      if id.None? {
        return false;
      }
      GrownByOne(parent, agent, old(repo.rows), old(repo.created), id.value);
      return true;
    }

    method CascadeWalk(parent: Interjection, agentID: string, depth: nat)
      requires Covered() && childResolver.Some? && depth <= MAX_CASCADE_DEPTH
      modifies repo, safeMode
      ensures Covered()
      ensures repo.reliable && old(Exact()) ==> Exact()
      ensures Grown(parent, old(repo.rows), old(repo.created), repo.rows, repo.created)
      ensures repo.reliable ==>
                Scopes(repo.created)
                == Scopes(old(repo.created)) + Reached(childResolver.value, agentID, MAX_CASCADE_DEPTH - depth)
      decreases MAX_CASCADE_DEPTH - depth
    {
      hide Covered, Exact, ExactExcept, Grown, Reached, ReachedFrom, Scopes, ChildrenOf;
      ReachedUnfolds(childResolver.value, agentID, MAX_CASCADE_DEPTH - depth);
      GrownReflexive(parent, repo.rows, repo.created);
      if depth >= MAX_CASCADE_DEPTH {
        return;
      }
      var resolved := childResolver.value(agentID);
      if resolved.None? {
        return;
      }
      var children := resolved.value;
      ghost var h, left := childResolver.value, MAX_CASCADE_DEPTH - depth;
      for i := 0 to |children|
        invariant Covered()
        invariant repo.reliable && old(Exact()) ==> Exact()
        invariant Grown(parent, old(repo.rows), old(repo.created), repo.rows, repo.created)
        invariant repo.reliable ==>
                    Scopes(repo.created) + ReachedFrom(h, children, i, left)
                    == Scopes(old(repo.created)) + Reached(h, agentID, left)
      {
        ghost var r0, c0 := repo.rows, repo.created;
        var halted := HaltChild(parent, children[i]);
        ghost var r1, c1 := repo.rows, repo.created;
        GrownTransitive(parent, old(repo.rows), old(repo.created), r0, c0, r1, c1);
        if !halted {
          continue;
        }
        CascadeWalk(parent, children[i], depth + 1);
        GrownTransitive(parent, old(repo.rows), old(repo.created), r1, c1, repo.rows, repo.created);
        ScopesOfOneMore(parent, r0, c0, r1, c1);
        if repo.reliable {
          ReachedOneMore(h, children, i, left, Scopes(c0), Scopes(repo.created));
        }
      }
    }

    /** The interjection as Halt stores it: with its creator's clearance when that is known. */
    function Stamped(ij: Interjection): Interjection {
      if ij.createdBy != "" && clearanceOf(ij.createdBy).Some?
      then ij.(sourceClearance := clearanceOf(ij.createdBy).value)
      else ij
    }

    predicate Cascades(ij: Interjection) {
      HaltingSeverity(ij.severity) && ij.scope != GLOBAL && childResolver.Some?
    }

    /** The agents a halt must create interjections for: its own scope, then those of the cascade. */
    function HaltedScopes(ij: Interjection): seq<string> {
      [ij.scope] + if Cascades(ij) then Reached(childResolver.value, ij.scope, MAX_CASCADE_DEPTH) else []
    }

    /** Every agent 1 to 20 child edges below the scope is in Safe Mode. */
    ghost predicate DescendantsEngaged(scope: string)
      requires childResolver.Some?
      reads safeMode
    {
      forall w :: 1 <= |w| <= MAX_CASCADE_DEPTH && IsWalk(childResolver.value, scope, w) ==>
        EndOf(childResolver.value, scope, w) in safeMode.states
    }

    /**
      Stores the interjection, engages Safe Mode, and cascades.  With a reliable
      store the cascade creates one interjection for each walk of 1 to 20 child
      edges, no more and no fewer, also when the hierarchy has cycles.
      */
    method Halt(ij: Interjection) returns (r: Result<string>)
      requires Covered()
      modifies repo, safeMode
      ensures Covered()
      ensures repo.reliable && old(Exact()) ==> Exact()
      ensures r.Failure? ==>
                && repo.rows == old(repo.rows) && repo.created == old(repo.created)
                && safeMode.states == old(safeMode.states)
      ensures repo.reliable ==> (r.Success? <==> ij.id == "" || ij.id !in old(repo.rows))
      ensures r.Success? ==>
                var row := Stamped(ij).(id := r.value, status := Active);
                && r.value !in old(repo.rows) && (ij.id != "" ==> r.value == ij.id)
                && Grown(row, old(repo.rows)[r.value := row], old(repo.created) + [row], repo.rows, repo.created)
                && (HaltingSeverity(ij.severity) ==> ij.scope in safeMode.states)
      // The row carries its creator's clearance when that is known; cascaded rows carry none.
      ensures r.Success? ==>
                && r.value in repo.rows && repo.rows[r.value].scope == ij.scope
                && repo.rows[r.value].sourceClearance
                   == (if ij.createdBy != "" && clearanceOf(ij.createdBy).Some? then clearanceOf(ij.createdBy).value
                       else ij.sourceClearance)
                && forall k :: |old(repo.created)| < k < |repo.created| ==>
                     repo.created[k].sourceClearance == 0 && repo.created[k].severity == ij.severity
      ensures r.Success? && repo.reliable ==> Scopes(repo.created) == Scopes(old(repo.created)) + HaltedScopes(ij)
      ensures r.Success? && repo.reliable && Cascades(ij) ==> DescendantsEngaged(ij.scope)
    {
      hide Covered, Exact, ExactExcept, Grown, Scopes, DescendantsEngaged, Reached, IsHalt, HaltedIn, Stamped,
           HaltedScopes;
      var stamped := ij;
      if ij.createdBy != "" {
        var clearance := clearanceOf(ij.createdBy);
        if clearance.Some? {
          stamped := ij.(sourceClearance := clearance.value);
        }
      }
      StampedIs(ij);
      var created := StoreAndEngage(stamped);
      if created.None? {
        return Failure(StoreFailed);
      }
      var row := stamped.(id := created.value, status := Active);
      GrownReflexive(row, repo.rows, repo.created);
      ScopesAppend(old(repo.created), row);
      HaltedScopesFollow(ij, Scopes(old(repo.created)));
      if (ij.severity == "critical" || ij.severity == "fatal") && ij.scope != GLOBAL {
        CascadeHalt(row, ij.scope);
      }
      GrownRows(row, old(repo.rows)[created.value := row], old(repo.created) + [row], repo.rows, repo.created);
      return Success(created.value);
    }

    lemma StampedIs(ij: Interjection)
      ensures Stamped(ij) == ij.(sourceClearance := Stamped(ij).sourceClearance)
      ensures ij.createdBy != "" && clearanceOf(ij.createdBy).Some? ==>
                Stamped(ij).sourceClearance == clearanceOf(ij.createdBy).value
      ensures ij.createdBy == "" || clearanceOf(ij.createdBy).None? ==>
                Stamped(ij).sourceClearance == ij.sourceClearance
    {
    }

    lemma HaltedScopesFollow(ij: Interjection, before: seq<string>)
      ensures before + HaltedScopes(ij)
              == before + [ij.scope]
                 + if Cascades(ij) then Reached(childResolver.value, ij.scope, MAX_CASCADE_DEPTH) else []
      ensures before + [ij.scope] + [] == before + [ij.scope]
    {
      hide Reached;
    }

    method CascadeHalt(row: Interjection, scope: string)
      requires Covered() && HaltingSeverity(row.severity)
      requires row.id in repo.rows && repo.rows[row.id] == row && row.status.Active? && row.scope == scope
      modifies repo, safeMode
      ensures Covered()
      ensures repo.reliable && old(Exact()) ==> Exact()
      ensures Grown(row, old(repo.rows), old(repo.created), repo.rows, repo.created)
      ensures scope in safeMode.states
      ensures childResolver.None? ==> repo.created == old(repo.created)
      ensures repo.reliable && childResolver.Some? ==>
                Scopes(repo.created)
                == Scopes(old(repo.created)) + Reached(childResolver.value, scope, MAX_CASCADE_DEPTH)
      ensures repo.reliable && childResolver.Some? ==> DescendantsEngaged(scope)
    {
      if childResolver.None? {
        GrownReflexive(row, repo.rows, repo.created);
        return;
      }
      hide Reached, Scopes, HaltedIn, DescendantsEngaged;
      CascadeWalk(row, scope, 0);
      if repo.reliable {
        CascadeReachesAll(row, scope, old(repo.rows), old(repo.created));
      }
    }

    lemma CascadeReachesAll(row: Interjection, scope: string, r0: Rows, c0: seq<Interjection>)
      requires Covered() && childResolver.Some? && HaltingSeverity(row.severity)
      requires Grown(row, r0, c0, repo.rows, repo.created)
      requires Scopes(repo.created) == Scopes(c0) + Reached(childResolver.value, scope, MAX_CASCADE_DEPTH)
      ensures DescendantsEngaged(scope)
    {
      var log := repo.created;
      NewHaltsEngaged(row, r0, c0);
      hide Covered, Grown, IsHalt, Reached, IsWalk, EndOf;
      EndsAmong(childResolver.value, scope, c0, log, safeMode.states.Keys);
    }

    lemma NewHaltsEngaged(row: Interjection, r0: Rows, c0: seq<Interjection>)
      requires Covered() && HaltingSeverity(row.severity) && Grown(row, r0, c0, repo.rows, repo.created)
      ensures |c0| <= |repo.created|
      ensures forall k :: |c0| <= k < |repo.created| ==> repo.created[k].scope in safeMode.states
    {
      var log := repo.created;
      forall k | |c0| <= k < |log|
        ensures log[k].scope in safeMode.states
      {
        assert log[k].id in repo.rows && IsHalt(repo.rows[log[k].id]);
      }
    }

    /** Resolves an interjection if its resolver may, and lifts Safe Mode if that was the scope's last halt. */
    method Resolve(id: string, resolvedBy: string, action: string) returns (r: Result<()>)
      requires Covered()
      modifies repo, safeMode
      ensures Covered()
      ensures repo.reliable && old(Exact()) ==> Exact()
      ensures r.Failure? ==> repo.rows == old(repo.rows) && safeMode.states == old(safeMode.states)
      ensures r.Success? ==>
                && id in old(repo.rows) && old(repo.rows)[id].status.Active?
                && MayResolve(old(repo.rows)[id], resolvedBy) && ValidAction(action)
                && repo.rows == old(repo.rows)[id := old(repo.rows)[id].(status := Resolved)]
      ensures repo.reliable ==>
                (r.Success? <==> id in old(repo.rows) && old(repo.rows)[id].status.Active?
                                 && MayResolve(old(repo.rows)[id], resolvedBy) && ValidAction(action))
      // Which check refuses, in the order of the code.
      ensures repo.reliable && r.Failure? ==>
                r.error == if id !in old(repo.rows) then NotFound
                           else if !MayResolve(old(repo.rows)[id], resolvedBy) then InsufficientClearance
                           else if !ValidAction(action) then InvalidAction
                           else StoreFailed
      ensures r == Failure(InsufficientClearance) ==>
                id in old(repo.rows) && !MayResolve(old(repo.rows)[id], resolvedBy)
      ensures repo.created == old(repo.created)
    {
      var found := repo.GetByID(id);
      if found.None? {
        return Failure(NotFound);
      }
      var ij := found.value;
      if resolvedBy != "" {
        var clearance := clearanceOf(resolvedBy);
        if clearance.Some? && clearance.value < ij.sourceClearance {
          return Failure(InsufficientClearance);
        }
      }
      if action != "resume" && action != "abort" && action != "retry" && action != "" {
        return Failure(InvalidAction);
      }
      var ok := repo.Resolve(id);
      if !ok {
        return Failure(StoreFailed);
      }
      OneHaltFewer(old(repo.rows), id, repo.rows[id]);
      DisengageSafeModeIfClear(ij.scope);
      return Success(());
    }

    /** A resolver is refused only when its clearance is known and too low. */
    predicate MayResolve(ij: Interjection, resolvedBy: string) {
      resolvedBy != "" && clearanceOf(resolvedBy).Some? ==> clearanceOf(resolvedBy).value >= ij.sourceClearance
    }

    /** The empty action stands for "resume". */
    predicate ValidAction(action: string) { action in {"resume", "abort", "retry", ""} }

    /** Re-engages Safe Mode from the store; on a fresh controller the result is exact. */
    method RecoverOnStartup() returns (ok: bool)
      requires repo.Valid() && forall s :: s in safeMode.states ==> safeMode.states[s].active
      modifies safeMode
      ensures repo.reliable ==> ok
      ensures ok ==> Covered()
      ensures ok && old(safeMode.states) == map[] ==> Exact()
      ensures !ok ==> safeMode.states == old(safeMode.states)
    {
      var active := repo.GetActive(None);
      if active.None? {
        return false;
      }
      var list := active.value;
      for i := 0 to |list|
        invariant forall s :: s in safeMode.states ==> safeMode.states[s].active
        invariant forall k :: 0 <= k < i && HaltingSeverity(list[k].severity) ==>
                    (list[k].scope in safeMode.states
                     && list[k].id in safeMode.states[list[k].scope].interjectionIDs)
        invariant old(safeMode.states) == map[] ==> forall s :: s in safeMode.states ==> HaltedIn(repo.rows, s)
      {
        if list[i].severity == "critical" || list[i].severity == "fatal" {
          assert list[i].id in repo.rows && IsHalt(repo.rows[list[i].id]);
          safeMode.Engage(list[i].scope, list[i].id);
        }
      }
      forall id | id in repo.rows && IsHalt(repo.rows[id])
        ensures repo.rows[id].scope in safeMode.states
        ensures id in safeMode.states[repo.rows[id].scope].interjectionIDs
      {
        assert repo.rows[id] in list;
      }
      return true;
    }

    /** Expires one active interjection; without an error, its scope is checked for other halts. */
    method ExpireOne(ij: Interjection) returns (ok: bool)
      requires Covered()
      requires ij.id in repo.rows && repo.rows[ij.id] == ij && ij.status.Active?
      modifies repo, safeMode
      ensures Covered()
      ensures repo.reliable && old(Exact()) ==> Exact()
      ensures repo.created == old(repo.created)
      ensures repo.reliable ==> ok
      ensures repo.rows == if ok then old(repo.rows)[ij.id := ij.(status := Expired)] else old(repo.rows)
    {
      ok := repo.Expire(ij.id);
      if ok {
        OneHaltFewer(old(repo.rows), ij.id, repo.rows[ij.id]);
        DisengageSafeModeIfClear(ij.scope);
      }
    }

    lemma RepoIsValid()
      requires Covered()
      ensures repo.Valid()
    {
    }

    lemma SweepStarts(list: seq<Interjection>, now: int)
      requires repo.Valid() && repo.ListsActive(list, None)
      ensures ListsAll(list, repo.rows) && Swept(list, 0, repo.rows, now, repo.reliable)
    {
    }

    /** Expires overdue interjections and lifts Safe Mode where they were the last halt. */
    method ExpireTTL(now: int) returns (expired: Option<nat>)
      requires Covered()
      modifies repo, safeMode
      ensures Covered()
      ensures repo.reliable && old(Exact()) ==> Exact()
      ensures repo.created == old(repo.created)
      ensures ExpiredOnly(old(repo.rows), repo.rows, now)
      ensures expired.Some? ==> expired.value == |Changed(old(repo.rows), repo.rows)|
      ensures expired.None? ==> repo.rows == old(repo.rows)
      ensures repo.reliable ==>
                && expired.Some? && repo.rows.Keys == old(repo.rows).Keys
                && forall id :: id in repo.rows ==>
                     var row := old(repo.rows)[id];
                     repo.rows[id] == if row.status.Active? && row.expiresAt.Some? && row.expiresAt.value != 0
                                         && row.expiresAt.value < now
                                      then row.(status := Expired) else row
    {
      RepoIsValid();
      NothingExpired(repo.rows, now);
      hide Covered, Exact, ExactExcept, ExpiredOnly, Changed, Swept, ListsAll, InterjectionRepo.ListsActive;
      var active := repo.GetActive(None);
      if active.None? {
        return None;
      }
      var list, count := active.value, 0;
      ghost var r0 := repo.rows;
      SweepStarts(list, now);
      for i := 0 to |list|
        invariant Covered()
        invariant repo.reliable && old(Exact()) ==> Exact()
        invariant repo.created == old(repo.created)
        invariant ExpiredOnly(r0, repo.rows, now)
        invariant count == |Changed(r0, repo.rows)|
        invariant Swept(list, i, repo.rows, now, repo.reliable)
      {
        var ij := list[i];
        SweptNext(list, i, repo.rows, now, repo.reliable);
        ExpiredOnlyActive(r0, repo.rows, ij.id, now);
        if ij.expiresAt.Some? && ij.expiresAt.value != 0 && ij.expiresAt.value < now {
          ghost var before := repo.rows;
          var ok := ExpireOne(ij);
          SweptOneMore(list, r0, i, before, repo.rows, now, repo.reliable);
          if !ok {
            continue;
          }
          count := count + 1;
          ExpiredOneMore(r0, before, ij.id, now);
        } else {
          SweptOneMore(list, r0, i, repo.rows, repo.rows, now, repo.reliable);
        }
      }
      if repo.reliable {
        NoneOverdue(list, r0, repo.rows, now);
        OverdueExpired(r0, repo.rows, now);
      }
      return Some(count);
    }
  }

  /** When all new rows have scopes among these, so have the ends of all walks. */
  lemma EndsAmong(h: Hierarchy, scope: string, c0: seq<Interjection>, log: seq<Interjection>, scopes: set<string>)
    requires Scopes(log) == Scopes(c0) + Reached(h, scope, MAX_CASCADE_DEPTH)
    requires forall k :: |c0| <= k < |log| ==> log[k].scope in scopes
    ensures forall w :: 1 <= |w| <= MAX_CASCADE_DEPTH && IsWalk(h, scope, w) ==> EndOf(h, scope, w) in scopes
  {
    hide Reached, IsWalk, EndOf, Walks, Scopes;
    forall w | 1 <= |w| <= MAX_CASCADE_DEPTH && IsWalk(h, scope, w)
      ensures EndOf(h, scope, w) in scopes
    {
      var k := PositionOfWalk(h, scope, MAX_CASCADE_DEPTH, w);
      assert Scopes(log)[|c0| + k] == log[|c0| + k].scope;
    }
  }

  /** Rows differ only in that some overdue ones have expired. */
  ghost predicate ExpiredOnly(r0: Rows, r1: Rows, now: int) {
    && r0.Keys == r1.Keys
    && forall id :: id in r0 ==> (r1[id] == r0[id] || (Overdue(r0[id], now) && r1[id] == r0[id].(status := Expired)))
  }

  ghost function Changed(r0: Rows, r1: Rows): set<string>
    requires r0.Keys == r1.Keys
  {
    set id | id in r0 && r1[id] != r0[id]
  }

  lemma ChangedByNone(r: Rows)
    ensures Changed(r, r) == {}
  {
  }

  /** list holds every active row, and none twice. */
  ghost predicate ListsAll(list: seq<Interjection>, r: Rows) {
    && (forall id :: id in r ==> r[id].id == id)
    && (forall id :: id in r && r[id].status.Active? ==> r[id] in list)
    && (forall a, b :: 0 <= a < b < |list| ==> list[a].id != list[b].id)
  }

  /** The first i interjections of the list have been dealt with, the others are as they were listed. */
  ghost predicate Swept(list: seq<Interjection>, i: int, r: Rows, now: int, reliable: bool) {
    && 0 <= i <= |list|
    && (forall k :: i <= k < |list| ==> list[k].id in r && r[list[k].id] == list[k] && list[k].status.Active?)
    && (reliable ==> forall k :: 0 <= k < i ==> list[k].id in r && !Overdue(r[list[k].id], now))
  }

  lemma SweptNext(list: seq<Interjection>, i: nat, r: Rows, now: int, reliable: bool)
    requires i < |list| && Swept(list, i, r, now, reliable)
    ensures list[i].id in r && r[list[i].id] == list[i] && list[i].status.Active?
  {
  }

  lemma SweptOneMore(list: seq<Interjection>, all: Rows, i: nat, r0: Rows, r1: Rows, now: int, reliable: bool)
    requires i < |list| && ListsAll(list, all) && Swept(list, i, r0, now, reliable)
    requires r1 == r0 || r1 == r0[list[i].id := list[i].(status := Expired)]
    requires reliable && Overdue(list[i], now) ==> r1 != r0
    ensures Swept(list, i + 1, r1, now, reliable)
  {
    forall k | 0 <= k < |list| && k != i
      ensures list[k].id != list[i].id
    {
      if k < i {
        assert list[k].id != list[i].id;
      } else {
        assert list[i].id != list[k].id;
      }
    }
    if r1 != r0 {
      assert !Overdue(r1[list[i].id], now);
    }
  }

  lemma NothingExpired(r: Rows, now: int)
    ensures ExpiredOnly(r, r, now) && |Changed(r, r)| == 0
  {
    ChangedByNone(r);
  }

  lemma ExpiredOnlyActive(r0: Rows, r1: Rows, id: string, now: int)
    requires ExpiredOnly(r0, r1, now) && id in r1 && r1[id].status.Active?
    ensures id in r0 && r1[id] == r0[id]
  {
  }

  /** When none is left overdue, just the overdue ones have expired. */
  lemma OverdueExpired(r0: Rows, r1: Rows, now: int)
    requires ExpiredOnly(r0, r1, now) && forall id :: id in r1 ==> !Overdue(r1[id], now)
    ensures r1.Keys == r0.Keys
    ensures forall id :: id in r1 ==> r1[id] == if Overdue(r0[id], now) then r0[id].(status := Expired) else r0[id]
  {
  }

  lemma NoneOverdue(list: seq<Interjection>, r0: Rows, r1: Rows, now: int)
    requires ExpiredOnly(r0, r1, now) && ListsAll(list, r0) && Swept(list, |list|, r1, now, true)
    ensures forall id :: id in r1 ==> !Overdue(r1[id], now)
  {
    forall id | id in r1
      ensures !Overdue(r1[id], now)
    {
      if r1[id].status.Active? {
        var k :| 0 <= k < |list| && list[k] == r0[id];
      }
    }
  }

  lemma ExpiredOneMore(r0: Rows, r: Rows, id: string, now: int)
    requires ExpiredOnly(r0, r, now) && id in r && r[id] == r0[id] && Overdue(r0[id], now)
    ensures var r1 := r[id := r[id].(status := Expired)];
            && ExpiredOnly(r0, r1, now)
            && |Changed(r0, r1)| == |Changed(r0, r)| + 1
  {
    var r1 := r[id := r[id].(status := Expired)];
    assert Changed(r0, r1) == Changed(r0, r) + {id};
  }

  /** Retiring an active row takes away the halts of its own scope at most. */
  lemma OneHaltFewer(rows: Rows, id: string, row: Interjection)
    requires id in rows && row.scope == rows[id].scope && !row.status.Active?
    ensures forall s :: s != row.scope ==> (HaltedIn(rows[id := row], s) <==> HaltedIn(rows, s))
  {
    var after := rows[id := row];
    forall s | s != row.scope
      ensures HaltedIn(after, s) <==> HaltedIn(rows, s)
    {
      if HaltedIn(rows, s) {
        var k :| k in rows && IsHalt(rows[k]) && rows[k].scope == s;
        assert k in after && IsHalt(after[k]);
      }
      if HaltedIn(after, s) {
        var k :| k in after && IsHalt(after[k]) && after[k].scope == s;
        assert k in rows && IsHalt(rows[k]);
      }
    }
  }

  lemma ReachedUnfolds(h: Hierarchy, agent: string, depth: nat)
    ensures depth == 0 || h(agent).None? ==> Reached(h, agent, depth) == []
    ensures depth > 0 && h(agent).Some? ==>
              && Reached(h, agent, depth) == ReachedFrom(h, h(agent).value, 0, depth)
              && ReachedFrom(h, h(agent).value, |h(agent).value|, depth) == []
  {
  }

  /** A child and everything below it account for one step through the children. */
  lemma ReachedOneMore(h: Hierarchy, children: seq<string>, i: nat, depth: nat, log0: seq<string>, log1: seq<string>)
    requires i < |children| && depth > 0
    requires log1 == log0 + [children[i]] + Reached(h, children[i], depth - 1)
    ensures log1 + ReachedFrom(h, children, i + 1, depth) == log0 + ReachedFrom(h, children, i, depth)
  {
    hide Reached;
    var below, later := Reached(h, children[i], depth - 1), ReachedFrom(h, children, i + 1, depth);
    assert ReachedFrom(h, children, i, depth) == [children[i]] + below + later;
    hide ReachedFrom;
  }

  lemma HaltsAfterOneMore(rows: Rows, id: string, row: Interjection)
    requires id !in rows
    ensures forall s :: HaltedIn(rows, s) ==> HaltedIn(rows[id := row], s)
    ensures IsHalt(row) ==> HaltedIn(rows[id := row], row.scope)
  {
    var after := rows[id := row];
    forall s | HaltedIn(rows, s)
      ensures HaltedIn(after, s)
    {
      var k :| k in rows && IsHalt(rows[k]) && rows[k].scope == s;
      assert k in after && IsHalt(after[k]);
    }
    assert id in after;
  }

  /** The child interjection that a cascade from parent creates for an agent. */
  function ChildOf(parent: Interjection, agent: string): Interjection {
    Interjection("", agent, parent.severity, "cascade:" + parent.source, parent.createdBy, 0, parent.expiresAt, Active)
  }

  /** Rows and creation log have grown by children of parent only. */
  ghost predicate Grown(parent: Interjection, r0: Rows, c0: seq<Interjection>, r1: Rows, c1: seq<Interjection>) {
    && (forall id :: id in r0 ==> id in r1 && r1[id] == r0[id])
    && c0 <= c1
    && (forall k {:trigger c1[k]} :: |c0| <= k < |c1| ==>
         (c1[k].id in r1 && r1[c1[k].id] == c1[k] && c1[k] == ChildOf(parent, c1[k].scope).(id := c1[k].id)))
    && (forall id :: id in r1 && id !in r0 ==> exists k :: |c0| <= k < |c1| && c1[k].id == id)
  }

  lemma GrownReflexive(parent: Interjection, r: Rows, c: seq<Interjection>)
    ensures Grown(parent, r, c, r, c)
  {
  }

  /** What a cascade has added: rows with the parent's severity and no clearance of their own. */
  lemma GrownRows(parent: Interjection, r0: Rows, c0: seq<Interjection>, r1: Rows, c1: seq<Interjection>)
    requires Grown(parent, r0, c0, r1, c1)
    ensures |c0| <= |c1| && forall id :: id in r0 ==> id in r1 && r1[id] == r0[id]
    ensures forall k :: |c0| <= k < |c1| ==> c1[k].sourceClearance == 0 && c1[k].severity == parent.severity
  {
  }

  lemma GrownByOne(parent: Interjection, agent: string, r: Rows, c: seq<Interjection>, id: string)
    requires id !in r
    ensures var row := ChildOf(parent, agent).(id := id);
            Grown(parent, r, c, r[id := row], c + [row])
  {
    var row := ChildOf(parent, agent).(id := id);
    assert (c + [row])[|c|].id == id;
  }

  lemma GrownTransitive(parent: Interjection, r0: Rows, c0: seq<Interjection>, r1: Rows, c1: seq<Interjection>,
                        r2: Rows, c2: seq<Interjection>)
    requires Grown(parent, r0, c0, r1, c1) && Grown(parent, r1, c1, r2, c2)
    ensures Grown(parent, r0, c0, r2, c2)
  {
    forall k {:trigger c2[k]} | |c0| <= k < |c1|
      ensures c2[k] == c1[k]
    {
    }
    forall id | id in r2 && id !in r0
      ensures exists k :: |c0| <= k < |c2| && c2[k].id == id
    {
      if id in r1 {
        var k :| |c0| <= k < |c1| && c1[k].id == id;
        assert c2[k].id == id;
      }
    }
  }

  lemma ScopesAppend(c: seq<Interjection>, row: Interjection)
    ensures Scopes(c + [row]) == Scopes(c) + [row.scope]
  {
  }

  lemma ScopesOfOneMore(parent: Interjection, r0: Rows, c0: seq<Interjection>, r1: Rows, c1: seq<Interjection>)
    requires Grown(parent, r0, c0, r1, c1) && |c1| == |c0| + 1
    ensures Scopes(c1) == Scopes(c0) + [c1[|c0|].scope]
  {
    assert c1 == c0 + [c1[|c0|]];
    ScopesAppend(c0, c1[|c0|]);
  }

  // ----- Whole runs -----

  datatype Request =
    | HaltRequest(ij: Interjection)
    | ResolveRequest(id: string, resolvedBy: string, action: string)
    | ExpireRequest(now: int)

  /**
    A manager started over any store left by a previous run, then any requests in
    any order.  Safe Mode never misses a halt; with a reliable store it holds
    exactly the scopes that have one.
    */
  method RunFromStartup(repo: InterjectionRepo, childResolver: Option<Hierarchy>, clearanceOf: string -> Option<int>,
                        requests: seq<Request>) returns (m: Manager, recovered: bool)
    requires repo.Valid()
    modifies repo
    ensures m.repo == repo
    ensures repo.reliable ==> recovered
    ensures recovered ==> forall scope :: Halted(repo.rows, scope) ==> m.safeMode.IsHalted(scope)
    ensures repo.reliable ==> forall scope :: m.safeMode.IsHalted(scope) <==> Halted(repo.rows, scope)
    ensures repo.reliable ==> forall scope :: scope in m.safeMode.states <==> HaltedIn(repo.rows, scope)
  {
    m := new Manager(repo, childResolver, clearanceOf);
    recovered := m.RecoverOnStartup();
    if !recovered {
      return;
    }
    for i := 0 to |requests|
      invariant m.Covered()
      invariant repo.reliable ==> m.Exact()
    {
      Serve(m, requests[i]);
    }
    forall scope
      ensures Halted(repo.rows, scope) ==> m.safeMode.IsHalted(scope)
      ensures repo.reliable ==> (m.safeMode.IsHalted(scope) <==> Halted(repo.rows, scope))
      ensures repo.reliable ==> (scope in m.safeMode.states <==> HaltedIn(repo.rows, scope))
    {
      m.SafeModeAgrees(scope);
    }
  }

  /** A row stays under its ID, with its clearance. */
  predicate KeepsClearance(r0: Rows, r1: Rows) {
    forall id :: id in r0 ==> id in r1 && r1[id].sourceClearance == r0[id].sourceClearance
  }

  lemma ExpiryKeepsClearance(r0: Rows, r1: Rows, now: int)
    requires ExpiredOnly(r0, r1, now)
    ensures KeepsClearance(r0, r1)
  {
  }

  lemma HaltKeepsClearance(r0: Rows, id: string, row: Interjection, c0: seq<Interjection>, r1: Rows,
                           c1: seq<Interjection>)
    requires id !in r0 && Grown(row, r0[id := row], c0, r1, c1)
    ensures KeepsClearance(r0, r1)
  {
  }

  /** One request, whose answer does not matter here. */
  method Serve(m: Manager, request: Request)
    requires m.Covered()
    modifies m.repo, m.safeMode
    ensures m.Covered()
    ensures m.repo.reliable && old(m.Exact()) ==> m.Exact()
    ensures KeepsClearance(old(m.repo.rows), m.repo.rows)
  {
    hide KeepsClearance, ExpiredOnly, Grown, Manager.Covered, Manager.Exact, Manager.ExactExcept;
    ghost var rows := m.repo.rows;
    NothingChanges(rows);
    match request {
      case HaltRequest(ij) =>
        var r := m.Halt(ij);
        if r.Success? {
          ghost var row := m.Stamped(ij).(id := r.value, status := Active);
          HaltKeepsClearance(rows, r.value, row, old(m.repo.created) + [row], m.repo.rows, m.repo.created);
        }
      case ResolveRequest(id, resolvedBy, action) =>
        var r := m.Resolve(id, resolvedBy, action);
        if r.Success? {
          ResolutionKeepsClearance(rows, id);
        }
      case ExpireRequest(now) =>
        var _ := m.ExpireTTL(now);
        ExpiryKeepsClearance(rows, m.repo.rows, now);
    }
  }

  lemma NothingChanges(r: Rows)
    ensures KeepsClearance(r, r)
  {
  }

  lemma ResolutionKeepsClearance(r: Rows, id: string)
    requires id in r
    ensures KeepsClearance(r, r[id := r[id].(status := Resolved)])
  {
  }

  lemma ClearanceStays(r0: Rows, r1: Rows, r2: Rows)
    requires KeepsClearance(r0, r1) && KeepsClearance(r1, r2)
    ensures KeepsClearance(r0, r2)
  {
  }

  /**
    Whatever is requested after a halt by a creator of known clearance, a resolver of
    known lower clearance cannot resolve it: the attempt fails and changes nothing.
    */
  method HaltThenResolve(m: Manager, ij: Interjection, requests: seq<Request>, resolvedBy: string, action: string)
    returns (halted: Result<string>, resolved: Result<()>, ghost rows: Rows, ghost states: map<string, SafeModeState>)
    requires m.Covered() && ij.createdBy != "" && resolvedBy != ""
    requires m.clearanceOf(ij.createdBy).Some? && m.clearanceOf(resolvedBy).Some?
    requires m.clearanceOf(resolvedBy).value < m.clearanceOf(ij.createdBy).value
    modifies m.repo, m.safeMode
    ensures m.Covered()
    ensures halted.Success? ==> resolved.Failure? && m.repo.rows == rows && m.safeMode.states == states
    ensures halted.Success? && m.repo.reliable ==> resolved == Failure(InsufficientClearance)
  {
    halted := m.Halt(ij);
    resolved, rows, states := Failure(NotFound), m.repo.rows, m.safeMode.states;
    if halted.Failure? {
      return;
    }
    var id := halted.value;
    ghost var r0 := m.repo.rows;
    hide KeepsClearance, Manager.Covered;
    NothingChanges(r0);
    for i := 0 to |requests|
      invariant m.Covered() && KeepsClearance(r0, m.repo.rows)
    {
      ghost var before := m.repo.rows;
      Serve(m, requests[i]);
      ClearanceStays(r0, before, m.repo.rows);
    }
    HasItsClearance(r0, m.repo.rows, id);
    rows, states := m.repo.rows, m.safeMode.states;
    resolved := m.Resolve(id, resolvedBy, action);
  }

  lemma HasItsClearance(r0: Rows, r1: Rows, id: string)
    requires KeepsClearance(r0, r1) && id in r0
    ensures id in r1 && r1[id].sourceClearance == r0[id].sourceClearance
  {
  }
}
