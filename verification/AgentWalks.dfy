/**
  Walks down an agent hierarchy, which may have cycles: what `cascadeWalk` of
  internal/interject/manager.go visits, counted edge by edge.
  */
module AgentWalks {
  import opened Strings

  /** The children of an agent, or None when the lookup fails. */
  type Hierarchy = string -> Option<seq<string>>

  function ChildrenOf(h: Hierarchy, agent: string): seq<string> {
    match h(agent)
    case None => []
    case Some(children) => children
  }

  /** A walk picks, at each step, one of the current agent's child edges by its position. */
  type Walk = seq<nat>

  predicate IsWalk(h: Hierarchy, agent: string, w: Walk)
    decreases |w|
  {
    w != [] ==> w[0] < |ChildrenOf(h, agent)| && IsWalk(h, ChildrenOf(h, agent)[w[0]], w[1..])
  }

  function EndOf(h: Hierarchy, agent: string, w: Walk): string
    requires IsWalk(h, agent, w)
    decreases |w|
  {
    if w == [] then agent else EndOf(h, ChildrenOf(h, agent)[w[0]], w[1..])
  }

  /** The agents a cascade of the given depth reaches, in the order it reaches them. */
  function Reached(h: Hierarchy, agent: string, depth: nat): seq<string>
    decreases depth, 0
  {
    if depth == 0 then [] else ReachedFrom(h, ChildrenOf(h, agent), 0, depth)
  }

  function ReachedFrom(h: Hierarchy, children: seq<string>, i: nat, depth: nat): seq<string>
    requires i <= |children| && depth > 0
    decreases depth - 1, |children| - i + 1
  {
    if i == |children| then []
    else [children[i]] + Reached(h, children[i], depth - 1) + ReachedFrom(h, children, i + 1, depth)
  }

  /** The walks behind those agents, in the same order. */
  function Walks(h: Hierarchy, agent: string, depth: nat): seq<Walk>
    decreases depth, 0
  {
    if depth == 0 then [] else WalksFrom(h, ChildrenOf(h, agent), 0, depth)
  }

  function WalksFrom(h: Hierarchy, children: seq<string>, i: nat, depth: nat): seq<Walk>
    requires i <= |children| && depth > 0
    decreases depth - 1, |children| - i + 1
  {
    if i == |children| then []
    else StartingWith(i, [[]] + Walks(h, children[i], depth - 1)) + WalksFrom(h, children, i + 1, depth)
  }

  function StartingWith(i: nat, ws: seq<Walk>): (r: seq<Walk>)
    ensures |r| == |ws|
    ensures forall k :: 0 <= k < |ws| ==> r[k] == [i] + ws[k]
  {
    seq(|ws|, k requires 0 <= k < |ws| => [i] + ws[k])
  }

  lemma StartingWithMembers(i: nat, ws: seq<Walk>, w: Walk)
    ensures w in StartingWith(i, ws) <==> w != [] && w[0] == i && w[1..] in ws
  {
    var r := StartingWith(i, ws);
    if w in r {
      var k :| 0 <= k < |r| && r[k] == w;
      assert w[1..] == ws[k];
    }
    if w != [] && w[0] == i && w[1..] in ws {
      var k :| 0 <= k < |ws| && ws[k] == w[1..];
      assert r[k] == w;
    }
  }

  lemma {:induction false} WalksAreAll(h: Hierarchy, agent: string, depth: nat, w: Walk)
    ensures w in Walks(h, agent, depth) <==> 1 <= |w| <= depth && IsWalk(h, agent, w)
    decreases depth, 0
  {
    if depth > 0 {
      WalksFromAreAll(h, ChildrenOf(h, agent), 0, depth, w);
    }
  }

  lemma {:induction false} WalksFromAreAll(h: Hierarchy, children: seq<string>, i: nat, depth: nat, w: Walk)
    requires i <= |children| && depth > 0
    ensures w in WalksFrom(h, children, i, depth)
        <==> 1 <= |w| <= depth && i <= w[0] < |children| && IsWalk(h, children[w[0]], w[1..])
    decreases depth - 1, |children| - i + 1
  {
    if i < |children| {
      var deeper := Walks(h, children[i], depth - 1);
      assert WalksFrom(h, children, i, depth) == StartingWith(i, [[]] + deeper) + WalksFrom(h, children, i + 1, depth);
      assert IsWalk(h, children[i], []);
      WalksFromAreAll(h, children, i + 1, depth, w);
      StartingWithMembers(i, [[]] + deeper, w);
      if w != [] {
        WalksAreAll(h, children[i], depth - 1, w[1..]);
      }
      hide WalksFrom, Walks, IsWalk;
    }
  }

  predicate NoRepeats<T(==)>(s: seq<T>) {
    forall a, b :: 0 <= a < b < |s| ==> s[a] != s[b]
  }

  lemma NoRepeatsAppend<T>(s: seq<T>, t: seq<T>)
    requires NoRepeats(s) && NoRepeats(t) && forall x :: x in s ==> x !in t
    ensures NoRepeats(s + t)
  {
    forall a, b | 0 <= a < b < |s + t|
      ensures (s + t)[a] != (s + t)[b]
    {
      if a < |s| <= b {
        assert s[a] in s && t[b - |s|] in t;
      }
    }
  }

  lemma {:induction false} WalksDoNotRepeat(h: Hierarchy, agent: string, depth: nat)
    ensures NoRepeats(Walks(h, agent, depth))
    decreases depth, 0
  {
    if depth > 0 {
      WalksFromDoNotRepeat(h, ChildrenOf(h, agent), 0, depth);
    }
  }

  lemma {:induction false} WalksFromDoNotRepeat(h: Hierarchy, children: seq<string>, i: nat, depth: nat)
    requires i <= |children| && depth > 0
    ensures NoRepeats(WalksFrom(h, children, i, depth))
    decreases depth - 1, |children| - i + 1
  {
    if i < |children| {
      var deeper := Walks(h, children[i], depth - 1);
      var first, later := StartingWith(i, [[]] + deeper), WalksFrom(h, children, i + 1, depth);
      assert WalksFrom(h, children, i, depth) == first + later;
      hide NoRepeats, Walks, WalksFrom, IsWalk, StartingWith;
      WalksDoNotRepeat(h, children[i], depth - 1);
      WalksFromDoNotRepeat(h, children, i + 1, depth);
      WalksAreAll(h, children[i], depth - 1, []);
      EmptyFirstDoesNotRepeat(deeper);
      StartingWithDoesNotRepeat(i, [[]] + deeper);
      LaterStartDiffers(h, children, i, depth, [[]] + deeper);
      NoRepeatsAppend(first, later);
    }
  }

  lemma LaterStartDiffers(h: Hierarchy, children: seq<string>, i: nat, depth: nat, ws: seq<Walk>)
    requires i < |children| && depth > 0
    ensures forall w :: w in StartingWith(i, ws) ==> w !in WalksFrom(h, children, i + 1, depth)
  {
    hide WalksFrom, StartingWith, IsWalk;
    forall w | w in StartingWith(i, ws)
      ensures w !in WalksFrom(h, children, i + 1, depth)
    {
      StartingWithMembers(i, ws, w);
      WalksFromAreAll(h, children, i + 1, depth, w);
    }
  }

  lemma EmptyFirstDoesNotRepeat(ws: seq<Walk>)
    requires NoRepeats(ws) && [] !in ws
    ensures NoRepeats([[]] + ws)
  {
    NoRepeatsAppend([[]], ws);
  }

  lemma StartingWithDoesNotRepeat(i: nat, ws: seq<Walk>)
    requires NoRepeats(ws)
    ensures NoRepeats(StartingWith(i, ws))
  {
    var r := StartingWith(i, ws);
    forall a, b | 0 <= a < b < |r|
      ensures r[a] != r[b]
    {
      assert r[a][1..] == ws[a] && r[b][1..] == ws[b];
    }
  }

  lemma {:induction false} ReachedAreEnds(h: Hierarchy, agent: string, depth: nat)
    ensures |Reached(h, agent, depth)| == |Walks(h, agent, depth)|
    ensures forall k :: 0 <= k < |Walks(h, agent, depth)| ==>
              && IsWalk(h, agent, Walks(h, agent, depth)[k])
              && Reached(h, agent, depth)[k] == EndOf(h, agent, Walks(h, agent, depth)[k])
    decreases depth, 0
  {
    if depth > 0 {
      ReachedFromAreEnds(h, ChildrenOf(h, agent), 0, depth);
    }
  }

  lemma {:induction false} ReachedFromAreEnds(h: Hierarchy, children: seq<string>, i: nat, depth: nat)
    requires i <= |children| && depth > 0
    ensures |ReachedFrom(h, children, i, depth)| == |WalksFrom(h, children, i, depth)|
    ensures forall k :: 0 <= k < |WalksFrom(h, children, i, depth)| ==>
              var w := WalksFrom(h, children, i, depth)[k];
              && w != [] && w[0] < |children| && IsWalk(h, children[w[0]], w[1..])
              && ReachedFrom(h, children, i, depth)[k] == EndOf(h, children[w[0]], w[1..])
    decreases depth - 1, |children| - i + 1
  {
    if i < |children| {
      ReachedAreEnds(h, children[i], depth - 1);
      ReachedFromAreEnds(h, children, i + 1, depth);
      var deeper := Walks(h, children[i], depth - 1);
      var first := StartingWith(i, [[]] + deeper);
      forall k | 0 <= k < |first|
        ensures first[k][0] == i && first[k][1..] == ([[]] + deeper)[k]
      {
      }
    }
  }

  /** Each short enough walk has its place in the order of the cascade. */
  lemma PositionOfWalk(h: Hierarchy, agent: string, depth: nat, w: Walk) returns (k: nat)
    requires 1 <= |w| <= depth && IsWalk(h, agent, w)
    ensures k < |Reached(h, agent, depth)| && Reached(h, agent, depth)[k] == EndOf(h, agent, w)
    ensures k < |Walks(h, agent, depth)| && Walks(h, agent, depth)[k] == w
  {
    WalksAreAll(h, agent, depth, w);
    ReachedAreEnds(h, agent, depth);
    k :| 0 <= k < |Walks(h, agent, depth)| && Walks(h, agent, depth)[k] == w;
  }
}
