/**
  The circular event buffer of internal/nervous/ringbuffer.go.  The ghost field
  `log` holds every event ever pushed; buffer, replay and snapshot are specified by it.
  */
module RingBuffer {
  import opened Events

  const DEFAULT_CAPACITY: nat := 10_000

  const NO_EVENT: Event := Event(0, "", "")

  /** The last n elements, or all when there are fewer. */
  function Last(log: seq<Event>, n: nat): seq<Event> {
    if |log| <= n then log else log[|log| - n..]
  }

  /** The events after sequence number `since`, in order. */
  function Newer(events: seq<Event>, since: nat): seq<Event> {
    if events == [] then []
    else
      var init, last := events[..|events| - 1], events[|events| - 1];
      Newer(init, since) + (if last.sequenceId > since then [last] else [])
  }

  lemma {:induction false} NewerIsExact(events: seq<Event>, since: nat)
    ensures forall e :: e in Newer(events, since) <==> e in events && e.sequenceId > since
    ensures multiset(Newer(events, since)) <= multiset(events)
  {
    if events != [] {
      var init, last := events[..|events| - 1], events[|events| - 1];
      NewerIsExact(init, since);
      assert events == init + [last];
    }
  }

  lemma {:induction false} NewerOfConcat(a: seq<Event>, b: seq<Event>, since: nat)
    ensures Newer(a + b, since) == Newer(a, since) + Newer(b, since)
  {
    if b == [] {
      assert a + b == a;
    } else {
      NewerOfConcat(a, b[..|b| - 1], since);
      assert (a + b)[..|a + b| - 1] == a + b[..|b| - 1];
    }
  }

  predicate Increasing(log: seq<Event>) {
    forall i, j :: 0 <= i < j < |log| ==> log[i].sequenceId < log[j].sequenceId
  }

  lemma {:induction false} NoneNewer(events: seq<Event>, since: nat)
    requires forall k :: 0 <= k < |events| ==> events[k].sequenceId <= since
    ensures Newer(events, since) == []
  {
    if events != [] {
      var init, last := events[..|events| - 1], events[|events| - 1];
      NoneNewer(init, since);
    }
  }

  lemma {:induction false} AllNewer(events: seq<Event>, since: nat)
    requires forall k :: 0 <= k < |events| ==> events[k].sequenceId > since
    ensures Newer(events, since) == events
  {
    if events != [] {
      var init, last := events[..|events| - 1], events[|events| - 1];
      AllNewer(init, since);
      assert Newer(events, since) == Newer(init, since) + [last];
      assert events == init + [last];
    }
  }

  /** How many events of an increasing log are not after `since`. */
  function Upto(log: seq<Event>, since: nat): (n: nat)
    ensures n <= |log|
    ensures forall k :: 0 <= k < n ==> log[k].sequenceId <= since
    ensures n < |log| ==> log[n].sequenceId > since
  {
    if log == [] || log[0].sequenceId > since then 0 else 1 + Upto(log[1..], since)
  }

  lemma StaysAfter(log: seq<Event>, since: nat, n: nat)
    requires Increasing(log) && n <= |log| && (n < |log| ==> log[n].sequenceId > since)
    ensures forall k :: 0 <= k < |log| - n ==> log[n..][k].sequenceId > since
  {
  }

  /** On increasing sequence numbers a replay is a suffix of the buffer. */
  lemma ReplayIsSuffix(log: seq<Event>, since: nat)
    requires Increasing(log)
    ensures Newer(log, since) == log[Upto(log, since)..]
  {
    hide Newer, Upto, Increasing;
    var n := Upto(log, since);
    var early, late := log[..n], log[n..];
    assert log == early + late;
    NewerOfConcat(early, late, since);
    NoneNewer(early, since);
    StaysAfter(log, since, n);
    AllNewer(late, since);
  }

  /**
    A late subscriber that asks for everything after `since` catches up completely
    exactly when the newest overwritten event is one it has seen.
    */
  lemma ReplayCatchesUpIff(log: seq<Event>, capacity: nat, since: nat)
    requires Increasing(log) && capacity > 0
    ensures Newer(Last(log, capacity), since) == Newer(log, since)
            <==> |log| <= capacity || log[|log| - capacity - 1].sequenceId <= since
  {
    hide Newer;
    if |log| > capacity {
      var cut := |log| - capacity;
      var lost, kept := log[..cut], log[cut..];
      assert log == lost + kept;
      NewerOfConcat(lost, kept, since);
      if log[cut - 1].sequenceId <= since {
        assert forall k :: 0 <= k < cut - 1 ==> log[k].sequenceId < log[cut - 1].sequenceId;
        NoneNewer(lost, since);
      } else {
        assert lost[cut - 1] in lost;
        NewerIsExact(lost, since);
        assert |Newer(log, since)| > |Newer(kept, since)|;
      }
    }
  }

  lemma Multiples(capacity: nat, q: int)
    ensures q >= 1 ==> capacity * q >= capacity
    ensures q <= 0 ==> capacity * q <= 0
    ensures q <= -1 ==> capacity * q + capacity <= 0
  {
  }

  /** Two places of the log that share a slot are at least a whole capacity apart. */
  lemma SameSlot(i: nat, j: nat, capacity: nat)
    requires i < j && capacity > 0 && i % capacity == j % capacity
    ensures j - i >= capacity
  {
    var q := j / capacity - i / capacity;
    assert j - i == capacity * q;
    Multiples(capacity, q);
  }

  lemma NextSlot(n: nat, capacity: nat)
    requires capacity > 0
    ensures (n % capacity + 1) % capacity == (n + 1) % capacity
  {
    var q, r := n / capacity, n % capacity;
    assert n == capacity * q + r;
    if r + 1 < capacity {
      Quotient(n + 1, capacity, q, r + 1);
    } else {
      assert capacity * (q + 1) == capacity * q + capacity;
      Quotient(n + 1, capacity, q + 1, 0);
    }
  }

  lemma Quotient(n: nat, capacity: nat, q: int, r: nat)
    requires capacity > 0 && n == capacity * q + r && r < capacity
    ensures n % capacity == r
  {
    var q', r' := n / capacity, n % capacity;
    assert capacity * (q - q') == r' - r;
    Multiples(capacity, q - q');
  }

  /** Counting on from slot a % capacity arrives where counting from a does. */
  lemma SlotsAdd(a: nat, i: nat, capacity: nat)
    requires capacity > 0
    ensures (a % capacity + i) % capacity == (a + i) % capacity
  {
    if i > 0 {
      SlotsAdd(a, i - 1, capacity);
      NextSlot(a % capacity + i - 1, capacity);
      NextSlot(a + i - 1, capacity);
    } else {
      Quotient(a % capacity, capacity, 0, a % capacity);
    }
  }

  /** The slots hold the latest events of the log. */
  ghost predicate Holds(slots: seq<Event>, head: nat, count: nat, log: seq<Event>) {
    && |slots| > 0
    && count == (if |log| < |slots| then |log| else |slots|)
    && head == |log| % |slots|
    && (forall k :: |log| - count <= k < |log| ==> slots[k % |slots|] == log[k])
  }

  lemma PushHolds(slots: seq<Event>, head: nat, count: nat, log: seq<Event>, event: Event)
    requires Holds(slots, head, count, log)
    ensures head < |slots|
    ensures Holds(slots[head := event], (head + 1) % |slots|, if count < |slots| then count + 1 else count,
                  log + [event])
  {
    var n := |slots|;
    NextSlot(|log|, n);
    var count' := if count < n then count + 1 else count;
    forall k | |log| + 1 - count' <= k < |log| + 1
      ensures slots[head := event][k % n] == (log + [event])[k]
    {
      if k < |log| && k % n == |log| % n {
        SameSlot(k, |log|, n);
      }
    }
  }

  /** Reading on from the oldest slot meets the held events in order. */
  lemma OldestFirst(slots: seq<Event>, head: nat, count: nat, log: seq<Event>, i: nat)
    requires Holds(slots, head, count, log) && i < count
    ensures var start := if count < |slots| then 0 else head;
            slots[(start + i) % |slots|] == Last(log, |slots|)[i]
  {
    var n := |slots|;
    if count < n {
      Quotient(i, n, 0, i);
      assert slots[i % n] == log[i];
    } else {
      SlotsAdd(|log|, i, n);
      var k := |log| - n + i;
      assert |log| + i == k + n;
      Quotient(k + n, n, k / n + 1, k % n);
      assert slots[k % n] == log[k];
    }
  }

  class RingBuffer {
    const buf: array<Event>
    var head: nat
    var count: nat
    ghost var log: seq<Event>

    ghost predicate Valid()
      reads this, buf
    {
      Holds(buf[..], head, count, log)
    }

    constructor (capacity: int)
      ensures Valid() && fresh(buf) && log == []
      ensures buf.Length == if capacity <= 0 then DEFAULT_CAPACITY else capacity
    {
      var size := if capacity <= 0 then DEFAULT_CAPACITY else capacity;
      buf := new Event[size](_ => NO_EVENT);
      head, count, log := 0, 0, [];
      new;
      Quotient(0, size, 0, 0);
    }

    method Push(event: Event)
      requires Valid()
      modifies this, buf
      ensures Valid() && log == old(log) + [event]
    {
      PushHolds(buf[..], head, count, log, event);
      ghost var slots := buf[..];
      hide Holds;
      buf[head] := event;
      assert buf[..] == slots[head := event];
      head := (head + 1) % buf.Length;
      if count < buf.Length {
        count := count + 1;
      }
      log := log + [event];
    }

    function OldestIndex(): nat
      reads this
    {
      if count < buf.Length then 0 else head
    }

    /** The events in the buffer after `since`, in the order they were pushed. */
    method Replay(since: nat) returns (result: seq<Event>)
      requires Valid()
      ensures result == Newer(Last(log, buf.Length), since)
    {
      ghost var held := Last(log, buf.Length);
      result := [];
      if count == 0 {
        return;
      }
      var start := OldestIndex();
      for i := 0 to count
        invariant result == Newer(held[..i], since)
      {
        OldestFirst(buf[..], head, count, log, i);
        assert held[..i + 1][..i] == held[..i];
        var index := (start + i) % buf.Length;
        if buf[index].sequenceId > since {
          result := result + [buf[index]];
        }
      }
      assert held[..count] == held;
    }

    /** All the events in the buffer, oldest first. */
    method Snapshot() returns (result: seq<Event>)
      requires Valid()
      ensures result == Last(log, buf.Length)
      ensures result == if |log| <= buf.Length then log else log[|log| - buf.Length..]
    {
      ghost var held := Last(log, buf.Length);
      result := [];
      if count == 0 {
        return;
      }
      var start := OldestIndex();
      for i := 0 to count
        invariant result == held[..i]
      {
        OldestFirst(buf[..], head, count, log, i);
        assert held[..i + 1] == held[..i] + [held[i]];
        result := result + [buf[(start + i) % buf.Length]];
      }
      assert held[..count] == held;
    }
  }
}
