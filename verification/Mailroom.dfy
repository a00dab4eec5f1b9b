/**
  Outbound mail of internal/agentmail: the Postbox queue, and the Mailroom that
  dispatches it, retries failures and dead-letters what keeps failing.

  Which adapter is used is left open, and whether its send succeeds is a function of
  the mail and the number of the attempt, which may be any.  The queue behaves as the AgentMail store does, with
  the mail ID as its key; its calls may fail unless it is `reliable`.
  */
module Mailroom {
  import opened Collections
  import opened Strings

  datatype Mail = Mail(id: string, from: string, to: string, payload: string)

  datatype DeadLetter = DeadLetter(mailID: string, reason: string, attempts: nat, mail: Mail)

  predicate HasId(mails: seq<Mail>, id: string) {
    exists m :: m in mails && m.id == id
  }

  class Postbox {
    const reliable: bool
    var outbound: seq<Mail>
    var deadLetters: seq<DeadLetter>

    constructor (reliable: bool)
      ensures this.reliable == reliable && outbound == [] && deadLetters == []
    {
      this.reliable := reliable;
      outbound, deadLetters := [], [];
    }

    method Available() returns (ok: bool)
      ensures reliable ==> ok
    {
      if reliable {
        return true;
      }
      ok := *;
    }

    /** Enqueues a mail under a key not in use; a mail without an ID is given one from the clock. */
    method SendOutbound(mail: Mail) returns (queued: Option<Mail>)
      modifies this`outbound
      ensures queued.Some? ==>
                && outbound == old(outbound) + [queued.value] && !HasId(old(outbound), queued.value.id)
                && queued.value == mail.(id := queued.value.id) && (mail.id != "" ==> queued.value == mail)
      ensures queued.None? ==> outbound == old(outbound)
      ensures reliable && mail.id != "" && !HasId(old(outbound), mail.id) ==> queued.Some?
    {
      var m := mail;
      if m.id == "" {
        var stamp: string := *;
        m := m.(id := stamp);
      }
      var ok := Available();
      if !ok || HasId(outbound, m.id) {
        return None;
      }
      outbound := outbound + [m];
      return Some(m);
    }

    /** Takes up to limit mails, in an order the store chooses; a limit that is not positive means 100. */
    method DequeueOutbound(limit: int) returns (batch: Option<seq<Mail>>)
      modifies this`outbound
      ensures batch.None? ==> outbound == old(outbound)
      ensures batch.Some? ==>
                && multiset(old(outbound)) == multiset(batch.value) + multiset(outbound)
                && |batch.value| == Min(|old(outbound)|, if limit <= 0 then 100 else limit)
      ensures reliable ==> batch.Some?
    {
      var ok := Available();
      if !ok {
        return None;
      }
      var n := Min(|outbound|, if limit <= 0 then 100 else limit);
      var taken: seq<Mail> := [];
      while |taken| < n
        invariant |taken| <= n && |taken| + |outbound| == |old(outbound)|
        invariant multiset(old(outbound)) == multiset(taken) + multiset(outbound)
      {
        var i: int := *;
        if !(0 <= i < |outbound|) {
          i := 0;
        }
        RemoveAt(outbound, i);
        taken := taken + [outbound[i]];
        outbound := outbound[..i] + outbound[i + 1..];
      }
      return Some(taken);
    }

    method Quarantine(entry: DeadLetter) returns (ok: bool)
      modifies this`deadLetters
      ensures reliable ==> ok
      ensures deadLetters == if ok then old(deadLetters) + [entry] else old(deadLetters)
    {
      ok := Available();
      if ok {
        deadLetters := deadLetters + [entry];
      }
    }
  }

  // ----- How much work a queue holds -----

  function CountIn(counts: map<string, nat>, id: string): nat {
    if id in counts then counts[id] else 0
  }

  /** The attempts a mail still has before it is dead-lettered. */
  function Left(counts: map<string, nat>, limit: nat, m: Mail): nat {
    if CountIn(counts, m.id) < limit then limit - CountIn(counts, m.id) else 0
  }

  function Work(counts: map<string, nat>, limit: nat, mails: seq<Mail>): nat {
    if mails == [] then 0 else Left(counts, limit, mails[0]) + Work(counts, limit, mails[1..])
  }

  lemma {:induction false} WorkConcat(counts: map<string, nat>, limit: nat, a: seq<Mail>, b: seq<Mail>)
    ensures Work(counts, limit, a + b) == Work(counts, limit, a) + Work(counts, limit, b)
  {
    if a == [] {
      assert a + b == b;
    } else {
      WorkConcat(counts, limit, a[1..], b);
      assert (a + b)[1..] == a[1..] + b;
    }
  }

  lemma WorkWithout(counts: map<string, nat>, limit: nat, mails: seq<Mail>, i: nat)
    requires i < |mails|
    ensures Work(counts, limit, mails)
            == Left(counts, limit, mails[i]) + Work(counts, limit, mails[..i] + mails[i + 1..])
  {
    assert mails == mails[..i] + mails[i..] && mails[i..][1..] == mails[i + 1..];
    WorkConcat(counts, limit, mails[..i], mails[i..]);
    WorkConcat(counts, limit, mails[..i], mails[i + 1..]);
  }

  /** Reordering mails does not change the work they are. */
  lemma {:induction false} WorkOfPermutation(counts: map<string, nat>, limit: nat, a: seq<Mail>, b: seq<Mail>)
    requires multiset(a) == multiset(b)
    ensures Work(counts, limit, a) == Work(counts, limit, b)
    decreases |a|
  {
    if a == [] {
      assert |multiset(b)| == 0;
    } else {
      var i := MatchFirst(a, b);
      WorkOfPermutation(counts, limit, a[1..], b[..i] + b[i + 1..]);
      WorkWithout(counts, limit, b, i);
    }
  }

  /** Counts of other mails do not matter. */
  lemma {:induction false} WorkIsLocal(c0: map<string, nat>, c1: map<string, nat>, limit: nat, mails: seq<Mail>)
    requires forall m :: m in mails ==> CountIn(c0, m.id) == CountIn(c1, m.id)
    ensures Work(c0, limit, mails) == Work(c1, limit, mails)
  {
    if mails != [] {
      WorkIsLocal(c0, c1, limit, mails[1..]);
    }
  }

  // ----- The books: where every mail is and how often it was tried -----

  /**
    `sent` lists every mail ever handed in; the others say where each one is now.
    `tried` counts all attempts per ID, `counts` is the mailroom's retry counter.
    */
  datatype Books = Books(
    sent: seq<Mail>,
    waiting: multiset<Mail>,
    delivered: multiset<Mail>,
    dead: multiset<Mail>,
    lost: multiset<Mail>,
    tried: map<string, nat>,
    counts: map<string, nat>)

  /** No two mails share an ID. */
  predicate UniqueIds(mails: seq<Mail>) {
    forall i, j :: 0 <= i < j < |mails| ==> mails[i].id != mails[j].id
  }

  predicate EachInOnePlace(b: Books) {
    && UniqueIds(b.sent)
    && (forall m :: m in b.sent ==> m.id != "")
    && multiset(b.sent) == b.waiting + b.delivered + b.dead + b.lost
  }

  /** A mail has been tried as often as its place says. */
  ghost predicate CountsFit(b: Books, limit: nat) {
    && (forall m :: m in b.waiting ==> CountIn(b.counts, m.id) == CountIn(b.tried, m.id) < limit)
    && (forall m :: m in b.delivered ==> 1 <= CountIn(b.tried, m.id) <= limit)
    && (forall m :: m in b.dead ==> CountIn(b.tried, m.id) == limit)
  }

  ghost predicate CountsAreOfSent(b: Books) {
    forall id :: id in b.tried || id in b.counts ==> HasId(b.sent, id)
  }

  ghost predicate Balanced(b: Books, limit: nat) {
    EachInOnePlace(b) && CountsFit(b, limit) && CountsAreOfSent(b)
  }

  function OneMore(counts: map<string, nat>, id: string): map<string, nat> {
    counts[id := CountIn(counts, id) + 1]
  }

  function AfterHandIn(b: Books, m: Mail): Books {
    b.(sent := b.sent + [m], waiting := b.waiting + multiset{m})
  }

  function AfterDelivery(b: Books, m: Mail): Books {
    b.(waiting := b.waiting - multiset{m}, delivered := b.delivered + multiset{m},
       tried := OneMore(b.tried, m.id), counts := b.counts - {m.id})
  }

  function AfterRetry(b: Books, m: Mail): Books {
    b.(tried := OneMore(b.tried, m.id), counts := OneMore(b.counts, m.id))
  }

  function AfterQuarantine(b: Books, m: Mail): Books {
    b.(waiting := b.waiting - multiset{m}, dead := b.dead + multiset{m},
       tried := OneMore(b.tried, m.id), counts := b.counts - {m.id})
  }

  /** The store refused the mail; its retry counter may stay behind. */
  function AfterLoss(b: Books, m: Mail, counts: map<string, nat>): Books {
    b.(waiting := b.waiting - multiset{m}, lost := b.lost + multiset{m},
       tried := OneMore(b.tried, m.id), counts := counts)
  }

  lemma InMultiset(mails: seq<Mail>, m: Mail)
    ensures m in mails <==> m in multiset(mails)
  {
  }

  lemma HandInBalances(b: Books, limit: nat, m: Mail)
    requires Balanced(b, limit) && limit >= 1 && m.id != "" && !HasId(b.sent, m.id)
    ensures Balanced(AfterHandIn(b, m), limit)
  {
    HandInKeepsPlaces(b, m);
    HandInKeepsCounts(b, limit, m);
    HandInKeepsIds(b, m);
    hide EachInOnePlace, CountsFit, CountsAreOfSent;
  }

  lemma HandInKeepsPlaces(b: Books, m: Mail)
    requires EachInOnePlace(b) && m.id != "" && !HasId(b.sent, m.id)
    ensures EachInOnePlace(AfterHandIn(b, m))
  {
    assert forall i :: 0 <= i < |b.sent| ==> b.sent[i] in b.sent;
    assert multiset(b.sent + [m]) == multiset(b.sent) + multiset{m};
  }

  lemma HandInKeepsCounts(b: Books, limit: nat, m: Mail)
    requires CountsFit(b, limit) && CountsAreOfSent(b) && limit >= 1 && !HasId(b.sent, m.id)
    ensures CountsFit(AfterHandIn(b, m), limit)
  {
    assert CountIn(b.counts, m.id) == 0 && CountIn(b.tried, m.id) == 0;
    hide CountsAreOfSent, HasId, CountIn;
  }

  lemma HandInKeepsIds(b: Books, m: Mail)
    requires CountsAreOfSent(b)
    ensures CountsAreOfSent(AfterHandIn(b, m))
  {
    forall id | HasId(b.sent, id)
      ensures HasId(b.sent + [m], id)
    {
      var n :| n in b.sent && n.id == id;
      assert n in b.sent + [m];
    }
    hide HasId;
  }

  /** Among mails with unique IDs, two with the same ID are one mail, and it is there once. */
  lemma SameIdSameMail(mails: seq<Mail>, m: Mail, n: Mail)
    requires UniqueIds(mails) && m in mails && n in mails && m.id == n.id
    ensures m == n && multiset(mails)[m] == 1
  {
    var k :| 0 <= k < |mails| && mails[k] == m;
    RemoveAt(mails, k);
    var others := mails[..k] + mails[k + 1..];
    forall i | 0 <= i < |others|
      ensures others[i].id != m.id
    {
      assert others[i] == if i < k then mails[i] else mails[i + 1];
    }
    assert m !in others;
  }

  /** What balanced books mean for one mail. */
  lemma InExactlyOnePlace(b: Books, limit: nat, m: Mail)
    requires Balanced(b, limit) && m in b.sent
    ensures b.waiting[m] + b.delivered[m] + b.dead[m] + b.lost[m] == 1
    ensures m in b.waiting ==> CountIn(b.tried, m.id) < limit
    ensures m in b.delivered ==> 1 <= CountIn(b.tried, m.id) <= limit
    ensures m in b.dead ==> CountIn(b.tried, m.id) == limit
  {
    SameIdSameMail(b.sent, m, m);
    assert multiset(b.sent)[m] == b.waiting[m] + b.delivered[m] + b.dead[m] + b.lost[m];
  }

  /** Apart from m itself, no mail in any place has the ID of a waiting mail m. */
  lemma OthersHaveOtherIds(b: Books, limit: nat, m: Mail)
    requires Balanced(b, limit) && m in b.waiting
    ensures HasId(b.sent, m.id)
    ensures forall n :: n in b.waiting - multiset{m} || n in b.delivered || n in b.dead || n in b.lost ==> n.id != m.id
  {
    InMultiset(b.sent, m);
    var others := (b.waiting - multiset{m}) + b.delivered + b.dead + b.lost;
    assert multiset(b.sent) == others + multiset{m};
    forall n | n in others
      ensures n.id != m.id
    {
      InMultiset(b.sent, n);
      if n.id == m.id {
        SameIdSameMail(b.sent, m, n);
      }
    }
    assert forall n :: n in b.waiting - multiset{m} || n in b.delivered || n in b.dead || n in b.lost ==> n in others;
  }

  lemma CountAfterOneMore(counts: map<string, nat>, id: string, other: string)
    ensures CountIn(OneMore(counts, id), other) == CountIn(counts, other) + (if other == id then 1 else 0)
    ensures CountIn(counts - {id}, other) == if other == id then 0 else CountIn(counts, other)
  {
  }

  /** Moving a waiting mail to another place keeps the total. */
  lemma MoveKeepsTotal(waiting: multiset<Mail>, x: multiset<Mail>, y: multiset<Mail>, z: multiset<Mail>, m: Mail)
    requires m in waiting
    ensures waiting - multiset{m} + (x + multiset{m}) + y + z == waiting + x + y + z
    ensures waiting - multiset{m} + x + (y + multiset{m}) + z == waiting + x + y + z
    ensures waiting - multiset{m} + x + y + (z + multiset{m}) == waiting + x + y + z
  {
    var w := waiting - multiset{m};
    assert waiting == w + multiset{m};
  }

  /** b' is b after one more attempt for the waiting mail m, which stays or goes to one of the other places. */
  predicate Attempted(b: Books, limit: nat, m: Mail, b': Books) {
    && b'.sent == b.sent && b'.tried == OneMore(b.tried, m.id)
    && (if b'.waiting == b.waiting then CountIn(b.counts, m.id) + 1 < limit && b'.counts == OneMore(b.counts, m.id)
        else b'.waiting == b.waiting - multiset{m} && b'.counts in {b.counts - {m.id}, OneMore(b.counts, m.id)})
    && b'.delivered in {b.delivered, b.delivered + multiset{m}}
    && (b'.dead == b.dead || (b'.dead == b.dead + multiset{m} && CountIn(b.counts, m.id) + 1 == limit))
  }

  lemma WaitingStillFits(b: Books, limit: nat, m: Mail, b': Books, n: Mail)
    requires Balanced(b, limit) && m in b.waiting && Attempted(b, limit, m, b') && n in b'.waiting
    ensures CountIn(b'.counts, n.id) == CountIn(b'.tried, n.id) < limit
  {
    hide EachInOnePlace, CountsAreOfSent, CountIn, OneMore, HasId;
    OthersHaveOtherIds(b, limit, m);
    CountAfterOneMore(b.tried, m.id, n.id);
    CountAfterOneMore(b.counts, m.id, n.id);
    assert n in b.waiting;
    if n != m {
      assert n in b.waiting - multiset{m};
    }
  }

  lemma DeliveredStillFits(b: Books, limit: nat, m: Mail, b': Books, n: Mail)
    requires Balanced(b, limit) && m in b.waiting && Attempted(b, limit, m, b') && n in b'.delivered
    ensures 1 <= CountIn(b'.tried, n.id) <= limit
  {
    hide EachInOnePlace, CountsAreOfSent, CountIn, OneMore, HasId;
    OthersHaveOtherIds(b, limit, m);
    CountAfterOneMore(b.tried, m.id, n.id);
    assert n == m || n in b.delivered;
  }

  lemma DeadStillFits(b: Books, limit: nat, m: Mail, b': Books, n: Mail)
    requires Balanced(b, limit) && m in b.waiting && Attempted(b, limit, m, b') && n in b'.dead
    ensures CountIn(b'.tried, n.id) == limit
  {
    hide EachInOnePlace, CountsAreOfSent, CountIn, OneMore, HasId;
    OthersHaveOtherIds(b, limit, m);
    CountAfterOneMore(b.tried, m.id, n.id);
    assert n == m || n in b.dead;
  }

  /** After one more attempt for m, the counts fit; the other mails are not concerned. */
  lemma AttemptKeepsCounts(b: Books, limit: nat, m: Mail, b': Books)
    requires Balanced(b, limit) && m in b.waiting && Attempted(b, limit, m, b')
    ensures CountsFit(b', limit)
  {
    hide Balanced, Attempted, CountIn;
    forall n | n in b'.waiting
      ensures CountIn(b'.counts, n.id) == CountIn(b'.tried, n.id) < limit
    {
      WaitingStillFits(b, limit, m, b', n);
    }
    forall n | n in b'.delivered
      ensures 1 <= CountIn(b'.tried, n.id) <= limit
    {
      DeliveredStillFits(b, limit, m, b', n);
    }
    forall n | n in b'.dead
      ensures CountIn(b'.tried, n.id) == limit
    {
      DeadStillFits(b, limit, m, b', n);
    }
  }

  lemma AttemptKeepsKeys(b: Books, m: Mail, b': Books)
    requires CountsAreOfSent(b) && HasId(b.sent, m.id) && b'.sent == b.sent
    requires b'.tried == OneMore(b.tried, m.id)
    requires b'.counts == b.counts - {m.id} || b'.counts == OneMore(b.counts, m.id)
    ensures CountsAreOfSent(b')
  {
    hide HasId;
  }

  /** An attempt that moves the mail to another place keeps the books balanced. */
  lemma AttemptBalances(b: Books, limit: nat, m: Mail, b': Books)
    requires Balanced(b, limit) && m in b.waiting && Attempted(b, limit, m, b')
    requires b'.waiting + b'.delivered + b'.dead + b'.lost == b.waiting + b.delivered + b.dead + b.lost
    ensures Balanced(b', limit)
  {
    hide EachInOnePlace, CountsFit, CountsAreOfSent, HasId, OneMore, CountIn, Attempted;
    AttemptKeepsCounts(b, limit, m, b');
    AttemptKeepsTrack(b, limit, m, b');
    PlacesStayRight(b, b');
    OthersHaveOtherIds(b, limit, m);
    AttemptKeepsKeys(b, m, b');
  }

  lemma AttemptKeepsTrack(b: Books, limit: nat, m: Mail, b': Books)
    requires Attempted(b, limit, m, b')
    ensures b'.sent == b.sent && b'.tried == OneMore(b.tried, m.id)
    ensures b'.counts == b.counts - {m.id} || b'.counts == OneMore(b.counts, m.id)
  {
    hide OneMore, CountIn;
  }

  lemma PlacesStayRight(b: Books, b': Books)
    requires EachInOnePlace(b) && b'.sent == b.sent
    requires b'.waiting + b'.delivered + b'.dead + b'.lost == b.waiting + b.delivered + b.dead + b.lost
    ensures EachInOnePlace(b')
  {
    hide UniqueIds;
  }

  lemma DeliveryBalances(b: Books, limit: nat, m: Mail)
    requires Balanced(b, limit) && m in b.waiting
    ensures Balanced(AfterDelivery(b, m), limit)
  {
    hide Balanced, OneMore, CountIn;
    MoveKeepsTotal(b.waiting, b.delivered, b.dead, b.lost, m);
    MovedAway(b.waiting, m);
    AttemptBalances(b, limit, m, AfterDelivery(b, m));
  }

  lemma QuarantineBalances(b: Books, limit: nat, m: Mail)
    requires Balanced(b, limit) && m in b.waiting && CountIn(b.counts, m.id) + 1 == limit
    ensures Balanced(AfterQuarantine(b, m), limit)
  {
    hide Balanced, OneMore, CountIn;
    MoveKeepsTotal(b.waiting, b.delivered, b.dead, b.lost, m);
    MovedAway(b.waiting, m);
    AttemptBalances(b, limit, m, AfterQuarantine(b, m));
  }

  lemma MovedAway(waiting: multiset<Mail>, m: Mail)
    requires m in waiting
    ensures waiting - multiset{m} != waiting
  {
    assert (waiting - multiset{m})[m] < waiting[m];
  }

  lemma RetryBalances(b: Books, limit: nat, m: Mail)
    requires Balanced(b, limit) && m in b.waiting && CountIn(b.counts, m.id) + 1 < limit
    ensures Balanced(AfterRetry(b, m), limit)
  {
    OthersHaveOtherIds(b, limit, m);
    AttemptKeepsCounts(b, limit, m, AfterRetry(b, m));
    AttemptKeepsKeys(b, m, AfterRetry(b, m));
  }

  lemma LossBalances(b: Books, limit: nat, m: Mail, counts: map<string, nat>)
    requires Balanced(b, limit) && m in b.waiting
    requires counts == OneMore(b.counts, m.id) || counts == b.counts - {m.id}
    ensures Balanced(AfterLoss(b, m, counts), limit)
  {
    hide Balanced, OneMore, CountIn;
    MoveKeepsTotal(b.waiting, b.delivered, b.dead, b.lost, m);
    MovedAway(b.waiting, m);
    AttemptBalances(b, limit, m, AfterLoss(b, m, counts));
  }

  // ----- The mailroom -----

  /** The waiting mails are those queued and those of the batch still to be dispatched. */
  predicate Splits(waiting: multiset<Mail>, outbound: seq<Mail>, batch: seq<Mail>) {
    waiting == multiset(outbound) + multiset(batch)
  }

  lemma SplitsEnqueued(waiting: multiset<Mail>, outbound: seq<Mail>, batch: seq<Mail>, m: Mail)
    requires Splits(waiting, outbound, batch)
    ensures Splits(waiting + multiset{m}, outbound + [m], batch)
  {
  }

  lemma SplitsPopped(waiting: multiset<Mail>, outbound: seq<Mail>, batch: seq<Mail>)
    requires Splits(waiting, outbound, batch) && batch != []
    ensures batch[0] in waiting
    ensures Splits(waiting - multiset{batch[0]}, outbound, batch[1..])
  {
    InMultiset(batch, batch[0]);
    assert batch == [batch[0]] + batch[1..];
    assert multiset(batch) == multiset{batch[0]} + multiset(batch[1..]);
    TakeFromSecond(multiset(outbound), multiset(batch[1..]), batch[0]);
  }

  lemma TakeFromSecond(a: multiset<Mail>, b: multiset<Mail>, m: Mail)
    ensures a + (multiset{m} + b) - multiset{m} == a + b
  {
  }

  lemma SplitsRequeued(waiting: multiset<Mail>, outbound: seq<Mail>, batch: seq<Mail>)
    requires Splits(waiting, outbound, batch) && batch != []
    ensures Splits(waiting, outbound + [batch[0]], batch[1..])
  {
    SplitsPopped(waiting, outbound, batch);
    SplitsEnqueued(waiting - multiset{batch[0]}, outbound, batch[1..], batch[0]);
    assert waiting == waiting - multiset{batch[0]} + multiset{batch[0]};
  }

  /** The dead letter office holds entries for exactly these mails, each after all its attempts. */
  predicate Buried(dead: multiset<Mail>, entries: seq<DeadLetter>, limit: nat)
    decreases |entries|
  {
    if entries == [] then dead == multiset{}
    else
      var e := entries[|entries| - 1];
      && e.mailID == e.mail.id && e.attempts == limit
      && e.mail in dead && Buried(dead - multiset{e.mail}, entries[..|entries| - 1], limit)
  }

  lemma BuriedOneMore(dead: multiset<Mail>, entries: seq<DeadLetter>, limit: nat, reason: string, m: Mail)
    requires Buried(dead, entries, limit)
    ensures Buried(dead + multiset{m}, entries + [DeadLetter(m.id, reason, limit, m)], limit)
  {
    var more := entries + [DeadLetter(m.id, reason, limit, m)];
    assert more[..|entries|] == entries;
    assert dead + multiset{m} - multiset{m} == dead;
  }

  /** The other waiting mails have other IDs than the next one. */
  lemma OthersInQueue(b: Books, limit: nat, outbound: seq<Mail>, batch: seq<Mail>)
    requires Balanced(b, limit) && batch != [] && Splits(b.waiting, outbound, batch)
    ensures batch[0] in b.waiting
    ensures forall n :: n in outbound + batch[1..] ==> n.id != batch[0].id
  {
    SplitsPopped(b.waiting, outbound, batch);
    OthersHaveOtherIds(b, limit, batch[0]);
    forall n | n in outbound + batch[1..]
      ensures n in b.waiting - multiset{batch[0]}
    {
      InMultiset(outbound, n);
      InMultiset(batch[1..], n);
    }
  }

  lemma NextMail(b: Books, limit: nat, outbound: seq<Mail>, batch: seq<Mail>)
    requires Balanced(b, limit) && batch != [] && Splits(b.waiting, outbound, batch)
    ensures batch[0] in b.waiting && batch[0].id != "" && !HasId(outbound, batch[0].id)
    ensures CountIn(b.counts, batch[0].id) + 1 <= limit
  {
    OthersInQueue(b, limit, outbound, batch);
    InMultiset(b.sent, batch[0]);
    assert forall n :: n in outbound ==> n in outbound + batch[1..];
  }

  /** Without the next mail, and whatever happens to its own counter, the work is less. */
  lemma WorkWithoutFirst(b: Books, limit: nat, outbound: seq<Mail>, batch: seq<Mail>, counts: map<string, nat>)
    requires Balanced(b, limit) && batch != [] && Splits(b.waiting, outbound, batch)
    requires counts == b.counts - {batch[0].id} || counts == OneMore(b.counts, batch[0].id)
    ensures Work(counts, limit, outbound + batch[1..]) + Left(b.counts, limit, batch[0])
         == Work(b.counts, limit, outbound + batch)
    ensures Left(b.counts, limit, batch[0]) >= 1
  {
    OthersInQueue(b, limit, outbound, batch);
    WorkIsLocal(counts, b.counts, limit, outbound + batch[1..]);
    WorkConcat(b.counts, limit, outbound, batch);
    WorkConcat(b.counts, limit, outbound, batch[1..]);
  }

  /** Queued again with its counter one higher, it is one attempt less. */
  lemma WorkRequeued(b: Books, limit: nat, outbound: seq<Mail>, batch: seq<Mail>)
    requires Balanced(b, limit) && batch != [] && Splits(b.waiting, outbound, batch)
    ensures Work(OneMore(b.counts, batch[0].id), limit, outbound + [batch[0]] + batch[1..])
          < Work(b.counts, limit, outbound + batch)
  {
    var m, counts := batch[0], OneMore(b.counts, batch[0].id);
    WorkWithoutFirst(b, limit, outbound, batch, counts);
    WorkConcat(counts, limit, outbound, batch[1..]);
    WorkConcat(counts, limit, outbound + [m], batch[1..]);
    WorkConcat(counts, limit, outbound, [m]);
    assert Work(counts, limit, [m]) == Left(counts, limit, m);
  }

  lemma OutboundWasSent(b: Books, limit: nat, outbound: seq<Mail>, batch: seq<Mail>, id: string)
    requires Balanced(b, limit) && Splits(b.waiting, outbound, batch) && !HasId(b.sent, id)
    ensures !HasId(outbound, id)
  {
    forall m | m in outbound
      ensures m in b.sent
    {
      InMultiset(outbound, m);
      InMultiset(b.sent, m);
    }
  }

  /** The accounting behind a mailroom: its books, its queue and batch, and the dead letter office fit together. */
  ghost predicate Consistent(b: Books, limit: nat, reliable: bool, counts: map<string, nat>, outbound: seq<Mail>,
                             batch: seq<Mail>, dead: seq<DeadLetter>)
  {
    && Balanced(b, limit) && b.counts == counts
    && Splits(b.waiting, outbound, batch)
    && Buried(b.dead, dead, limit)
    && (reliable ==> b.lost == multiset{})
  }

  lemma HandInStep(b: Books, limit: nat, reliable: bool, counts: map<string, nat>, outbound: seq<Mail>,
                   batch: seq<Mail>, dead: seq<DeadLetter>, m: Mail)
    requires Consistent(b, limit, reliable, counts, outbound, batch, dead) && limit >= 1
    requires m.id != "" && !HasId(b.sent, m.id)
    ensures !HasId(outbound, m.id)
    ensures Consistent(AfterHandIn(b, m), limit, reliable, counts, outbound + [m], batch, dead)
  {
    OutboundWasSent(b, limit, outbound, batch, m.id);
    HandInBalances(b, limit, m);
    SplitsEnqueued(b.waiting, outbound, batch, m);
  }

  lemma DeliveryStep(b: Books, limit: nat, reliable: bool, counts: map<string, nat>, outbound: seq<Mail>,
                     batch: seq<Mail>, dead: seq<DeadLetter>)
    requires Consistent(b, limit, reliable, counts, outbound, batch, dead) && batch != []
    ensures Consistent(AfterDelivery(b, batch[0]), limit, reliable, counts - {batch[0].id}, outbound, batch[1..], dead)
    ensures Work(counts - {batch[0].id}, limit, outbound + batch[1..]) < Work(counts, limit, outbound + batch)
  {
    NextMail(b, limit, outbound, batch);
    DeliveryBalances(b, limit, batch[0]);
    WorkWithoutFirst(b, limit, outbound, batch, counts - {batch[0].id});
    SplitsPopped(b.waiting, outbound, batch);
  }

  lemma QuarantineStep(b: Books, limit: nat, reliable: bool, counts: map<string, nat>, outbound: seq<Mail>,
                       batch: seq<Mail>, dead: seq<DeadLetter>, reason: string)
    requires Consistent(b, limit, reliable, counts, outbound, batch, dead) && batch != []
    requires CountIn(counts, batch[0].id) + 1 == limit
    ensures var m, counts' := batch[0], counts - {batch[0].id};
            && Consistent(AfterQuarantine(b, m), limit, reliable, counts', outbound, batch[1..],
                          dead + [DeadLetter(m.id, reason, limit, m)])
            && (!reliable ==>
                 Consistent(AfterLoss(b, m, counts'), limit, reliable, counts', outbound, batch[1..], dead))
            && Work(counts', limit, outbound + batch[1..]) < Work(counts, limit, outbound + batch)
  {
    var m, counts' := batch[0], counts - {batch[0].id};
    NextMail(b, limit, outbound, batch);
    QuarantineBalances(b, limit, m);
    LossBalances(b, limit, m, counts');
    WorkWithoutFirst(b, limit, outbound, batch, counts');
    SplitsPopped(b.waiting, outbound, batch);
    BuriedOneMore(b.dead, dead, limit, reason, m);
  }

  lemma RetryStep(b: Books, limit: nat, reliable: bool, counts: map<string, nat>, outbound: seq<Mail>,
                  batch: seq<Mail>, dead: seq<DeadLetter>)
    requires Consistent(b, limit, reliable, counts, outbound, batch, dead) && batch != []
    requires CountIn(counts, batch[0].id) + 1 < limit
    ensures var m, counts' := batch[0], OneMore(counts, batch[0].id);
            && Consistent(AfterRetry(b, m), limit, reliable, counts', outbound + [m], batch[1..], dead)
            && (!reliable ==>
                 Consistent(AfterLoss(b, m, counts'), limit, reliable, counts', outbound, batch[1..], dead))
            && Work(counts', limit, outbound + [m] + batch[1..]) < Work(counts, limit, outbound + batch)
            && Work(counts', limit, outbound + batch[1..]) < Work(counts, limit, outbound + batch)
            && m.id != "" && !HasId(outbound, m.id)
  {
    var m, counts' := batch[0], OneMore(counts, batch[0].id);
    NextMail(b, limit, outbound, batch);
    RetryBalances(b, limit, m);
    LossBalances(b, limit, m, counts');
    WorkWithoutFirst(b, limit, outbound, batch, counts');
    WorkRequeued(b, limit, outbound, batch);
    SplitsPopped(b.waiting, outbound, batch);
    SplitsRequeued(b.waiting, outbound, batch);
  }

  lemma CountBelowLimit(b: Books, limit: nat, reliable: bool, counts: map<string, nat>, outbound: seq<Mail>,
                        batch: seq<Mail>, dead: seq<DeadLetter>)
    requires Consistent(b, limit, reliable, counts, outbound, batch, dead) && batch != []
    ensures CountIn(counts, batch[0].id) + 1 <= limit
  {
    NextMail(b, limit, outbound, batch);
  }

  class Mailroom {
    const postbox: Postbox
    const batchSize: int
    const maxRetries: int
    /** Whether an adapter is found, and accepts the mail, at the attempt of this number (from 0). */
    const succeeds: Outcomes
    /** Failed attempts per mail ID. */
    var retryCount: map<string, nat>

    /** The dequeued mails still to be dispatched. */
    ghost var batch: seq<Mail>
    ghost var books: Books

    constructor (postbox: Postbox, batchSize: int, maxRetries: int, succeeds: Outcomes)
      requires postbox.outbound == [] && postbox.deadLetters == []
      ensures Valid() && this.postbox == postbox && batch == [] && books.sent == [] && this.succeeds == succeeds
      ensures this.batchSize == (if batchSize == 0 then 50 else batchSize)
      ensures this.maxRetries == (if maxRetries == 0 then 3 else maxRetries)
    {
      this.postbox, this.succeeds := postbox, succeeds;
      this.batchSize := if batchSize == 0 then 50 else batchSize;
      this.maxRetries := if maxRetries == 0 then 3 else maxRetries;
      retryCount, batch := map[], [];
      books := Books([], multiset{}, multiset{}, multiset{}, multiset{}, map[], map[]);
    }

    /** The attempts a mail gets; a negative maxRetries allows one. */
    function Limit(): (n: nat)
      ensures n >= 1
    {
      if maxRetries < 1 then 1 else maxRetries
    }

    ghost predicate Valid()
      reads this, postbox
    {
      && Consistent(books, Limit(), postbox.reliable, retryCount, postbox.outbound, batch, postbox.deadLetters)
      && OutcomesFit(books, Limit(), succeeds)
    }

    /** The attempts that remain before all waiting mail has been delivered or dead-lettered. */
    ghost function WorkLeft(): nat
      reads this, postbox
    {
      Work(retryCount, Limit(), postbox.outbound + batch)
    }

    /** A client hands in a mail with an ID not used before, also while a batch is being dispatched. */
    method Send(mail: Mail) returns (accepted: bool)
      requires Valid() && mail.id != "" && !HasId(books.sent, mail.id)
      modifies this, postbox
      ensures Valid() && batch == old(batch)
      ensures postbox.reliable ==> accepted
      ensures books == if accepted then AfterHandIn(old(books), mail) else old(books)
    {
      hide Consistent, AfterHandIn, HasId, OutcomesFit;
      HandInKeepsOutcomes(books, Limit(), postbox.reliable, retryCount, postbox.outbound, batch,
        postbox.deadLetters, mail, succeeds);
      HandInStep(books, Limit(), postbox.reliable, retryCount, postbox.outbound, batch, postbox.deadLetters, mail);
      var queued := postbox.SendOutbound(mail);
      if queued.None? {
        return false;
      }
      books := AfterHandIn(books, mail);
      return true;
    }

    /** One attempt for the next mail of the batch. */
    method DeliverOutbound(mail: Mail)
      requires Valid() && batch != [] && batch[0] == mail
      modifies this, postbox
      ensures Valid() && batch == old(batch)[1..]
      ensures Attempt(old(books), books, mail, Limit(), postbox.reliable,
                      succeeds(mail, CountIn(old(retryCount), mail.id)))
      ensures WorkLeft() < old(WorkLeft())
    {
      hide Consistent, AfterDelivery, Work, CountIn, OutcomesFit;
      if !succeeds(mail, CountIn(retryCount, mail.id)) {
        HandleDeliveryFailure(mail, "delivery failed");
        return;
      }
      KeepsOutcomes(AfterDelivery(books, mail), mail, true);
      DeliveryStep(books, Limit(), postbox.reliable, retryCount, postbox.outbound, batch, postbox.deadLetters);
      books := AfterDelivery(books, mail);
      retryCount := retryCount - {mail.id};
      batch := batch[1..];
    }

    /** Whatever an attempt leads to, its outcome is in the books. */
    lemma KeepsOutcomes(b': Books, mail: Mail, ok: bool)
      requires Valid() && batch != [] && batch[0] == mail
      requires Attempt(books, b', mail, Limit(), postbox.reliable, ok)
      requires ok == succeeds(mail, CountIn(retryCount, mail.id))
      ensures OutcomesFit(b', Limit(), succeeds)
    {
      NextMail(books, Limit(), postbox.outbound, batch);
      hide Splits, Buried, CountIn, Attempt, OutcomesFit, Balanced;
      TriedAsCounted(books, Limit(), mail);
      AttemptKeepsOutcomes(books, Limit(), mail, b', postbox.reliable, succeeds);
    }

    method HandleDeliveryFailure(mail: Mail, reason: string)
      requires Valid() && batch != [] && batch[0] == mail && !succeeds(mail, CountIn(retryCount, mail.id))
      modifies this, postbox
      ensures Valid() && batch == old(batch)[1..]
      ensures Attempt(old(books), books, mail, Limit(), postbox.reliable, false)
      ensures WorkLeft() < old(WorkLeft())
    {
      hide Consistent, Work, CountIn, OutcomesFit;
      CountBelowLimit(books, Limit(), postbox.reliable, retryCount, postbox.outbound, batch, postbox.deadLetters);
      CountsAreRetries();
      var attempts := CountIn(retryCount, mail.id) + 1;
      if attempts >= maxRetries {
        DeadLetterMail(mail, reason, attempts);
      } else {
        Requeue(mail);
      }
    }

    lemma CountsAreRetries()
      requires Valid()
      ensures books.counts == retryCount
    {
    }

    /** The last attempt failed: the mail goes to the dead letter office. */
    method DeadLetterMail(mail: Mail, reason: string, attempts: nat)
      requires Valid() && batch != [] && batch[0] == mail
      requires attempts == CountIn(retryCount, mail.id) + 1 == Limit()
      requires !succeeds(mail, CountIn(retryCount, mail.id))
      modifies this, postbox
      ensures Valid() && batch == old(batch)[1..]
      ensures books == AfterQuarantine(old(books), mail)
           || (!postbox.reliable && books == AfterLoss(old(books), mail, retryCount))
      ensures WorkLeft() < old(WorkLeft())
    {
      hide Consistent, AfterQuarantine, AfterLoss, Work, CountIn, OutcomesFit;
      CountsAreRetries();
      KeepsOutcomes(AfterQuarantine(books, mail), mail, false);
      if !postbox.reliable {
        LossIsAttempt(books, mail, retryCount - {mail.id}, Limit());
        KeepsOutcomes(AfterLoss(books, mail, retryCount - {mail.id}), mail, false);
      }
      QuarantineStep(books, Limit(), postbox.reliable, retryCount, postbox.outbound,
        batch, postbox.deadLetters, reason);
      var ok := postbox.Quarantine(DeadLetter(mail.id, reason, attempts, mail));
      retryCount := retryCount - {mail.id};
      books := if ok then AfterQuarantine(books, mail) else AfterLoss(books, mail, retryCount);
      batch := batch[1..];
    }

    /** A failure that leaves attempts: the mail is queued again. */
    method Requeue(mail: Mail)
      requires Valid() && batch != [] && batch[0] == mail
      requires CountIn(retryCount, mail.id) + 1 < Limit()
      requires !succeeds(mail, CountIn(retryCount, mail.id))
      modifies this, postbox
      ensures Valid() && batch == old(batch)[1..]
      ensures books == AfterRetry(old(books), mail)
           || (!postbox.reliable && books == AfterLoss(old(books), mail, retryCount))
      ensures WorkLeft() < old(WorkLeft())
    {
      hide Consistent, AfterRetry, AfterLoss, Work, CountIn, OneMore, HasId, OutcomesFit;
      CountsAreRetries();
      KeepsOutcomes(AfterRetry(books, mail), mail, false);
      if !postbox.reliable {
        LossIsAttempt(books, mail, OneMore(retryCount, mail.id), Limit());
        KeepsOutcomes(AfterLoss(books, mail, OneMore(retryCount, mail.id)), mail, false);
      }
      RetryStep(books, Limit(), postbox.reliable, retryCount, postbox.outbound, batch, postbox.deadLetters);
      retryCount := OneMore(retryCount, mail.id);
      batch := batch[1..];
      var queued := postbox.SendOutbound(mail);
      books := if queued.Some? then AfterRetry(books, mail) else AfterLoss(books, mail, retryCount);
    }

    /** Takes a batch from the queue; there may be none when the store fails. */
    method TakeBatch() returns (mails: seq<Mail>)
      requires Valid() && batch == []
      modifies this`batch, postbox
      ensures Valid() && batch == mails && books == old(books) && retryCount == old(retryCount)
      ensures WorkLeft() == old(WorkLeft())
      ensures multiset(old(postbox.outbound)) == multiset(mails) + multiset(postbox.outbound)
      ensures mails == [] || |mails| == Min(|old(postbox.outbound)|, if batchSize <= 0 then 100 else batchSize)
      ensures postbox.reliable && old(postbox.outbound) != [] ==> mails != []
    {
      hide Balanced, Splits, Buried, Work, HasId, CountsFit, OutcomesFit;
      WorkOfPermutation(retryCount, Limit(), postbox.outbound + [], postbox.outbound);
      var messages := postbox.DequeueOutbound(batchSize);
      if messages.None? {
        return [];
      }
      mails := messages.value;
      batch := mails;
      Dequeued(books.waiting, old(postbox.outbound), mails, postbox.outbound);
      WorkOfPermutation(retryCount, Limit(), old(postbox.outbound) + [], postbox.outbound + mails);
    }

    /** Takes a batch from the queue and gives each of its mails one attempt, and no other mail any. */
    method DispatchOutbound() returns (ghost mails: seq<Mail>)
      requires Valid() && batch == []
      modifies this, postbox
      ensures Valid() && batch == [] && books.sent == old(books.sent)
      ensures mails == [] || |mails| == Min(|old(postbox.outbound)|, if batchSize <= 0 then 100 else batchSize)
      ensures multiset(mails) <= multiset(old(postbox.outbound))
      ensures books.tried == TriedEach(old(books.tried), mails)
      ensures WorkLeft() <= old(WorkLeft())
      ensures postbox.reliable && old(postbox.outbound) != [] ==> mails != [] && WorkLeft() < old(WorkLeft())
    {
      hide Consistent, Work, Attempt, OutcomesFit;
      var taken := TakeBatch();
      mails := taken;
      for i := 0 to |taken|
        invariant Valid() && batch == taken[i..] && books.sent == old(books.sent)
        invariant books.tried == TriedEach(old(books.tried), taken[..i])
        invariant WorkLeft() <= old(WorkLeft())
        invariant i > 0 ==> WorkLeft() < old(WorkLeft())
      {
        ghost var before := books;
        ghost var ok := succeeds(taken[i], CountIn(retryCount, taken[i].id));
        DeliverOutbound(taken[i]);
        AttemptCounts(before, books, taken[i], Limit(), postbox.reliable, ok);
        assert taken[..i + 1][..i] == taken[..i];
      }
      assert taken[..|taken|] == taken;
    }

    /** Without new mail and with a reliable store, dispatching empties the queue: all mail is delivered or dead. */
    method DispatchUntilEmpty()
      requires Valid() && batch == [] && postbox.reliable
      modifies this, postbox
      ensures Valid() && batch == [] && postbox.outbound == []
      ensures books.sent == old(books.sent) && multiset(books.sent) == books.delivered + books.dead
      // Delivered is what succeeds within the limit, dead what does not.
      ensures forall m :: m in books.sent ==>
                && (m in books.delivered <==> exists n: nat :: n < Limit() && succeeds(m, n))
                && (m in books.dead <==> forall n: nat :: n < Limit() ==> !succeeds(m, n))
    {
      while postbox.outbound != []
        invariant Valid() && batch == [] && books.sent == old(books.sent)
        decreases WorkLeft()
      {
        ghost var mails := DispatchOutbound();
      }
      DrainedOutcomes(books, Limit(), retryCount, postbox.deadLetters, succeeds);
    }
  }

  /**
    One attempt for a mail: it is delivered, queued again while attempts are left,
    or dead-lettered after the last; only a store that fails can lose it.
    */
  ghost predicate Attempt(b: Books, b': Books, m: Mail, limit: nat, reliable: bool, ok: bool) {
    if ok then b' == AfterDelivery(b, m)
    else
      || (CountIn(b.counts, m.id) + 1 < limit && b' == AfterRetry(b, m))
      || (CountIn(b.counts, m.id) + 1 == limit && b' == AfterQuarantine(b, m))
      || (!reliable && b' == AfterLoss(b, m, b'.counts))
  }

  /** A failed attempt may lose the mail when the store fails, whatever becomes of the counts. */
  lemma LossIsAttempt(b: Books, m: Mail, counts: map<string, nat>, limit: nat)
    ensures Attempt(b, AfterLoss(b, m, counts), m, limit, false, false)
  {
  }

  /** Every attempt is counted. */
  lemma AttemptCounts(b: Books, b': Books, m: Mail, limit: nat, reliable: bool, ok: bool)
    requires Attempt(b, b', m, limit, reliable, ok)
    ensures b'.sent == b.sent && b'.tried == OneMore(b.tried, m.id)
  {
    hide OneMore, CountIn;
  }

  /** One more attempt for each of these mails. */
  function TriedEach(tried: map<string, nat>, mails: seq<Mail>): map<string, nat> {
    if mails == [] then tried else OneMore(TriedEach(tried, mails[..|mails| - 1]), mails[|mails| - 1].id)
  }

  // ----- Outcomes -----

  type Outcomes = (Mail, nat) -> bool

  /** The first n attempts fail. */
  predicate FailsFor(succeeds: Outcomes, m: Mail, n: nat) { forall k: nat :: k < n ==> !succeeds(m, k) }

  /** The n-th attempt is the first to succeed. */
  predicate FirstSuccess(succeeds: Outcomes, m: Mail, n: nat) {
    n > 0 && succeeds(m, n - 1) && FailsFor(succeeds, m, n - 1)
  }

  /** Each mail is where the outcomes of its attempts have brought it. */
  ghost predicate OutcomesFit(b: Books, limit: nat, succeeds: Outcomes) {
    && (forall m :: m in b.waiting ==> FailsFor(succeeds, m, CountIn(b.tried, m.id)))
    && (forall m :: m in b.delivered ==> FirstSuccess(succeeds, m, CountIn(b.tried, m.id)))
    && (forall m :: m in b.dead ==> FailsFor(succeeds, m, limit))
    && (forall m :: m in b.lost ==> FailsFor(succeeds, m, CountIn(b.tried, m.id)))
  }

  lemma TriedAsCounted(b: Books, limit: nat, m: Mail)
    requires Balanced(b, limit) && m in b.waiting
    ensures CountIn(b.counts, m.id) == CountIn(b.tried, m.id) < limit
  {
    hide EachInOnePlace, CountsAreOfSent, CountIn;
  }

  lemma HandInKeepsOutcomes(b: Books, limit: nat, reliable: bool, counts: map<string, nat>, outbound: seq<Mail>,
                            batch: seq<Mail>, dead: seq<DeadLetter>, m: Mail, succeeds: Outcomes)
    requires Consistent(b, limit, reliable, counts, outbound, batch, dead)
    requires OutcomesFit(b, limit, succeeds) && !HasId(b.sent, m.id)
    ensures OutcomesFit(AfterHandIn(b, m), limit, succeeds)
  {
    assert CountIn(b.tried, m.id) == 0;
    hide Consistent, HasId, CountIn;
  }

  /** A failure more. */
  lemma OneMoreFailure(succeeds: Outcomes, m: Mail, n: nat)
    requires FailsFor(succeeds, m, n) && !succeeds(m, n)
    ensures FailsFor(succeeds, m, n + 1)
  {
  }

  /** A success after failures. */
  lemma SucceedsFirst(succeeds: Outcomes, m: Mail, n: nat)
    ensures FailsFor(succeeds, m, n) && succeeds(m, n) ==> FirstSuccess(succeeds, m, n + 1)
  {
  }

  /** The attempt changes the count of its mail only. */
  lemma OthersKeepCount(b: Books, limit: nat, m: Mail, tried: map<string, nat>)
    requires Balanced(b, limit) && m in b.waiting && tried == OneMore(b.tried, m.id)
    ensures CountIn(tried, m.id) == CountIn(b.tried, m.id) + 1
    ensures forall n :: n in b.waiting - multiset{m} || n in b.delivered || n in b.dead || n in b.lost ==>
              CountIn(tried, n.id) == CountIn(b.tried, n.id)
  {
    hide Balanced, HasId;
    OthersHaveOtherIds(b, limit, m);
    forall n | n in b.waiting - multiset{m} || n in b.delivered || n in b.dead || n in b.lost
      ensures CountIn(tried, n.id) == CountIn(b.tried, n.id)
    {
      CountAfterOneMore(b.tried, m.id, n.id);
    }
  }

  lemma AttemptKeepsOutcomes(b: Books, limit: nat, m: Mail, b': Books, reliable: bool, succeeds: Outcomes)
    requires Balanced(b, limit) && m in b.waiting && OutcomesFit(b, limit, succeeds)
    requires Attempt(b, b', m, limit, reliable, succeeds(m, CountIn(b.tried, m.id)))
    ensures OutcomesFit(b', limit, succeeds)
  {
    var tried := CountIn(b.tried, m.id);
    TriedAsCounted(b, limit, m);
    AttemptCounts(b, b', m, limit, reliable, succeeds(m, tried));
    OthersKeepCount(b, limit, m, b'.tried);
    hide Balanced, OneMore, CountIn;
    if succeeds(m, tried) {
      DeliveryKeepsOutcomes(b, limit, m, b', succeeds);
    } else {
      OneMoreFailure(succeeds, m, tried);
      FailureKeepsOutcomes(b, limit, m, b', reliable, succeeds);
    }
  }

  lemma DeliveryKeepsOutcomes(b: Books, limit: nat, m: Mail, b': Books, succeeds: Outcomes)
    requires OutcomesFit(b, limit, succeeds) && m in b.waiting
    requires b'.waiting == b.waiting - multiset{m} && b'.delivered == b.delivered + multiset{m}
    requires b'.dead == b.dead && b'.lost == b.lost
    requires succeeds(m, CountIn(b.tried, m.id)) && CountIn(b'.tried, m.id) == CountIn(b.tried, m.id) + 1
    requires forall n :: n in b.waiting - multiset{m} || n in b.delivered || n in b.dead || n in b.lost ==>
               CountIn(b'.tried, n.id) == CountIn(b.tried, n.id)
    ensures OutcomesFit(b', limit, succeeds)
  {
    SucceedsFirst(succeeds, m, CountIn(b.tried, m.id));
    hide OneMore, CountIn, FailsFor, FirstSuccess;
    forall n | n in b'.waiting
      ensures FailsFor(succeeds, n, CountIn(b'.tried, n.id))
    {
      assert n in b.waiting - multiset{m} && n in b.waiting;
    }
    forall n | n in b'.delivered
      ensures FirstSuccess(succeeds, n, CountIn(b'.tried, n.id))
    {
      assert n == m || n in b.delivered;
    }
  }

  /** A failed attempt: the mail has failed once more, wherever it goes. */
  lemma FailureKeepsOutcomes(b: Books, limit: nat, m: Mail, b': Books, reliable: bool, succeeds: Outcomes)
    requires OutcomesFit(b, limit, succeeds) && m in b.waiting && Attempt(b, b', m, limit, reliable, false)
    requires CountIn(b.counts, m.id) == CountIn(b.tried, m.id)
    requires FailsFor(succeeds, m, CountIn(b.tried, m.id) + 1)
    requires CountIn(b'.tried, m.id) == CountIn(b.tried, m.id) + 1
    requires forall n :: n in b.waiting - multiset{m} || n in b.delivered || n in b.dead || n in b.lost ==>
               CountIn(b'.tried, n.id) == CountIn(b.tried, n.id)
    ensures OutcomesFit(b', limit, succeeds)
  {
    hide OneMore, CountIn, FailsFor, FirstSuccess, OutcomesFit;
    if CountIn(b.counts, m.id) + 1 < limit && b' == AfterRetry(b, m) {
      RetryKeepsOutcomes(b, limit, m, b', succeeds);
    } else if CountIn(b.counts, m.id) + 1 == limit && b' == AfterQuarantine(b, m) {
      QuarantineKeepsOutcomes(b, limit, m, b', succeeds);
    } else {
      LossKeepsOutcomes(b, limit, m, b', succeeds);
    }
  }

  lemma RetryKeepsOutcomes(b: Books, limit: nat, m: Mail, b': Books, succeeds: Outcomes)
    requires OutcomesFit(b, limit, succeeds)
    requires b'.waiting == b.waiting && b'.delivered == b.delivered && b'.dead == b.dead && b'.lost == b.lost
    requires FailsFor(succeeds, m, CountIn(b'.tried, m.id))
    requires forall n :: n in b.waiting - multiset{m} || n in b.delivered || n in b.dead || n in b.lost ==>
               CountIn(b'.tried, n.id) == CountIn(b.tried, n.id)
    ensures OutcomesFit(b', limit, succeeds)
  {
    hide CountIn, FailsFor, FirstSuccess;
    assert forall n :: n in b.waiting && n != m ==> n in b.waiting - multiset{m};
  }

  lemma QuarantineKeepsOutcomes(b: Books, limit: nat, m: Mail, b': Books, succeeds: Outcomes)
    requires OutcomesFit(b, limit, succeeds) && FailsFor(succeeds, m, limit)
    requires b'.waiting == b.waiting - multiset{m} && b'.dead == b.dead + multiset{m}
    requires b'.delivered == b.delivered && b'.lost == b.lost
    requires forall n :: n in b.waiting - multiset{m} || n in b.delivered || n in b.dead || n in b.lost ==>
               CountIn(b'.tried, n.id) == CountIn(b.tried, n.id)
    ensures OutcomesFit(b', limit, succeeds)
  {
    hide CountIn, FailsFor, FirstSuccess;
    assert forall n :: n in b'.waiting ==> n in b.waiting;
    assert forall n :: n in b'.dead ==> n == m || n in b.dead;
  }

  lemma LossKeepsOutcomes(b: Books, limit: nat, m: Mail, b': Books, succeeds: Outcomes)
    requires OutcomesFit(b, limit, succeeds) && FailsFor(succeeds, m, CountIn(b'.tried, m.id))
    requires b'.waiting == b.waiting - multiset{m} && b'.lost == b.lost + multiset{m}
    requires b'.delivered == b.delivered && b'.dead == b.dead
    requires forall n :: n in b.waiting - multiset{m} || n in b.delivered || n in b.dead || n in b.lost ==>
               CountIn(b'.tried, n.id) == CountIn(b.tried, n.id)
    ensures OutcomesFit(b', limit, succeeds)
  {
    hide CountIn, FailsFor, FirstSuccess;
    assert forall n :: n in b'.waiting ==> n in b.waiting;
    assert forall n :: n in b'.lost ==> n == m || n in b.lost;
  }

  /** When nothing waits any more, the outcomes decide. */
  lemma DrainedOutcomes(b: Books, limit: nat, counts: map<string, nat>, dead: seq<DeadLetter>, succeeds: Outcomes)
    requires Consistent(b, limit, true, counts, [], [], dead) && OutcomesFit(b, limit, succeeds)
    ensures multiset(b.sent) == b.delivered + b.dead
    ensures forall m :: m in b.sent ==>
              && (m in b.delivered <==> exists n: nat :: n < limit && succeeds(m, n))
              && (m in b.dead <==> forall n: nat :: n < limit ==> !succeeds(m, n))
  {
    forall m | m in b.sent
      ensures m in b.delivered <==> exists n: nat :: n < limit && succeeds(m, n)
      ensures m in b.dead <==> forall n: nat :: n < limit ==> !succeeds(m, n)
    {
      InExactlyOnePlace(b, limit, m);
      hide Balanced, Buried, CountIn;
      if m in b.delivered {
        assert succeeds(m, CountIn(b.tried, m.id) - 1);
      }
    }
  }

  lemma Dequeued(waiting: multiset<Mail>, before: seq<Mail>, taken: seq<Mail>, after: seq<Mail>)
    requires Splits(waiting, before, []) && multiset(before) == multiset(taken) + multiset(after)
    ensures Splits(waiting, after, taken)
    ensures multiset(before + []) == multiset(after + taken)
  {
    assert before + [] == before;
  }

  // ----- Whole runs -----

  /** One goroutine dispatches: it takes a batch, then attempts its mails one by one; clients send at any time. */
  datatype Request = SendRequest(mail: Mail) | BatchRequest | AttemptRequest

  /** Mails are sent under IDs of their own. */
  predicate OwnIds(requests: seq<Request>) {
    && (forall i :: 0 <= i < |requests| && requests[i].SendRequest? ==> requests[i].mail.id != "")
    && (forall i, j :: 0 <= i < j < |requests| && requests[i].SendRequest? && requests[j].SendRequest? ==>
         requests[i].mail.id != requests[j].mail.id)
  }

  function SentIn(requests: seq<Request>): seq<Mail> {
    if requests == [] then []
    else
      var n := |requests| - 1;
      SentIn(requests[..n]) + if requests[n].SendRequest? then [requests[n].mail] else []
  }

  lemma {:induction false} SentWasRequested(requests: seq<Request>, m: Mail)
    requires m in SentIn(requests)
    ensures exists i :: 0 <= i < |requests| && requests[i] == SendRequest(m)
  {
    var n := |requests| - 1;
    if m in SentIn(requests[..n]) {
      SentWasRequested(requests[..n], m);
      var i :| 0 <= i < n && requests[..n][i] == SendRequest(m);
      assert requests[i] == SendRequest(m);
    } else {
      assert requests[n] == SendRequest(m);
    }
  }

  lemma NewId(requests: seq<Request>, k: nat, sent: seq<Mail>)
    requires OwnIds(requests) && k < |requests| && requests[k].SendRequest?
    requires forall m :: m in sent ==> m in SentIn(requests[..k])
    ensures !HasId(sent, requests[k].mail.id)
  {
    forall m | m in sent
      ensures m.id != requests[k].mail.id
    {
      SentWasRequested(requests[..k], m);
      var i :| 0 <= i < k && requests[..k][i] == SendRequest(m);
      assert requests[i] == SendRequest(m);
    }
  }

  /**
    An empty mailroom, then any requests in any order.  With a reliable store all mail
    sent is accepted and none lost.  Each mail accepted is in exactly one place: waiting
    in the queue or the current batch after fewer attempts than the limit, all failed;
    delivered by the first attempt that succeeded, within the limit; dead-lettered after
    exactly so many attempts, all failed; or lost.
    */
  method RunMailroom(postbox: Postbox, batchSize: int, maxRetries: int, succeeds: Outcomes, requests: seq<Request>)
    returns (mailroom: Mailroom, rest: seq<Mail>)
    requires postbox.outbound == [] && postbox.deadLetters == [] && OwnIds(requests)
    modifies postbox
    ensures mailroom.postbox == postbox && mailroom.Valid() && mailroom.batch == rest
    ensures var b, limit := mailroom.books, mailroom.Limit();
            && (forall m :: m in b.sent ==> m in SentIn(requests))
            && (postbox.reliable ==> b.sent == SentIn(requests) && b.lost == multiset{})
            && b.waiting == multiset(postbox.outbound) + multiset(rest)
            && (forall m :: m in b.sent ==>
                 && b.waiting[m] + b.delivered[m] + b.dead[m] + b.lost[m] == 1
                 && (m in b.waiting ==>
                      CountIn(b.tried, m.id) < limit && FailsFor(succeeds, m, CountIn(b.tried, m.id)))
                 && (m in b.delivered ==>
                      CountIn(b.tried, m.id) <= limit && FirstSuccess(succeeds, m, CountIn(b.tried, m.id)))
                 && (m in b.dead ==> CountIn(b.tried, m.id) == limit && FailsFor(succeeds, m, limit)))
            && b.dead == multiset(MailsOf(postbox.deadLetters))
            && forall d :: d in postbox.deadLetters ==> d.attempts == limit && d.mailID == d.mail.id
  {
    mailroom := new Mailroom(postbox, batchSize, maxRetries, succeeds);
    rest := [];
    hide Consistent, OwnIds, SentIn, HasId, Attempt, CountIn, OutcomesFit, MailsOf, FailsFor, FirstSuccess, OneMore;
    for i := 0 to |requests|
      invariant fresh(mailroom) && mailroom.postbox == postbox && mailroom.Valid() && mailroom.batch == rest
      invariant mailroom.succeeds == succeeds
      invariant forall m :: m in mailroom.books.sent ==> m in SentIn(requests[..i])
      invariant postbox.reliable ==> mailroom.books.sent == SentIn(requests[..i])
    {
      SentGrows(requests, i);
      if requests[i].SendRequest? {
        NewId(requests, i, mailroom.books.sent);
        IdIsGiven(requests, i);
      }
      rest := Handle(mailroom, rest, requests[i]);
    }
    assert requests[..|requests|] == requests;
    RunIsBalanced(mailroom.books, mailroom.Limit(), postbox.reliable, mailroom.retryCount, postbox.outbound, rest,
      postbox.deadLetters);
    OutcomesSay(mailroom.books, mailroom.Limit(), succeeds);
  }

  /** One request; an attempt takes the next mail of the current batch. */
  method Handle(mailroom: Mailroom, batch: seq<Mail>, request: Request) returns (rest: seq<Mail>)
    requires mailroom.Valid() && mailroom.batch == batch
    requires request.SendRequest? ==> request.mail.id != "" && !HasId(mailroom.books.sent, request.mail.id)
    modifies mailroom, mailroom.postbox
    ensures mailroom.Valid() && mailroom.batch == rest
    ensures var sent, before := mailroom.books.sent, old(mailroom.books.sent);
            if request.SendRequest? && mailroom.postbox.reliable then sent == before + [request.mail]
            else sent == before || (request.SendRequest? && sent == before + [request.mail])
  {
    hide Consistent, HasId, Attempt, CountIn, OutcomesFit;
    rest := batch;
    match request {
      case SendRequest(mail) =>
        var accepted := mailroom.Send(mail);
      case BatchRequest =>
        if batch == [] {
          rest := mailroom.TakeBatch();
        }
      case AttemptRequest =>
        if batch != [] {
          ghost var before := mailroom.books;
          ghost var ok := mailroom.succeeds(batch[0], CountIn(mailroom.retryCount, batch[0].id));
          mailroom.DeliverOutbound(batch[0]);
          AttemptCounts(before, mailroom.books, batch[0], mailroom.Limit(), mailroom.postbox.reliable, ok);
          rest := batch[1..];
        }
    }
  }

  lemma OutcomesSay(b: Books, limit: nat, succeeds: Outcomes)
    requires OutcomesFit(b, limit, succeeds)
    ensures forall m :: m in b.waiting ==> FailsFor(succeeds, m, CountIn(b.tried, m.id))
    ensures forall m :: m in b.delivered ==> FirstSuccess(succeeds, m, CountIn(b.tried, m.id))
    ensures forall m :: m in b.dead ==> FailsFor(succeeds, m, limit)
  {
  }

  lemma SentGrows(requests: seq<Request>, i: nat)
    requires i < |requests|
    ensures SentIn(requests[..i + 1])
            == SentIn(requests[..i]) + if requests[i].SendRequest? then [requests[i].mail] else []
  {
    assert requests[..i + 1][..i] == requests[..i];
  }

  lemma IdIsGiven(requests: seq<Request>, i: nat)
    requires OwnIds(requests) && i < |requests| && requests[i].SendRequest?
    ensures requests[i].mail.id != ""
  {
  }

  function MailsOf(entries: seq<DeadLetter>): seq<Mail> {
    if entries == [] then [] else MailsOf(entries[..|entries| - 1]) + [entries[|entries| - 1].mail]
  }

  /** The dead letter office holds exactly the dead mail. */
  lemma {:induction false} BuriedMails(dead: multiset<Mail>, entries: seq<DeadLetter>, limit: nat)
    requires Buried(dead, entries, limit)
    ensures dead == multiset(MailsOf(entries))
    decreases |entries|
  {
    if entries != [] {
      var init, last := entries[..|entries| - 1], entries[|entries| - 1];
      assert last.mail in dead && Buried(dead - multiset{last.mail}, init, limit);
      assert MailsOf(entries) == MailsOf(init) + [last.mail];
      hide Buried, MailsOf;
      BuriedMails(dead - multiset{last.mail}, init, limit);
      assert dead == dead - multiset{last.mail} + multiset{last.mail};
    }
  }

  /** Each of its entries was made at the last attempt. */
  lemma {:induction false} BuriedAtLimit(dead: multiset<Mail>, entries: seq<DeadLetter>, limit: nat)
    requires Buried(dead, entries, limit)
    ensures forall k :: 0 <= k < |entries| ==> entries[k].attempts == limit && entries[k].mailID == entries[k].mail.id
    decreases |entries|
  {
    if entries != [] {
      var init, last := entries[..|entries| - 1], entries[|entries| - 1];
      BuriedAtLimit(dead - multiset{last.mail}, init, limit);
      hide Buried;
      forall k | 0 <= k < |entries|
        ensures entries[k].attempts == limit && entries[k].mailID == entries[k].mail.id
      {
        assert k < |init| ==> entries[k] == init[k];
      }
    }
  }

  lemma RunIsBalanced(b: Books, limit: nat, reliable: bool, counts: map<string, nat>, outbound: seq<Mail>,
                      batch: seq<Mail>,
                      dead: seq<DeadLetter>)
    requires Consistent(b, limit, reliable, counts, outbound, batch, dead)
    ensures reliable ==> b.lost == multiset{}
    ensures b.waiting == multiset(outbound) + multiset(batch)
    ensures b.dead == multiset(MailsOf(dead))
    ensures forall d :: d in dead ==> d.attempts == limit && d.mailID == d.mail.id
    ensures forall m :: m in b.sent ==>
              && b.waiting[m] + b.delivered[m] + b.dead[m] + b.lost[m] == 1
              && (m in b.waiting ==> CountIn(b.tried, m.id) < limit)
              && (m in b.delivered ==> 1 <= CountIn(b.tried, m.id) <= limit)
              && (m in b.dead ==> CountIn(b.tried, m.id) == limit)
  {
    hide Balanced, CountIn, Buried;
    BuriedMails(b.dead, dead, limit);
    BuriedAtLimit(b.dead, dead, limit);
    forall m | m in b.sent
      ensures b.waiting[m] + b.delivered[m] + b.dead[m] + b.lost[m] == 1
      ensures m in b.waiting ==> CountIn(b.tried, m.id) < limit
      ensures m in b.delivered ==> 1 <= CountIn(b.tried, m.id) <= limit
      ensures m in b.dead ==> CountIn(b.tried, m.id) == limit
    {
      InExactlyOnePlace(b, limit, m);
    }
  }
}
