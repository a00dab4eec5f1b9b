/**
  The per-IP token bucket of internal/auth/ratelimit.go.

  Time is in seconds and tokens are real numbers.  `Allow` and `Cleanup` are
  methods over the mutable bucket map; each is tied to a function on maps, and
  the properties of whole runs are stated about those functions.
  */
module RateLimit {
  import opened Collections

  const DEFAULT_RATE_LIMIT_RPM: int := 30

  datatype Bucket = Bucket(tokens: real, lastCheck: real)

  type Buckets = map<string, Bucket>

  /** Tokens gained in dt seconds. */
  function Gain(rpm: int, dt: real): real { dt * (rpm as real / 60.0) }

  function Refilled(rpm: int, b: Bucket, now: real): real {
    var tokens := b.tokens + Gain(rpm, now - b.lastCheck);
    if tokens > rpm as real then rpm as real else tokens
  }

  function AfterAllow(rpm: int, m: Buckets, ip: string, now: real): (Buckets, bool) {
    if ip !in m then (m[ip := Bucket(rpm as real - 1.0, now)], true)
    else
      var tokens := Refilled(rpm, m[ip], now);
      if tokens < 1.0 then (m[ip := Bucket(tokens, now)], false)
      else (m[ip := Bucket(tokens - 1.0, now)], true)
  }

  function AfterCleanup(m: Buckets, maxAge: real, now: real): Buckets {
    map ip | ip in m && !(m[ip].lastCheck < now - maxAge) :: m[ip]
  }

  class RateLimiter {
    var buckets: Buckets
    const rpm: int

    constructor (rpm: int)
      ensures buckets == map[]
      ensures this.rpm == (if rpm <= 0 then DEFAULT_RATE_LIMIT_RPM else rpm)
    {
      this.rpm := if rpm <= 0 then DEFAULT_RATE_LIMIT_RPM else rpm;
      buckets := map[];
    }

    method Allow(ip: string, now: real) returns (allowed: bool)
      modifies this
      ensures (buckets, allowed) == AfterAllow(rpm, old(buckets), ip, now)
    {
      if ip !in buckets {
        buckets := buckets[ip := Bucket(rpm as real - 1.0, now)];
        return true;
      }
      var elapsed := now - buckets[ip].lastCheck;
      var refillRate := rpm as real / 60.0;
      var tokens := buckets[ip].tokens + elapsed * refillRate;
      if tokens > rpm as real {
        tokens := rpm as real;
      }
      assert tokens == Refilled(rpm, old(buckets)[ip], now);
      buckets := buckets[ip := Bucket(tokens, now)];
      if tokens < 1.0 {
        return false;
      }
      buckets := buckets[ip := Bucket(tokens - 1.0, now)];
      assert buckets == old(buckets)[ip := Bucket(tokens - 1.0, now)];
      return true;
    }

    /** Visits the buckets in any order and deletes the stale ones. */
    method Cleanup(maxAge: real, now: real)
      modifies this
      ensures buckets == AfterCleanup(old(buckets), maxAge, now)
      ensures forall ip :: ip in buckets <==> ip in old(buckets) && now - old(buckets)[ip].lastCheck <= maxAge
      ensures forall ip :: ip in buckets ==> buckets[ip] == old(buckets)[ip]
    {
      var cutoff := now - maxAge;
      var todo := buckets.Keys;
      while todo != {}
        invariant todo <= buckets.Keys <= old(buckets).Keys
        invariant forall ip :: ip in buckets ==> buckets[ip] == old(buckets)[ip]
        invariant forall ip :: ip in old(buckets) && ip !in todo ==>
                    (ip in buckets <==> !(old(buckets)[ip].lastCheck < cutoff))
        decreases todo
      {
        ghost var some := Pick(todo);
        var ip :| ip in todo;
        if buckets[ip].lastCheck < cutoff {
          buckets := buckets - {ip};
        }
        todo := todo - {ip};
      }
    }
  }

  // ----- Whole runs -----

  datatype Call =
    | AllowCall(ip: string, at: real)
    | CleanupCall(maxAge: real, at: real)

  function After(rpm: int, m: Buckets, call: Call): Buckets {
    match call
    case AllowCall(ip, at) => AfterAllow(rpm, m, ip, at).0
    case CleanupCall(maxAge, at) => AfterCleanup(m, maxAge, at)
  }

  function Final(rpm: int, m: Buckets, calls: seq<Call>): Buckets
    decreases |calls|
  {
    if calls == [] then m else Final(rpm, After(rpm, m, calls[0]), calls[1..])
  }

  /** The answers of the Allow calls of a run, in order. */
  function Answers(rpm: int, m: Buckets, calls: seq<Call>): seq<bool>
    decreases |calls|
  {
    if calls == [] then []
    else
      var rest := Answers(rpm, After(rpm, m, calls[0]), calls[1..]);
      if calls[0].AllowCall? then [AfterAllow(rpm, m, calls[0].ip, calls[0].at).1] + rest else rest
  }

  /** How many Allow calls for ip are granted. */
  function Granted(rpm: int, m: Buckets, calls: seq<Call>, ip: string): nat
    decreases |calls|
  {
    if calls == [] then 0
    else
      Granted(rpm, After(rpm, m, calls[0]), calls[1..], ip)
      + (if calls[0].AllowCall? && calls[0].ip == ip && AfterAllow(rpm, m, ip, calls[0].at).1 then 1 else 0)
  }

  /** The clock never goes back, starting from `from`. */
  predicate Timed(from: real, calls: seq<Call>)
    decreases |calls|
  {
    calls != [] ==> from <= calls[0].at && Timed(calls[0].at, calls[1..])
  }

  predicate CleanupsKeep(age: real, calls: seq<Call>) {
    forall c :: c in calls && c.CleanupCall? ==> c.maxAge >= age
  }

  function WithoutCleanups(calls: seq<Call>): seq<Call> {
    if calls == [] then []
    else if calls[0].CleanupCall? then WithoutCleanups(calls[1..])
    else [calls[0]] + WithoutCleanups(calls[1..])
  }

  // ----- Tokens stay between 0 and rpm -----

  predicate Sound(rpm: int, m: Buckets, now: real) {
    forall ip :: ip in m ==> 0.0 <= m[ip].tokens <= rpm as real && m[ip].lastCheck <= now
  }

  lemma GainIsMonotone(rpm: int, dt: real, du: real)
    requires rpm > 0 && dt <= du
    ensures Gain(rpm, dt) <= Gain(rpm, du)
    ensures Gain(rpm, du) == Gain(rpm, dt) + Gain(rpm, du - dt)
    ensures Gain(rpm, 0.0) == 0.0
  {
  }

  lemma AfterIsSound(rpm: int, m: Buckets, call: Call, now: real)
    requires rpm > 0 && Sound(rpm, m, now) && now <= call.at
    ensures Sound(rpm, After(rpm, m, call), call.at)
  {
    if call.AllowCall? && call.ip in m {
      GainIsMonotone(rpm, 0.0, call.at - m[call.ip].lastCheck);
    }
  }

  /** In every timed run each bucket holds between 0 and rpm tokens. */
  lemma {:induction false} TokensInRange(rpm: int, m: Buckets, calls: seq<Call>, now: real)
    requires rpm > 0 && Sound(rpm, m, now) && Timed(now, calls)
    ensures forall ip :: ip in Final(rpm, m, calls) ==> 0.0 <= Final(rpm, m, calls)[ip].tokens <= rpm as real
    ensures Sound(rpm, Final(rpm, m, calls), if calls == [] then now else calls[|calls| - 1].at)
    decreases |calls|
  {
    if calls != [] {
      AfterIsSound(rpm, m, calls[0], now);
      TokensInRange(rpm, After(rpm, m, calls[0]), calls[1..], calls[0].at);
    }
  }

  // ----- Cleanup cannot be noticed -----

  /** `clean` is `full` without some buckets, each idle long enough to be full again. */
  predicate Related(clean: Buckets, full: Buckets, now: real) {
    && clean.Keys <= full.Keys
    && (forall ip :: ip in clean ==> clean[ip] == full[ip])
    && (forall ip :: ip in full && ip !in clean ==> full[ip].lastCheck + 60.0 <= now)
  }

  lemma IdleBucketIsFull(rpm: int, b: Bucket, now: real)
    requires rpm > 0 && 0.0 <= b.tokens && b.lastCheck + 60.0 <= now
    ensures Refilled(rpm, b, now) == rpm as real
  {
    GainIsMonotone(rpm, 60.0, now - b.lastCheck);
    assert Gain(rpm, 60.0) == rpm as real;
  }

  lemma AllowKeepsRelated(rpm: int, clean: Buckets, full: Buckets, ip: string, now: real, at: real)
    requires rpm > 0 && now <= at && Sound(rpm, full, now) && Related(clean, full, now)
    ensures AfterAllow(rpm, clean, ip, at).1 == AfterAllow(rpm, full, ip, at).1
    ensures Related(AfterAllow(rpm, clean, ip, at).0, AfterAllow(rpm, full, ip, at).0, at)
  {
    if ip in full && ip !in clean {
      IdleBucketIsFull(rpm, full[ip], at);
    }
  }

  lemma {:induction false} RelatedAnswers(rpm: int, clean: Buckets, full: Buckets, calls: seq<Call>, now: real)
    requires rpm > 0 && Sound(rpm, full, now) && Related(clean, full, now)
    requires Timed(now, calls) && CleanupsKeep(60.0, calls)
    ensures Answers(rpm, clean, calls) == Answers(rpm, full, WithoutCleanups(calls))
    decreases |calls|
  {
    if calls != [] {
      var call, rest := calls[0], calls[1..];
      var clean' := After(rpm, clean, call);
      if call.CleanupCall? {
        assert Related(clean', full, call.at);
        RelatedAnswers(rpm, clean', full, rest, call.at);
      } else {
        AllowKeepsRelated(rpm, clean, full, call.ip, now, call.at);
        AfterIsSound(rpm, full, call, now);
        RelatedAnswers(rpm, clean', After(rpm, full, call), rest, call.at);
        var without := WithoutCleanups(calls);
        assert without == [call] + WithoutCleanups(rest);
        assert without[1..] == WithoutCleanups(rest);
      }
    }
  }

  // ----- How many calls a window can grant -----

  /** What ip could spend at once at time now. */
  function Potential(rpm: int, m: Buckets, ip: string, now: real): real {
    if ip in m then Refilled(rpm, m[ip], now) else rpm as real
  }

  lemma PotentialGrowsSlowly(rpm: int, m: Buckets, ip: string, now: real, later: real)
    requires rpm > 0 && Sound(rpm, m, now) && now <= later
    ensures Potential(rpm, m, ip, later) <= Potential(rpm, m, ip, now) + Gain(rpm, later - now)
  {
    GainIsMonotone(rpm, 0.0, later - now);
    if ip in m {
      GainIsMonotone(rpm, now - m[ip].lastCheck, later - m[ip].lastCheck);
    }
  }

  /** One call pays for the grant it gives to ip out of ip's potential, and touches no other. */
  lemma CallPaysForGrant(rpm: int, m: Buckets, call: Call, ip: string, now: real)
    requires rpm > 0 && Sound(rpm, m, now) && now <= call.at
    requires call.CleanupCall? ==> call.maxAge >= 60.0
    ensures var grant := if call.AllowCall? && call.ip == ip && AfterAllow(rpm, m, ip, call.at).1 then 1.0 else 0.0;
            && Potential(rpm, After(rpm, m, call), ip, call.at) == Potential(rpm, m, ip, call.at) - grant
            && Potential(rpm, After(rpm, m, call), ip, call.at) >= 0.0
  {
    var m' := After(rpm, m, call);
    AfterIsSound(rpm, m, call, now);
    if ip in m {
      GainIsMonotone(rpm, 0.0, call.at - m[ip].lastCheck);
    }
    if ip in m' {
      GainIsMonotone(rpm, 0.0, call.at - m'[ip].lastCheck);
    }
    if call.CleanupCall? && ip in m && ip !in m' {
      IdleBucketIsFull(rpm, m[ip], call.at);
    }
  }

  lemma {:induction false} GrantedIsPaidFor(rpm: int, m: Buckets, calls: seq<Call>, ip: string, now: real, end: real)
    requires rpm > 0 && Sound(rpm, m, now) && now <= end
    requires Timed(now, calls) && CleanupsKeep(60.0, calls)
    requires forall c :: c in calls ==> c.at <= end
    ensures Granted(rpm, m, calls, ip) as real <= Potential(rpm, m, ip, now) + Gain(rpm, end - now)
    decreases |calls|
  {
    GainIsMonotone(rpm, 0.0, end - now);
    if calls == [] {
      if ip in m {
        GainIsMonotone(rpm, 0.0, now - m[ip].lastCheck);
      }
    } else {
      var call := calls[0];
      PotentialGrowsSlowly(rpm, m, ip, now, call.at);
      CallPaysForGrant(rpm, m, call, ip, now);
      AfterIsSound(rpm, m, call, now);
      GrantedIsPaidFor(rpm, After(rpm, m, call), calls[1..], ip, call.at, end);
      GainIsMonotone(rpm, call.at - now, end - now);
    }
  }

  /**
    The rate limit: whatever came before, a window of T seconds grants one IP at
    most rpm + rpm * T / 60 calls, cleanups of buckets idle for a minute or more included.
    */
  lemma WindowBound(rpm: int, before: seq<Call>, window: seq<Call>, ip: string, start: real, T: real)
    requires rpm > 0 && T >= 0.0
    requires Timed(0.0, before) && (before != [] ==> before[|before| - 1].at <= start) && 0.0 <= start
    requires Timed(start, window) && forall c :: c in window ==> c.at <= start + T
    requires CleanupsKeep(60.0, window)
    ensures Granted(rpm, Final(rpm, map[], before), window, ip) as real <= rpm as real + rpm as real * T / 60.0
  {
    var m := Final(rpm, map[], before);
    TokensInRange(rpm, map[], before, 0.0);
    assert Sound(rpm, m, start);
    GrantedIsPaidFor(rpm, m, window, ip, start, start + T);
    assert Gain(rpm, T) == rpm as real * T / 60.0;
  }

  // ----- Exactly which calls are refused -----

  /** Between calls an IP's potential grows at the full rate, up to rpm. */
  lemma PotentialGrows(rpm: int, m: Buckets, ip: string, now: real, later: real)
    requires rpm > 0 && Sound(rpm, m, now) && now <= later
    ensures var grown := Potential(rpm, m, ip, now) + Gain(rpm, later - now);
            Potential(rpm, m, ip, later) == if grown > rpm as real then rpm as real else grown
  {
    GainIsMonotone(rpm, 0.0, later - now);
    if ip in m {
      GainIsMonotone(rpm, now - m[ip].lastCheck, later - m[ip].lastCheck);
    }
  }

  lemma RefusedWhenPoor(rpm: int, m: Buckets, ip: string, now: real)
    requires rpm > 0
    ensures AfterAllow(rpm, m, ip, now).1 <==> Potential(rpm, m, ip, now) >= 1.0
  {
    assert rpm as real >= 1.0;
  }

  /** What was granted in a run and what is left at its end come out of the potential at its start. */
  lemma {:induction false} PotentialIsSpent(rpm: int, m: Buckets, calls: seq<Call>, ip: string, now: real, end: real)
    requires rpm > 0 && Sound(rpm, m, now) && now <= end
    requires Timed(now, calls) && CleanupsKeep(60.0, calls) && forall c :: c in calls ==> c.at <= end
    ensures Potential(rpm, Final(rpm, m, calls), ip, end)
            <= Potential(rpm, m, ip, now) + Gain(rpm, end - now) - Granted(rpm, m, calls, ip) as real
    decreases |calls|
  {
    if calls == [] {
      PotentialGrows(rpm, m, ip, now, end);
    } else {
      var call := calls[0];
      hide Potential, AfterAllow, AfterCleanup, Sound, Gain;
      PotentialGrows(rpm, m, ip, now, call.at);
      CallPaysForGrant(rpm, m, call, ip, now);
      AfterIsSound(rpm, m, call, now);
      PotentialIsSpent(rpm, After(rpm, m, call), calls[1..], ip, call.at, end);
      GainIsMonotone(rpm, call.at - now, end - now);
    }
  }

  /** What a full bucket at the j-th call would have left at the end. */
  function LeftFrom(rpm: int, m: Buckets, calls: seq<Call>, ip: string, j: nat, end: real): real
    requires j < |calls|
  {
    rpm as real + Gain(rpm, end - calls[j].at) - Granted(rpm, Final(rpm, m, calls[..j]), calls[j..], ip) as real
  }

  /** None of the bounds is loose: what is left was full at the start, or at some call, or is full now. */
  lemma {:induction false} PotentialIsAttained(rpm: int, m: Buckets, calls: seq<Call>, ip: string, now: real, end: real)
    requires rpm > 0 && Sound(rpm, m, now) && now <= end
    requires Timed(now, calls) && CleanupsKeep(60.0, calls) && forall c :: c in calls ==> c.at <= end
    ensures var left := Potential(rpm, Final(rpm, m, calls), ip, end);
            || left == rpm as real
            || left == Potential(rpm, m, ip, now) + Gain(rpm, end - now) - Granted(rpm, m, calls, ip) as real
            || exists j :: 0 <= j < |calls| && left == LeftFrom(rpm, m, calls, ip, j, end)
    decreases |calls|
  {
    if calls == [] {
      PotentialGrows(rpm, m, ip, now, end);
    } else {
      var call, rest := calls[0], calls[1..];
      var m1 := After(rpm, m, call);
      hide Potential, AfterAllow, AfterCleanup, Sound, Gain;
      PotentialGrows(rpm, m, ip, now, call.at);
      CallPaysForGrant(rpm, m, call, ip, now);
      AfterIsSound(rpm, m, call, now);
      GainIsMonotone(rpm, call.at - now, end - now);
      PotentialIsAttained(rpm, m1, rest, ip, call.at, end);
      var left := Potential(rpm, Final(rpm, m, calls), ip, end);
      assert calls[..0] == [] && calls[0..] == calls;
      if exists j :: 0 <= j < |rest| && left == LeftFrom(rpm, m1, rest, ip, j, end) {
        var j :| 0 <= j < |rest| && left == LeftFrom(rpm, m1, rest, ip, j, end);
        LeftFromLater(rpm, m, calls, ip, j, end);
      } else if left != rpm as real && Potential(rpm, m, ip, call.at) == rpm as real {
        assert left == LeftFrom(rpm, m, calls, ip, 0, end);
      }
    }
  }

  lemma LeftFromLater(rpm: int, m: Buckets, calls: seq<Call>, ip: string, j: nat, end: real)
    requires j + 1 < |calls|
    ensures LeftFrom(rpm, m, calls, ip, j + 1, end) == LeftFrom(rpm, After(rpm, m, calls[0]), calls[1..], ip, j, end)
  {
    assert calls[..j + 1][1..] == calls[1..][..j];
    assert calls[j + 1..] == calls[1..][j..];
  }

  lemma {:induction false} FinalSplits(rpm: int, m: Buckets, calls: seq<Call>, j: nat)
    requires j <= |calls|
    ensures Final(rpm, m, calls) == Final(rpm, Final(rpm, m, calls[..j]), calls[j..])
    decreases j
  {
    if j > 0 {
      FinalSplits(rpm, After(rpm, m, calls[0]), calls[1..], j - 1);
      assert calls[..j][1..] == calls[1..][..j - 1] && calls[j..] == calls[1..][j - 1..];
    } else {
      assert calls[..0] == [] && calls[0..] == calls;
    }
  }

  lemma {:induction false} TimedSplits(from: real, calls: seq<Call>, j: nat)
    requires Timed(from, calls) && j < |calls|
    ensures Timed(from, calls[..j]) && Timed(calls[j].at, calls[j..]) && from <= calls[j].at
    ensures j > 0 ==> calls[j - 1].at <= calls[j].at
    decreases j
  {
    if j > 0 {
      TimedSplits(calls[0].at, calls[1..], j - 1);
      assert calls[..j][1..] == calls[1..][..j - 1] && calls[j..] == calls[1..][j - 1..];
    } else {
      assert calls[0..] == calls;
    }
  }

  /** At every call there can be no more than a full bucket. */
  lemma LeftIsBound(rpm: int, calls: seq<Call>, ip: string, j: nat, end: real)
    requires rpm > 0 && j < |calls|
    requires Timed(0.0, calls) && CleanupsKeep(60.0, calls) && forall c :: c in calls ==> c.at <= end
    ensures Potential(rpm, Final(rpm, map[], calls), ip, end) <= LeftFrom(rpm, map[], calls, ip, j, end)
  {
    var m, at := Final(rpm, map[], calls[..j]), calls[j].at;
    TimedSplits(0.0, calls, j);
    TokensInRange(rpm, map[], calls[..j], 0.0);
    assert Sound(rpm, m, at);
    FinalSplits(rpm, map[], calls, j);
    assert calls[j] in calls;
    PotentialIsSpent(rpm, m, calls[j..], ip, at, end);
    assert Potential(rpm, m, ip, at) <= rpm as real;
  }

  /**
    The converse of the rate limit: a call is refused exactly when, counted from some
    earlier call, granting it would give the IP more than rpm + rpm * T / 60 calls.
    */
  lemma RefusedIff(rpm: int, before: seq<Call>, ip: string, now: real)
    requires rpm > 0 && now >= 0.0
    requires Timed(0.0, before) && CleanupsKeep(60.0, before) && forall c :: c in before ==> c.at <= now
    ensures !AfterAllow(rpm, Final(rpm, map[], before), ip, now).1
            <==> exists j :: 0 <= j < |before| && TooMany(rpm, before, ip, j, now)
  {
    var m := Final(rpm, map[], before);
    RefusedWhenPoor(rpm, m, ip, now);
    PotentialIsAttained(rpm, map[], before, ip, 0.0, now);
    hide Final, Granted, AfterAllow, Timed, CleanupsKeep;
    forall j | 0 <= j < |before|
      ensures Potential(rpm, m, ip, now) <= LeftFrom(rpm, map[], before, ip, j, now)
      ensures TooMany(rpm, before, ip, j, now) <==> LeftFrom(rpm, map[], before, ip, j, now) < 1.0
    {
      LeftIsBound(rpm, before, ip, j, now);
      RateOf(rpm, now - before[j].at);
    }
    var left := Potential(rpm, m, ip, now);
    FinalOfNothing(rpm, map[]);
    GrantedOfNothing(rpm, map[], ip);
    GainIsMonotone(rpm, 0.0, now);
    if before != [] {
      TimedFrom(0.0, before);
      GainIsMonotone(rpm, now - before[0].at, now);
      assert before[..0] == [] && before[0..] == before;
      assert LeftFrom(rpm, map[], before, ip, 0, now)
          == rpm as real + Gain(rpm, now - before[0].at) - Granted(rpm, map[], before, ip) as real;
    }
    if left < 1.0 {
      assert exists j :: 0 <= j < |before| && left == LeftFrom(rpm, map[], before, ip, j, now);
    }
  }

  /** The grants from the j-th call on, and one more, exceed what the time since then allows. */
  predicate TooMany(rpm: int, before: seq<Call>, ip: string, j: nat, now: real)
    requires j < |before|
  {
    Granted(rpm, Final(rpm, map[], before[..j]), before[j..], ip) as real + 1.0
    > rpm as real + rpm as real * (now - before[j].at) / 60.0
  }

  lemma RateOf(rpm: int, dt: real)
    ensures Gain(rpm, dt) == rpm as real * dt / 60.0
  {
  }

  lemma TimedFrom(from: real, calls: seq<Call>)
    requires Timed(from, calls) && calls != []
    ensures from <= calls[0].at
  {
  }

  lemma FinalOfNothing(rpm: int, m: Buckets)
    ensures Final(rpm, m, []) == m
  {
  }

  lemma GrantedOfNothing(rpm: int, m: Buckets, ip: string)
    ensures Granted(rpm, m, [], ip) == 0
  {
  }

  // ----- Exactly which cleanups cannot be noticed -----

  /** No timed run from an empty limiter, with cleanups of this age only, answers differently for them. */
  ghost predicate CleanupUnobservable(rpm: int, maxAge: real) {
    forall calls: seq<Call> :: Timed(0.0, calls) && (forall c :: c in calls && c.CleanupCall? ==> c.maxAge == maxAge)
      ==> Answers(rpm, map[], calls) == Answers(rpm, map[], WithoutCleanups(calls))
  }

  function Burst(ip: string, at: real, n: nat): seq<Call> {
    if n == 0 then [] else [AllowCall(ip, at)] + Burst(ip, at, n - 1)
  }

  function AllTrue(n: nat): seq<bool> {
    if n == 0 then [] else [true] + AllTrue(n - 1)
  }

  lemma {:induction false} BurstShape(ip: string, at: real, n: nat)
    ensures |Burst(ip, at, n)| == n && forall c :: c in Burst(ip, at, n) ==> c == AllowCall(ip, at)
    ensures Timed(at, Burst(ip, at, n))
    ensures WithoutCleanups(Burst(ip, at, n)) == Burst(ip, at, n)
  {
    if n > 0 {
      BurstShape(ip, at, n - 1);
    }
  }

  lemma {:induction false} AnswersAppend(rpm: int, m: Buckets, a: seq<Call>, b: seq<Call>)
    ensures Answers(rpm, m, a + b) == Answers(rpm, m, a) + Answers(rpm, Final(rpm, m, a), b)
    decreases |a|
  {
    if a == [] {
      assert a + b == b;
    } else {
      assert (a + b)[1..] == a[1..] + b;
      hide AfterAllow, AfterCleanup;
      AnswersAppend(rpm, After(rpm, m, a[0]), a[1..], b);
    }
  }

  lemma {:induction false} WithoutAppend(a: seq<Call>, b: seq<Call>)
    ensures WithoutCleanups(a + b) == WithoutCleanups(a) + WithoutCleanups(b)
    decreases |a|
  {
    if a == [] {
      assert a + b == b;
    } else {
      assert (a + b)[1..] == a[1..] + b;
      WithoutAppend(a[1..], b);
    }
  }

  lemma {:induction false} TimedAppend(from: real, a: seq<Call>, b: seq<Call>, end: real)
    requires Timed(from, a) && from <= end && (forall c :: c in a ==> c.at <= end) && Timed(end, b)
    ensures Timed(from, a + b)
    decreases |a|
  {
    if a == [] {
      assert a + b == b;
    } else {
      assert (a + b)[1..] == a[1..] + b;
      TimedAppend(a[0].at, a[1..], b, end);
    }
  }

  /** A bucket with n tokens, at the instant it was checked, grants n calls in a row and is then empty. */
  lemma {:induction false} BurstDrains(rpm: int, ip: string, at: real, n: nat)
    requires 0 < rpm && n <= rpm
    ensures Answers(rpm, map[ip := Bucket(n as real, at)], Burst(ip, at, n)) == AllTrue(n)
    ensures Final(rpm, map[ip := Bucket(n as real, at)], Burst(ip, at, n)) == map[ip := Bucket(0.0, at)]
  {
    if n > 0 {
      var m, m1 := map[ip := Bucket(n as real, at)], map[ip := Bucket((n - 1) as real, at)];
      assert Refilled(rpm, m[ip], at) == n as real;
      assert m[ip := Bucket(n as real - 1.0, at)] == m1;
      assert AfterAllow(rpm, m, ip, at) == (m1, true);
      hide AfterAllow;
      BurstDrains(rpm, ip, at, n - 1);
    }
  }

  /** An empty limiter grants a full burst and is left with an empty bucket. */
  lemma FreshBurst(rpm: int, ip: string, at: real)
    requires 0 < rpm
    ensures Answers(rpm, map[], Burst(ip, at, rpm)) == AllTrue(rpm)
    ensures Final(rpm, map[], Burst(ip, at, rpm)) == map[ip := Bucket(0.0, at)]
  {
    var m: Buckets := map[];
    var m1: Buckets := map[ip := Bucket((rpm - 1) as real, at)];
    assert m[ip := Bucket(rpm as real - 1.0, at)] == m1;
    assert AfterAllow(rpm, m, ip, at) == (m1, true);
    BurstDrains(rpm, ip, at, rpm - 1);
  }

  lemma {:induction false} AllTrueMeansGranted(rpm: int, m: Buckets, ip: string, at: real, n: nat)
    requires Answers(rpm, m, Burst(ip, at, n)) == AllTrue(n)
    ensures Granted(rpm, m, Burst(ip, at, n), ip) == n
    decreases n
  {
    if n > 0 {
      var rest := Burst(ip, at, n)[1..];
      assert rest == Burst(ip, at, n - 1);
      var m1 := AfterAllow(rpm, m, ip, at).0;
      assert Answers(rpm, m, Burst(ip, at, n))[1..] == Answers(rpm, m1, rest);
      assert AllTrue(n)[1..] == AllTrue(n - 1);
      AllTrueMeansGranted(rpm, m1, ip, at, n - 1);
    }
  }

  lemma PartialRefill(rpm: int, at: real)
    requires rpm > 0 && 0.0 <= at < 60.0
    ensures 0.0 <= Gain(rpm, at) < rpm as real && Gain(rpm, 0.0) == 0.0
  {
    var rate := rpm as real / 60.0;
    assert rate > 0.0;
    assert at * rate >= 0.0;
    assert (60.0 - at) * rate > 0.0;
    assert (60.0 - at) * rate == rpm as real - at * rate;
  }

  /** A bucket drained less than a minute ago cannot grant a full burst. */
  lemma DrainedBucketDenies(rpm: int, ip: string, at: real)
    requires rpm > 0 && 0.0 <= at < 60.0
    ensures Answers(rpm, map[ip := Bucket(0.0, 0.0)], Burst(ip, at, rpm)) != AllTrue(rpm)
  {
    var m := map[ip := Bucket(0.0, 0.0)];
    var calls := Burst(ip, at, rpm);
    BurstShape(ip, at, rpm);
    hide Gain, Answers, Granted, Burst;
    GrantedIsPaidFor(rpm, m, calls, ip, at, at);
    PartialRefill(rpm, at);
    if Answers(rpm, m, calls) == AllTrue(rpm) {
      AllTrueMeansGranted(rpm, m, ip, at, rpm);
      assert false;
    }
  }

  const IP := "203.0.113.7"

  /** A full burst, a cleanup at time `at`, and a second burst right after it. */
  function Probe(rpm: nat, maxAge: real, at: real): seq<Call> {
    Burst(IP, 0.0, rpm) + ([CleanupCall(maxAge, at)] + Burst(IP, at, rpm))
  }

  lemma ProbeIsTimed(rpm: nat, maxAge: real, at: real)
    requires at >= 0.0
    ensures Timed(0.0, Probe(rpm, maxAge, at))
    ensures forall c :: c in Probe(rpm, maxAge, at) && c.CleanupCall? ==> c.maxAge == maxAge
  {
    var clean := [CleanupCall(maxAge, at)];
    BurstShape(IP, 0.0, rpm);
    BurstShape(IP, at, rpm);
    TimedAppend(0.0, clean, Burst(IP, at, rpm), at);
    TimedAppend(0.0, Burst(IP, 0.0, rpm), clean + Burst(IP, at, rpm), 0.0);
  }

  /** The cleanup deletes the drained bucket, so the second burst is granted in full. */
  lemma ProbeWithCleanup(rpm: nat, maxAge: real, at: real)
    requires rpm > 0 && at > maxAge
    ensures Answers(rpm, map[], Probe(rpm, maxAge, at)) == AllTrue(rpm) + AllTrue(rpm)
  {
    var drained: Buckets := map[IP := Bucket(0.0, 0.0)];
    var clean, again := [CleanupCall(maxAge, at)], Burst(IP, at, rpm);
    FreshBurst(rpm, IP, 0.0);
    FreshBurst(rpm, IP, at);
    assert AfterCleanup(drained, maxAge, at) == map[];
    assert After(rpm, drained, clean[0]) == map[];
    assert (clean + again)[1..] == again;
    hide AfterCleanup, After, Burst;
    AnswersAppend(rpm, map[], Burst(IP, 0.0, rpm), clean + again);
  }

  /** Without it the second burst meets the drained bucket. */
  lemma ProbeWithoutCleanup(rpm: nat, maxAge: real, at: real)
    requires rpm > 0
    ensures Answers(rpm, map[], WithoutCleanups(Probe(rpm, maxAge, at)))
         == AllTrue(rpm) + Answers(rpm, map[IP := Bucket(0.0, 0.0)], Burst(IP, at, rpm))
  {
    var first, clean, again := Burst(IP, 0.0, rpm), [CleanupCall(maxAge, at)], Burst(IP, at, rpm);
    BurstShape(IP, 0.0, rpm);
    BurstShape(IP, at, rpm);
    FreshBurst(rpm, IP, 0.0);
    assert WithoutCleanups(clean) == [];
    hide Burst, WithoutCleanups;
    WithoutAppend(first, clean + again);
    WithoutAppend(clean, again);
    assert first + ([] + again) == first + again;
    AnswersAppend(rpm, map[], first, again);
  }

  lemma SamePrefix(a: seq<bool>, b: seq<bool>, c: seq<bool>)
    requires b != c
    ensures a + b != a + c
  {
    assert (a + b)[|a|..] == b;
    assert (a + c)[|a|..] == c;
  }

  lemma EarlyCleanupShows(rpm: int, maxAge: real)
    requires rpm > 0 && maxAge < 60.0
    ensures !CleanupUnobservable(rpm, maxAge)
  {
    var at := if maxAge < 0.0 then 0.0 else (maxAge + 60.0) / 2.0;
    ProbeIsTimed(rpm, maxAge, at);
    ProbeWithCleanup(rpm, maxAge, at);
    ProbeWithoutCleanup(rpm, maxAge, at);
    DrainedBucketDenies(rpm, IP, at);
    hide Probe;
    SamePrefix(AllTrue(rpm), AllTrue(rpm), Answers(rpm, map[IP := Bucket(0.0, 0.0)], Burst(IP, at, rpm)));
    assert Timed(0.0, Probe(rpm, maxAge, at));
  }

  /** One minute is the exact limit: younger cleanups hand out tokens early, older ones change no answer. */
  lemma CleanupUnobservableIff(rpm: int, maxAge: real)
    requires rpm > 0
    ensures CleanupUnobservable(rpm, maxAge) <==> maxAge >= 60.0
  {
    if maxAge < 60.0 {
      EarlyCleanupShows(rpm, maxAge);
    } else {
      forall calls: seq<Call> | Timed(0.0, calls) && forall c :: c in calls && c.CleanupCall? ==> c.maxAge == maxAge
        ensures Answers(rpm, map[], calls) == Answers(rpm, map[], WithoutCleanups(calls))
      {
        RelatedAnswers(rpm, map[], map[], calls, 0.0);
      }
    }
  }
}
