/**
  The cron expression parser of internal/cron/parser.go.

  A field is a comma-separated list of terms; a term has a base (`*`, n or n-m)
  and an optional step.  `TermRangeIff` says what its text asks for, and `Denotes`
  which values that means.  The loop that enumerates them runs on 64-bit ints, and
  a step near the top of the range makes it wrap around; then a term denotes what
  counting with wrap-around comes to, and the contracts say exactly when.
  */
module CronParser {
  import opened Collections
  import opened Strings
  import opened CronSchedule
  import Calendar

  datatype Error =
    | EmptyExpression
    | InvalidDuration
    | DurationNotPositive
    | WrongFieldCount
    | InvalidStep
    | StepNotPositive
    | InvalidRangeStart
    | InvalidRangeEnd
    | RangeOutOfBounds
    | StartAfterEnd
    | InvalidValue
    | ValueOutOfBounds
    | NoValues

  datatype Result<+T> = Success(value: T) | Failure(error: Error)

  // ----- Terms -----

  /** The value range a term asks for: from lo to hi, every step-th value. */
  datatype Term = Term(lo: int, hi: int, step: int)

  function ParseStep(term: string): Result<(string, int)> {
    var idx := IndexChar(term, '/');
    if idx == -1 then Success((term, 1))
    else
      match Atoi(term[idx + 1..])
      case None => Failure(InvalidStep)
      case Some(step) => if step <= 0 then Failure(StepNotPositive) else Success((term[..idx], step))
  }

  function ParseBase(base: string, step: int, min: int, max: int): Result<Term> {
    if base == "*" then Success(Term(min, max, step))
    else
      var idx := IndexChar(base, '-');
      if idx != -1 then
        match Atoi(base[..idx])
        case None => Failure(InvalidRangeStart)
        case Some(lo) =>
          match Atoi(base[idx + 1..])
          case None => Failure(InvalidRangeEnd)
          case Some(hi) =>
            if lo < min || hi > max then Failure(RangeOutOfBounds)
            else if lo > hi then Failure(StartAfterEnd)
            else Success(Term(lo, hi, step))
      else
        match Atoi(base)
        case None => Failure(InvalidValue)
        case Some(val) =>
          if val < min || val > max then Failure(ValueOutOfBounds)
          else if step > 1 then Success(Term(val, max, step))
          else Success(Term(val, val, step))
  }

  function TermRange(term: string, min: int, max: int): Result<Term> {
    match ParseStep(term)
    case Failure(e) => Failure(e)
    case Success((base, step)) => ParseBase(base, step, min, max)
  }

  lemma ParseStepIsPositive(term: string)
    ensures ParseStep(term).Success? ==> 1 <= ParseStep(term).value.1 <= MAX_INT
  {
    hide IndexChar, Atoi;
  }

  lemma ParseBaseInBounds(base: string, step: int, min: int, max: int)
    requires min <= max && ParseBase(base, step, min, max).Success?
    ensures var t := ParseBase(base, step, min, max).value;
            min <= t.lo <= t.hi <= max && t.step == step
  {
    hide IndexChar, Atoi;
  }

  lemma TermRangeInBounds(term: string, min: int, max: int)
    requires min <= max && TermRange(term, min, max).Success?
    ensures var t := TermRange(term, min, max).value;
            min <= t.lo <= t.hi <= max && 1 <= t.step <= MAX_INT
  {
    hide ParseStep, ParseBase;
    ParseStepIsPositive(term);
    var (base, step) := ParseStep(term).value;
    ParseBaseInBounds(base, step, min, max);
  }

  // What the text of a term says.

  /** A term is a base alone, with step 1, or a base and a positive step. */
  ghost predicate Spelled(term: string, base: string, step: int) {
    && '/' !in base
    && ((term == base && step == 1) || exists n :: term == base + "/" + n && Numeral(n, step) && step >= 1)
  }

  /** The base `*`, a range of two numerals, or one numeral, which a step above 1 extends to the top. */
  ghost predicate BaseMeans(base: string, step: int, min: int, max: int, lo: int, hi: int) {
    || (base == "*" && lo == min && hi == max)
    || (min <= lo <= hi <= max && exists a, b :: RangeOf(base, a, b, lo, hi))
    || ('-' !in base && Numeral(base, lo) && min <= lo <= max && hi == if step > 1 then max else lo)
  }

  ghost predicate RangeOf(base: string, a: string, b: string, lo: int, hi: int) {
    base == a + "-" + b && '-' !in a && Numeral(a, lo) && Numeral(b, hi)
  }

  lemma ParseStepIff(term: string, base: string, step: int)
    ensures ParseStep(term) == Success((base, step)) <==> Spelled(term, base, step)
  {
    hide Numeral, Atoi, IndexChar;
    if ParseStep(term) == Success((base, step)) {
      StepIsSpelled(term, base, step);
    }
    if '/' !in base && step >= 1 {
      forall n | term == base + "/" + n && Numeral(n, step)
        ensures ParseStep(term) == Success((base, step))
      {
        StepParses(base, n, step);
      }
    }
  }

  lemma StepIsSpelled(term: string, base: string, step: int)
    requires ParseStep(term) == Success((base, step))
    ensures Spelled(term, base, step)
  {
    hide Numeral, Atoi, IndexChar;
    var idx := IndexChar(term, '/');
    if idx != -1 {
      assert term == base + "/" + term[idx + 1..];
      AtoiIff(term[idx + 1..], step);
    }
  }

  lemma StepParses(base: string, n: string, step: int)
    requires '/' !in base && Numeral(n, step) && step >= 1
    ensures ParseStep(base + "/" + n) == Success((base, step))
  {
    hide Numeral, Atoi, IndexChar;
    IndexOfFirst(base, '/', n);
    var term := base + "/" + n;
    assert term[..|base|] == base && term[|base| + 1..] == n;
    AtoiIff(n, step);
  }

  lemma RangeIff(base: string, lo: int, hi: int)
    requires '-' in base
    ensures var idx := IndexChar(base, '-');
            (exists a, b :: RangeOf(base, a, b, lo, hi))
            <==> Atoi(base[..idx]) == Some(lo) && Atoi(base[idx + 1..]) == Some(hi)
  {
    var idx := IndexChar(base, '-');
    hide *;
    AtoiIff(base[..idx], lo);
    AtoiIff(base[idx + 1..], hi);
    if Numeral(base[..idx], lo) && Numeral(base[idx + 1..], hi) {
      SplitIsRange(base, idx, lo, hi);
    }
    if exists a, b :: RangeOf(base, a, b, lo, hi) {
      var a, b :| RangeOf(base, a, b, lo, hi);
      RangeIsSplit(base, a, b, lo, hi);
    }
  }

  lemma SplitIsRange(base: string, idx: int, lo: int, hi: int)
    requires 0 <= idx < |base| && base[idx] == '-' && '-' !in base[..idx]
    requires Numeral(base[..idx], lo) && Numeral(base[idx + 1..], hi)
    ensures RangeOf(base, base[..idx], base[idx + 1..], lo, hi)
  {
    hide Numeral;
    assert base == base[..idx] + "-" + base[idx + 1..];
  }

  lemma RangeIsSplit(base: string, a: string, b: string, lo: int, hi: int)
    requires RangeOf(base, a, b, lo, hi)
    ensures Numeral(a, lo) && Numeral(b, hi)
    ensures var idx := IndexChar(base, '-');
            idx == |a| && idx < |base| && a == base[..idx] && b == base[idx + 1..]
  {
    IndexOfFirst(a, '-', b);
    hide Numeral, IndexChar;
  }

  lemma ParseBaseIff(base: string, step: int, min: int, max: int, t: Term)
    requires 0 <= min <= max
    ensures ParseBase(base, step, min, max) == Success(t)
            <==> BaseMeans(base, step, min, max, t.lo, t.hi) && t.step == step
  {
    hide Atoi, Numeral, IndexChar, RangeOf;
    AtoiIff(base, t.lo);
    forall a, b | RangeOf(base, a, b, t.lo, t.hi)
      ensures '-' in base
    {
      RangeHasDash(base, a, b, t.lo, t.hi);
    }
    if base == "*" {
      StarIsNoNumeral();
    } else if '-' in base {
      RangeIff(base, t.lo, t.hi);
    }
  }

  lemma RangeHasDash(base: string, a: string, b: string, lo: int, hi: int)
    requires RangeOf(base, a, b, lo, hi)
    ensures '-' in base
  {
    assert base[|a|] == '-';
    hide Numeral;
  }

  lemma StarIsNoNumeral()
    ensures Atoi("*") == None
  {
    assert "*"[0] in "*" && !IsDigit('*');
  }

  /**
    Exactly which texts are terms, and what they ask for: `*`, a numeral or a range
    of numerals within the bounds, each alone or with a positive step.  A numeral
    alone, or with step 1, is that value only; with a larger step it goes on to max.
    */
  lemma TermRangeIff(term: string, min: int, max: int, t: Term)
    requires 0 <= min <= max
    ensures TermRange(term, min, max) == Success(t)
            <==> exists base :: Spelled(term, base, t.step) && BaseMeans(base, t.step, min, max, t.lo, t.hi)
  {
    hide ParseStep, ParseBase, Spelled, BaseMeans;
    if ParseStep(term).Success? {
      var (base, step) := ParseStep(term).value;
      ParseStepIff(term, base, step);
      ParseBaseIff(base, step, min, max, t);
    }
    forall base | Spelled(term, base, t.step)
      ensures ParseStep(term) == Success((base, t.step))
    {
      ParseStepIff(term, base, t.step);
    }
  }

  /** The values listed in a parsed range: lo, lo + step, lo + 2 step, ... up to hi. */
  predicate InTerm(t: Term, v: int)
    requires t.step > 0
  {
    t.lo <= v <= t.hi && (v - t.lo) % t.step == 0
  }

  /** The first addition of the enumeration leaves the 64-bit range. */
  predicate Wraps(t: Term) {
    t.lo + t.step > MAX_INT
  }

  const TURN: int := 0x1_0000_0000_0000_0000

  /** Two wrapped steps go once round the 64-bit range, short by twice this much. */
  function Gap(t: Term): int { TURN / 2 - t.step }

  /** A value that full turns come to from the first one: lo, lo - 2 Gap, lo - 4 Gap, ... */
  predicate OnTheWay(t: Term, v: int)
    requires t.step <= MAX_INT
  {
    v <= t.lo && (t.lo - v) % (2 * Gap(t)) == 0
  }

  /**
    The values of a parsed range.  When a step wraps around, they are the values full
    turns come to, as long as the next step wraps, and those half a turn from them.
    */
  predicate Has(t: Term, v: int)
    requires 1 <= t.step <= MAX_INT
  {
    if Wraps(t) then (-Gap(t) <= v && OnTheWay(t, v)) || (MIN_INT <= v && OnTheWay(t, v - MIN_INT + Gap(t)))
    else InTerm(t, v)
  }

  /** The term is well formed and v is one of the values it denotes. */
  predicate Denotes(term: string, min: int, max: int, v: int)
    requires min <= max
  {
    && TermRange(term, min, max).Success?
    && (TermRangeInBounds(term, min, max); Has(TermRange(term, min, max).value, v))
  }

  /** A term lists its first value, and nothing beyond its range. */
  lemma HasFirst(t: Term, v: int)
    requires 0 <= t.lo <= t.hi <= LARGEST && 1 <= t.step <= MAX_INT
    ensures Has(t, t.lo)
    ensures Has(t, v) ==> v <= t.hi
  {
    DivModUnique(0, t.step, 0, 0);
    DivModUnique(0, 2 * Gap(t), 0, 0);
    assert OnTheWay(t, t.lo) && InTerm(t, t.lo);
    BoundsOfTerm(t, v);
    BoundsOfTerm(t, v - MIN_INT + Gap(t));
    hide OnTheWay, InTerm;
  }

  lemma BoundsOfTerm(t: Term, v: int)
    requires 1 <= t.step <= MAX_INT
    ensures InTerm(t, v) ==> t.lo <= v <= t.hi
    ensures OnTheWay(t, v) ==> v <= t.lo
  {
  }

  // The bounds of the five fields fit in [0, 59].
  const LARGEST: int := 59

  /** Decreases along the enumeration, also when it wraps around. */
  function Remaining(t: Term, v: int): int {
    if v > t.hi then 0
    else if t.step <= MAX_INT - LARGEST then t.hi - v + 1
    else if v >= 0 then 2 * v + 3
    else if v >= -1000 then 1
    else 2 * (v - MIN_INT) + 2
  }

  lemma EnumerationProgress(t: Term, v: int)
    requires 0 <= t.lo <= t.hi <= LARGEST && 1 <= t.step <= MAX_INT
    requires MIN_INT <= v <= t.hi
    requires t.step <= MAX_INT - LARGEST ==> t.lo <= v
    requires v < -1000 ==> v <= MIN_INT + LARGEST
    ensures var w := WrapInt(v + t.step);
            && 0 <= Remaining(t, w) < Remaining(t, v)
            && (w < -1000 ==> w <= MIN_INT + LARGEST)
  {
    var w := WrapInt(v + t.step);
    if v + t.step <= MAX_INT {
      assert w == v + t.step;
    } else {
      assert w == v + t.step - 0x1_0000_0000_0000_0000;
    }
  }

  /** The only multiple of step in a window of one step. */
  lemma OneMultiplePerStep(n: int, k: int, step: int)
    requires step > 0 && n % step == 0 && n <= k < n + step
    ensures k % step == k - n
  {
    assert k == step * (n / step) + (k - n);
    DivModUnique(k, step, n / step, k - n);
  }

  lemma MultipleGap(step: int, q: int, p: int)
    requires step > 0 && q < p
    ensures step * q + step <= step * p
  {
    assert step * (p - q - 1) >= 0;
    assert step * (p - q - 1) == step * p - step * q - step;
  }

  lemma DivModUnique(k: int, step: int, q: int, r: int)
    requires step > 0 && k == step * q + r && 0 <= r < step
    ensures k % step == r
  {
    var q' := k / step;
    if q < q' {
      MultipleGap(step, q, q');
    } else if q' < q {
      MultipleGap(step, q', q);
    }
  }

  lemma StepKeepsResidue(n: int, step: int)
    requires step > 0 && n % step == 0
    ensures (n + step) % step == 0
  {
    DivModUnique(n + step, step, n / step + 1, 0);
  }

  /** The values listed so far are those of the term below v, and v is next. */
  ghost predicate EnumeratedTo(t: Term, vals: seq<int>, v: int)
    requires t.step > 0
  {
    && t.lo <= v && (v - t.lo) % t.step == 0
    && forall x :: x in vals <==> InTerm(t, x) && x < v
  }

  lemma EnumerateOne(t: Term, vals: seq<int>, v: int)
    requires t.step > 0 && v <= t.hi && EnumeratedTo(t, vals, v)
    ensures EnumeratedTo(t, vals + [v], v + t.step)
  {
    StepKeepsResidue(v - t.lo, t.step);
    assert (v + t.step - t.lo) % t.step == 0;
    forall x
      ensures x in vals + [v] <==> InTerm(t, x) && x < v + t.step
    {
      if InTerm(t, x) && v <= x < v + t.step {
        OneMultiplePerStep(v - t.lo, x - t.lo, t.step);
      }
    }
  }

  // The enumeration when it wraps around.

  lemma OnTheWaySpaced(t: Term, x: int, y: int)
    requires t.step <= MAX_INT && OnTheWay(t, x) && OnTheWay(t, y) && x < y
    ensures x + 2 * Gap(t) <= y
  {
    MultiplesApart(2 * Gap(t), t.lo - y, t.lo - x);
  }

  lemma MultiplesApart(d: int, a: int, b: int)
    requires d > 0 && a % d == 0 && b % d == 0 && a < b
    ensures a + d <= b
  {
    var q, p := a / d, b / d;
    assert a == d * q && b == d * p;
    if q < p {
      MultipleGap(d, q, p);
    } else if p < q {
      MultipleGap(d, p, q);
    }
  }

  lemma OnTheWayNext(t: Term, x: int)
    requires t.step <= MAX_INT && OnTheWay(t, x)
    ensures OnTheWay(t, x - 2 * Gap(t))
  {
    StepKeepsResidue(t.lo - x, 2 * Gap(t));
  }

  /** The values listed are those of the turns before e, whole and half, and e itself if `halfway`. */
  ghost predicate TurnedTo(t: Term, vals: seq<int>, e: int, halfway: bool)
    requires t.step <= MAX_INT
  {
    OnTheWay(t, e) && forall x :: x in vals <==> Passed(t, x, e, halfway)
  }

  predicate Passed(t: Term, x: int, e: int, halfway: bool)
    requires t.step <= MAX_INT
  {
    || (OnTheWay(t, x) && if halfway then x >= e else x > e)
    || (OnTheWay(t, x - MIN_INT + Gap(t)) && x - MIN_INT + Gap(t) > e)
  }

  /** At a whole turn, at half a turn, or past the end. */
  ghost predicate WrappedTo(t: Term, vals: seq<int>, v: int)
    requires 1 <= t.step <= MAX_INT
  {
    || (-Gap(t) <= v <= t.lo && TurnedTo(t, vals, v, false))
    || (MIN_INT <= v <= MIN_INT + t.lo && TurnedTo(t, vals, v - MIN_INT + Gap(t), true))
    || (v > t.hi && forall x :: x in vals <==> Has(t, x))
  }

  lemma WrapOne(t: Term, vals: seq<int>, v: int)
    requires 0 <= t.lo <= t.hi <= LARGEST && 1 <= t.step <= MAX_INT && Wraps(t)
    requires v <= t.hi && WrappedTo(t, vals, v)
    ensures WrappedTo(t, vals + [v], WrapInt(v + t.step))
  {
    var g := Gap(t);
    if -g <= v && TurnedTo(t, vals, v, false) {
      if v >= g {
        HalfTurn(t, vals, v);
        assert WrapInt(v + t.step) == MIN_INT + v - g;
      } else {
        LastTurn(t, vals, v);
        assert WrapInt(v + t.step) == v + t.step > t.hi;
      }
    } else {
      SecondHalf(t, vals, v);
      assert WrapInt(v + t.step) == v - MIN_INT - g;
    }
  }

  lemma HalfTurn(t: Term, vals: seq<int>, v: int)
    requires t.step <= MAX_INT && TurnedTo(t, vals, v, false)
    ensures TurnedTo(t, vals + [v], v, true)
  {
    hide OnTheWay;
  }

  lemma SecondHalf(t: Term, vals: seq<int>, v: int)
    requires t.step <= MAX_INT && TurnedTo(t, vals, v - MIN_INT + Gap(t), true)
    ensures TurnedTo(t, vals + [v], v - MIN_INT - Gap(t), false)
  {
    var e, next := v - MIN_INT + Gap(t), v - MIN_INT - Gap(t);
    OnTheWayNext(t, e);
    hide OnTheWay;
    forall x
      ensures Passed(t, x, next, false) <==> Passed(t, x, e, true) || x == v
    {
      NoneBetween(t, next, e, x);
      NoneBetween(t, next, e, x - MIN_INT + Gap(t));
    }
    hide Passed;
  }

  lemma NoneBetween(t: Term, next: int, e: int, x: int)
    requires t.step <= MAX_INT && OnTheWay(t, next) && e == next + 2 * Gap(t)
    ensures next < x < e ==> !OnTheWay(t, x)
  {
    if next < x < e && OnTheWay(t, x) {
      OnTheWaySpaced(t, next, x);
    }
  }

  lemma LastTurn(t: Term, vals: seq<int>, v: int)
    requires 0 <= t.lo && 1 <= t.step <= MAX_INT && Wraps(t)
    requires -Gap(t) <= v < Gap(t) && TurnedTo(t, vals, v, false)
    ensures forall x :: x in vals + [v] <==> Has(t, x)
  {
    hide OnTheWay;
    forall x
      ensures Has(t, x) <==> Passed(t, x, v, false) || x == v
    {
      FarFromLast(t, v, x);
      FarFromLast(t, v, x - MIN_INT + Gap(t));
    }
    hide Passed, Has;
  }

  lemma FarFromLast(t: Term, v: int, x: int)
    requires t.step <= MAX_INT && OnTheWay(t, v) && -Gap(t) <= v < Gap(t)
    ensures OnTheWay(t, x) && x < v ==> x < -Gap(t)
    ensures OnTheWay(t, x) && x > v ==> x >= Gap(t)
  {
    if OnTheWay(t, x) && x < v {
      OnTheWaySpaced(t, x, v);
    }
    if OnTheWay(t, x) && x > v {
      OnTheWaySpaced(t, v, x);
    }
  }

  /**
    The enumeration loop: it lists the term's values, all of them and no others, and
    some below zero exactly if it wraps.
    */
  method Enumerate(t: Term) returns (vals: seq<int>)
    requires 0 <= t.lo <= t.hi <= LARGEST && 1 <= t.step <= MAX_INT
    ensures forall x :: x in vals <==> Has(t, x)
    ensures Wraps(t) <==> exists x :: x in vals && x < 0
    ensures vals != []
  {
    hide WrappedTo, EnumeratedTo, Has;
    vals := [];
    var v := t.lo;
    EnumerationStarts(t);
    while v <= t.hi
      invariant MIN_INT <= v <= MAX_INT
      invariant 0 <= Remaining(t, v)
      invariant v < -1000 ==> v <= MIN_INT + LARGEST
      invariant if Wraps(t) then WrappedTo(t, vals, v) else EnumeratedTo(t, vals, v) && t.lo <= v
      decreases Remaining(t, v)
    {
      EnumerationProgress(t, v);
      if Wraps(t) {
        WrapOne(t, vals, v);
      } else {
        EnumerateOne(t, vals, v);
        assert v + t.step <= MAX_INT;
      }
      hide Remaining;
      vals := vals + [v];
      v := WrapInt(v + t.step);
    }
    EnumerationEnds(t, vals, v);
  }

  lemma EnumerationStarts(t: Term)
    requires 0 <= t.lo <= t.hi <= LARGEST && 1 <= t.step <= MAX_INT
    ensures if Wraps(t) then WrappedTo(t, [], t.lo) else EnumeratedTo(t, [], t.lo)
  {
    if Wraps(t) {
      assert OnTheWay(t, t.lo);
      assert forall x :: OnTheWay(t, x) ==> x <= t.lo;
      hide OnTheWay;
      assert TurnedTo(t, [], t.lo, false);
    }
  }

  lemma EnumerationEnds(t: Term, vals: seq<int>, v: int)
    requires 0 <= t.lo <= t.hi <= LARGEST && 1 <= t.step <= MAX_INT && v > t.hi
    requires if Wraps(t) then WrappedTo(t, vals, v) else EnumeratedTo(t, vals, v)
    ensures vals != []
    ensures forall x :: x in vals <==> Has(t, x)
    ensures Wraps(t) <==> exists x :: x in vals && x < 0
  {
    HasFirst(t, 0);
    if Wraps(t) {
      assert Has(t, MIN_INT + t.lo - Gap(t));
    } else {
      PlainAll(t, vals, v);
    }
    hide Has;
    assert t.lo in vals;
  }

  lemma PlainAll(t: Term, vals: seq<int>, v: int)
    requires t.step > 0 && t.lo >= 0 && !Wraps(t) && EnumeratedTo(t, vals, v) && v > t.hi
    ensures forall x :: x in vals <==> Has(t, x)
    ensures forall x :: x in vals ==> x >= 0
  {
    assert forall x :: InTerm(t, x) ==> t.lo <= x <= t.hi;
  }

  // What a term denotes within the bounds.

  /** Values that a wrapped term has besides the one it asks for. */
  predicate Extra(t: Term, v: int)
    requires t.step <= MAX_INT
  {
    Wraps(t) && v < t.lo && OnTheWay(t, v)
  }

  lemma HasInBounds(t: Term, v: int)
    requires 0 <= t.lo <= t.hi <= LARGEST && 1 <= t.step <= MAX_INT && v >= 0
    ensures Has(t, v) <==> InTerm(t, v) || Extra(t, v)
  {
    BoundsOfTerm(t, v);
    BoundsOfTerm(t, v - MIN_INT + Gap(t));
    HasFirst(t, v);
    if InTerm(t, v) && v != t.lo && Wraps(t) {
      NoSecondValue(t, v);
    }
    hide InTerm, OnTheWay;
  }

  lemma NoSecondValue(t: Term, v: int)
    requires 1 <= t.step <= MAX_INT && InTerm(t, v)
    ensures v == t.lo || v >= t.lo + t.step
  {
    if t.lo < v < t.lo + t.step {
      DivModUnique(0, t.step, 0, 0);
      OneMultiplePerStep(0, v - t.lo, t.step);
    }
  }

  /**
    Within the bounds a term has just the values it asks for if and only if two steps
    from its first value do not come back into them.
    */
  lemma PlainIff(t: Term, min: int)
    requires 0 <= min <= t.lo <= t.hi <= LARGEST && 1 <= t.step <= MAX_INT
    ensures (forall v :: v >= min ==> (Has(t, v) <==> InTerm(t, v))) <==> t.lo + 2 * t.step < TURN + min
  {
    hide Has;
    var back := t.lo - 2 * Gap(t);
    OnTheWayNext(t, t.lo);
    if back < min {
      forall v | v >= min
        ensures Has(t, v) <==> InTerm(t, v)
      {
        HasInBounds(t, v);
        if Extra(t, v) {
          OnTheWaySpaced(t, v, t.lo);
        }
      }
    } else {
      HasInBounds(t, back);
      assert Wraps(t) && Extra(t, back) && !InTerm(t, back);
    }
  }

  method ParseTerm(term: string, min: int, max: int) returns (r: Result<seq<int>>)
    requires 0 <= min <= max <= LARGEST
    ensures r.Success? <==> TermRange(term, min, max).Success?
    ensures r.Failure? ==> r.error == TermRange(term, min, max).error
    ensures r.Success? ==> r.value != []
    ensures r.Success? ==> forall v :: v in r.value <==> Denotes(term, min, max, v)
    ensures r.Success? ==> (Wraps(TermRange(term, min, max).value) <==> exists v :: v in r.value && v < 0)
  {
    var range := TermRange(term, min, max);
    if range.Failure? {
      return Failure(range.error);
    }
    TermRangeInBounds(term, min, max);
    hide TermRange;
    var vals := Enumerate(range.value);
    return Success(vals);
  }

  /** In the hour field `10-20/9223372036854775807` means hour 8 as well. */
  lemma WrappedTermHasMore()
    ensures Denotes("10-20/" + Itoa(MAX_INT), 0, 23, 8)
  {
    hide Spelled, BaseMeans, TermRange, Has, Denotes, Itoa;
    HugeStepSpelled();
    TenToTwenty();
    HasEight();
    TermRangeIff("10-20/" + Itoa(MAX_INT), 0, 23, Term(10, 20, MAX_INT));
    TermHas("10-20/" + Itoa(MAX_INT), 0, 23, Term(10, 20, MAX_INT), 8);
  }

  lemma HugeStepSpelled()
    ensures Spelled("10-20/" + Itoa(MAX_INT), "10-20", MAX_INT)
  {
    hide Itoa, Atoi, Numeral;
    AtoiOfItoa(MAX_INT);
    AtoiIff(Itoa(MAX_INT), MAX_INT);
    assert "10-20/" + Itoa(MAX_INT) == "10-20" + "/" + Itoa(MAX_INT);
  }

  lemma TenToTwenty()
    ensures BaseMeans("10-20", MAX_INT, 0, 23, 10, 20)
  {
    assert DigitsValue("1") == 1 && DigitsValue("2") == 2;
    assert Signed("10", "", "10", 10) && Signed("20", "", "20", 20);
    assert "10-20" == "10" + "-" + "20";
    hide DigitsValue, Signed;
    assert RangeOf("10-20", "10", "20", 10, 20);
  }

  lemma HasEight()
    ensures Has(Term(10, 20, MAX_INT), 8)
  {
  }

  lemma TermHas(term: string, min: int, max: int, t: Term, v: int)
    requires min <= max && TermRange(term, min, max) == Success(t)
    requires 1 <= t.step <= MAX_INT && Has(t, v)
    ensures Denotes(term, min, max, v)
  {
    hide TermRange, Has;
  }

  /** Every step that takes min beyond the largest int gives a well-formed term that wraps. */
  lemma LargeStepWraps(min: int, max: int, step: nat)
    requires min + step > MAX_INT && 0 < step <= MAX_INT
    ensures var term := "*/" + Itoa(step);
            TermRange(term, min, max) == Success(Term(min, max, step)) && Wraps(Term(min, max, step))
  {
    var term := "*/" + Itoa(step);
    AtoiOfItoa(step);
    hide Atoi;
    assert IndexChar(term, '/') == 1 by {
      assert term[1] == '/' && term[0] == '*';
      assert '/' !in term[..1];
    }
    assert term[2..] == Itoa(step);
    assert term[..1] == "*";
  }

  // ----- sortInts -----

  predicate Ascending(s: seq<int>) {
    forall i, j :: 0 <= i < j < |s| ==> s[i] <= s[j]
  }

  /**
    r is s with the elements from p to i, all larger than s[i], moved up by one.
    What r holds at p, the gap, is left open.
    */
  ghost predicate Shifted(s: seq<int>, p: int, i: int, r: seq<int>)
    requires 0 <= p <= i < |s|
  {
    && |r| == |s|
    && (forall k {:trigger r[k]} :: 0 <= k < p ==> r[k] == s[k])
    && (forall k {:trigger r[k]} :: p < k <= i ==> r[k] == s[k - 1] && s[i] < r[k])
    && (forall k {:trigger r[k]} :: i < k < |s| ==> r[k] == s[k])
  }

  lemma NothingShifted(s: seq<int>, i: nat)
    requires i < |s|
    ensures Shifted(s, i, i, s)
  {
  }

  lemma ShiftOne(s: seq<int>, p: int, i: int, r: seq<int>)
    requires 0 < p <= i < |s| && Shifted(s, p, i, r) && r[p - 1] > s[i]
    ensures Shifted(s, p - 1, i, r[p := r[p - 1]])
  {
  }

  lemma ShiftFill(s: seq<int>, p: int, i: int, r: seq<int>, x: int)
    requires 0 <= p <= i < |s| && Shifted(s, p, i, r)
    ensures Shifted(s, p, i, r[p := x])
  {
  }

  lemma SwapBlocks(a: seq<int>, b: seq<int>, c: seq<int>, d: seq<int>)
    ensures multiset(a + c + b + d) == multiset(a + b + c + d)
  {
  }

  lemma MovedDownKeepsElements(s: seq<int>, p: nat, i: nat, r: seq<int>)
    requires p <= i < |s| && Shifted(s, p, i, r) && r[p] == s[i]
    ensures multiset(r) == multiset(s)
  {
    assert r[..p] == s[..p];
    assert r[p + 1..i + 1] == s[p..i];
    assert r[i + 1..] == s[i + 1..];
    hide Shifted;
    var a, b, c, d := s[..p], s[p..i], [s[i]], s[i + 1..];
    SwapBlocks(a, b, c, d);
    assert s == a + b + c + d;
    assert r == r[..p] + [r[p]] + r[p + 1..i + 1] + r[i + 1..];
  }

  /** Inserting the element at i before the larger elements of a sorted prefix sorts one element more. */
  lemma MovedDownIsAscending(s: seq<int>, p: nat, i: nat, r: seq<int>)
    requires p <= i < |s| && Ascending(s[..i]) && Shifted(s, p, i, r) && r[p] == s[i]
    requires p > 0 ==> r[p - 1] <= s[i]
    ensures Ascending(r[..i + 1])
  {
    var prefix := s[..i];
    forall m, n | 0 <= m < n < i + 1
      ensures r[m] <= r[n]
    {
      if n < p {
        assert r[m] == prefix[m] && r[n] == prefix[n];
      } else if n == p {
        assert r[m] == prefix[m] && s[p - 1] == prefix[p - 1];
      } else if m < p {
        assert r[m] == prefix[m] && r[n] == prefix[n - 1];
      } else if m > p {
        assert r[m] == prefix[m - 1] && r[n] == prefix[n - 1];
      }
    }
  }

  lemma FilledGap(s: seq<int>, p: nat, i: nat, r: seq<int>)
    requires p <= i < |s| && Ascending(s[..i]) && Shifted(s, p, i, r)
    requires p > 0 ==> r[p - 1] <= s[i]
    ensures |r| == |s| && multiset(r[p := s[i]]) == multiset(s) && Ascending(r[p := s[i]][..i + 1])
  {
    ShiftFill(s, p, i, r, s[i]);
    MovedDownKeepsElements(s, p, i, r[p := s[i]]);
    MovedDownIsAscending(s, p, i, r[p := s[i]]);
  }

  /** The inner loop: the element at i moves down past the larger ones before it. */
  method Insert(a: array<int>, i: nat)
    requires i < a.Length && Ascending(a[..i])
    modifies a
    ensures Ascending(a[..i + 1])
    ensures multiset(a[..]) == multiset(old(a[..]))
  {
    hide Ascending, Shifted;
    ghost var s, r := a[..], a[..];
    assert a[..i] == s[..i];
    NothingShifted(s, i);
    var key := a[i];
    var j := i - 1;
    while j >= 0 && a[j] > key
      invariant -1 <= j < i
      invariant a[..] == r && |r| == |s| && Shifted(s, j + 1, i, r)
    {
      ShiftOne(s, j + 1, i, r);
      r := r[j + 1 := r[j]];
      a[j + 1] := a[j];
      j := j - 1;
    }
    FilledGap(s, j + 1, i, r);
    a[j + 1] := key;
    assert a[..] == r[j + 1 := key];
    assert a[..i + 1] == a[..][..i + 1];
  }

  /** Insertion sort, in place. */
  method SortInts(a: array<int>)
    modifies a
    ensures Ascending(a[..])
    ensures multiset(a[..]) == multiset(old(a[..]))
  {
    if a.Length == 0 {
      return;
    }
    for i := 1 to a.Length
      invariant Ascending(a[..i])
      invariant multiset(a[..]) == multiset(old(a[..]))
    {
      Insert(a, i);
    }
    assert a[..] == a[..a.Length];
  }

  lemma TwiceInSequence(s: seq<int>, i: nat, j: nat)
    requires i < j < |s| && s[i] == s[j]
    ensures multiset(s)[s[i]] >= 2
  {
    assert s == s[..j] + [s[j]] + s[j + 1..];
    assert s[..j][i] == s[i];
  }

  lemma DistinctAscendingIsStrict(s: seq<int>)
    requires Ascending(s) && forall v :: multiset(s)[v] <= 1
    ensures StrictlyIncreasing(s)
  {
    forall i, j | 0 <= i < j < |s|
      ensures s[i] < s[j]
    {
      if s[i] == s[j] {
        TwiceInSequence(s, i, j);
      }
    }
  }

  // ----- parseField -----

  function Terms(field: string): seq<string> { Split(field, ',') }

  predicate WellFormedField(field: string, min: int, max: int) {
    forall term :: term in Terms(field) ==> TermRange(term, min, max).Success?
  }

  predicate FieldWraps(field: string, min: int, max: int) {
    exists term :: term in Terms(field) && TermRange(term, min, max).Success? && Wraps(TermRange(term, min, max).value)
  }

  predicate FieldDenotes(field: string, min: int, max: int, v: int)
    requires min <= max
  {
    exists term :: term in Terms(field) && Denotes(term, min, max, v)
  }

  /** The elements of a set, taken in an arbitrary order and then sorted in place. */
  method SortedElements(elements: set<int>) returns (sorted: seq<int>)
    ensures StrictlyIncreasing(sorted)
    ensures forall v :: v in sorted <==> v in elements
  {
    var order: seq<int> := [];
    var rest := elements;
    while rest != {}
      invariant forall v :: v in order || v in rest <==> v in elements
      invariant forall v :: v in rest ==> v !in order
      invariant forall v :: multiset(order)[v] <= 1
      decreases rest
    {
      ghost var some := Pick(rest);
      var v :| v in rest;
      assert v !in multiset(order);
      order := order + [v];
      rest := rest - {v};
    }
    var a := new int[|order|](i requires 0 <= i < |order| => order[i]);
    assert a[..] == order;
    SortInts(a);
    sorted := a[..];
    DistinctAscendingIsStrict(sorted);
    SameElements(sorted, order);
  }

  lemma SameElements(s: seq<int>, t: seq<int>)
    requires multiset(s) == multiset(t)
    ensures forall v :: v in s <==> v in t
  {
    assert forall v :: v in s <==> v in multiset(s);
    assert forall v :: v in t <==> v in multiset(t);
  }

  /**
    A field parses exactly when each of its terms does.  The result is strictly
    increasing whatever order the set is iterated in, lists exactly the denoted
    values, and lies within the bounds if and only if no term wraps.
    */
  method ParseField(field: string, min: int, max: int) returns (r: Result<seq<int>>)
    requires 0 <= min <= max <= LARGEST
    ensures r.Success? <==> WellFormedField(field, min, max)
    ensures r.Success? ==> IsUpperField(r.value, min, max)
    ensures r.Success? ==> forall v :: v in r.value <==> FieldDenotes(field, min, max, v)
    ensures r.Success? ==> (Within(r.value, min, max) <==> !FieldWraps(field, min, max))
  {
    hide TermRange, Denotes;
    var elements: set<int> := {};
    var parts := Terms(field);
    for i := 0 to |parts|
      invariant forall k :: 0 <= k < i ==> TermRange(parts[k], min, max).Success?
      invariant forall v :: v in elements <==> exists k :: 0 <= k < i && Denotes(parts[k], min, max, v)
      invariant (exists k :: 0 <= k < i && Wraps(TermRange(parts[k], min, max).value)) ==>
                  exists v :: v in elements && v < 0
    {
      var vals := ParseTerm(parts[i], min, max);
      if vals.Failure? {
        assert parts[i] in Terms(field);
        return Failure(vals.error);
      }
      ghost var before := elements;
      elements := elements + (set v | v in vals.value);
      assert forall v :: v in before ==> v in elements;
      assert forall v :: v in vals.value ==> v in elements;
      assert parts[i] in Terms(field);
    }
    assert FieldValues(elements, field, min, max) by {
      assert forall k :: 0 <= k < |parts| ==> parts[k] in Terms(field);
    }
    FieldIsUpper(elements, field, min, max);
    if elements == {} {
      assert false;
    }
    hide FieldValues;
    var sorted := SortedElements(elements);
    r := Success(sorted);
  }

  /** The set holds what the field denotes, and something negative if a term wraps. */
  ghost predicate FieldValues(elements: set<int>, field: string, min: int, max: int)
    requires min <= max
  {
    && WellFormedField(field, min, max)
    && (forall v :: v in elements <==> FieldDenotes(field, min, max, v))
    && (FieldWraps(field, min, max) ==> exists v :: v in elements && v < 0)
  }

  lemma DenotesInBounds(term: string, min: int, max: int, v: int)
    requires 0 <= min <= max <= LARGEST && TermRange(term, min, max).Success?
    ensures Denotes(term, min, max, v) ==> v <= max
    ensures Denotes(term, min, max, v) && !Wraps(TermRange(term, min, max).value) ==> min <= v
    ensures Denotes(term, min, max, TermRange(term, min, max).value.lo) && TermRange(term, min, max).value.lo >= min
  {
    TermRangeInBounds(term, min, max);
    hide TermRange;
    HasFirst(TermRange(term, min, max).value, v);
  }

  lemma FieldIsUpper(elements: set<int>, field: string, min: int, max: int)
    requires 0 <= min <= max <= LARGEST && FieldValues(elements, field, min, max)
    ensures exists v :: v in elements && v >= min
    ensures forall v :: v in elements ==> v <= max
    ensures (forall v :: v in elements ==> min <= v) <==> !FieldWraps(field, min, max)
  {
    hide TermRange, Denotes, Wraps;
    var first := Terms(field)[0];
    assert first in Terms(field);
    DenotesInBounds(first, min, max, 0);
    assert TermRange(first, min, max).value.lo in elements;
    forall v | v in elements
      ensures v <= max && (!FieldWraps(field, min, max) ==> min <= v)
    {
      var term :| term in Terms(field) && Denotes(term, min, max, v);
      DenotesInBounds(term, min, max, v);
    }
  }

  // What a field denotes within its bounds.

  /** What the term asks for, in plain arithmetic: from lo on every step-th value up to hi. */
  predicate Asks(term: string, min: int, max: int, v: int)
    requires min <= max
  {
    && TermRange(term, min, max).Success?
    && (TermRangeInBounds(term, min, max); InTerm(TermRange(term, min, max).value, v))
  }

  predicate FieldAsks(field: string, min: int, max: int, v: int)
    requires min <= max
  {
    exists term :: term in Terms(field) && Asks(term, min, max, v)
  }

  predicate HasExtra(term: string, min: int, max: int, v: int)
    requires min <= max
  {
    && TermRange(term, min, max).Success?
    && (TermRangeInBounds(term, min, max); Extra(TermRange(term, min, max).value, v))
  }

  lemma DenotesInPlain(term: string, min: int, max: int, v: int)
    requires 0 <= min <= max <= LARGEST && min <= v
    ensures Denotes(term, min, max, v) <==> Asks(term, min, max, v) || HasExtra(term, min, max, v)
  {
    if TermRange(term, min, max).Success? {
      TermRangeInBounds(term, min, max);
      HasInBounds(TermRange(term, min, max).value, v);
    }
    hide TermRange, Has, InTerm, Extra;
  }

  /**
    Within the bounds a field denotes what its terms ask for if and only if every value
    that some wrapped term has besides is asked for by another.
    */
  lemma FieldPlainIff(field: string, min: int, max: int)
    requires 0 <= min <= max <= LARGEST
    ensures (forall v :: min <= v ==> (FieldDenotes(field, min, max, v) <==> FieldAsks(field, min, max, v)))
            <==> forall term, v :: term in Terms(field) && min <= v && HasExtra(term, min, max, v) ==>
                   FieldAsks(field, min, max, v)
  {
    forall term, v | min <= v
      ensures Denotes(term, min, max, v) <==> Asks(term, min, max, v) || HasExtra(term, min, max, v)
    {
      DenotesInPlain(term, min, max, v);
    }
    hide Denotes, Asks, HasExtra, Terms;
  }

  /** No two steps of a term come back into the bounds. */
  predicate PlainTerm(term: string, min: int, max: int) {
    var t := TermRange(term, min, max);
    t.Success? ==> t.value.lo + 2 * t.value.step < TURN + min
  }

  predicate PlainField(field: string, min: int, max: int) {
    forall term :: term in Terms(field) ==> PlainTerm(term, min, max)
  }

  lemma PlainFieldAsks(field: string, min: int, max: int, v: int)
    requires 0 <= min <= max <= LARGEST && PlainField(field, min, max) && min <= v
    ensures FieldDenotes(field, min, max, v) <==> FieldAsks(field, min, max, v)
  {
    forall term | term in Terms(field)
      ensures Denotes(term, min, max, v) <==> Asks(term, min, max, v)
    {
      if TermRange(term, min, max).Success? {
        TermRangeInBounds(term, min, max);
        PlainIff(TermRange(term, min, max).value, min);
      }
    }
    hide Denotes, Asks, Terms;
  }

  // ----- Parse -----

  function Shortcut(expr: string): Option<string> {
    if expr == "@yearly" || expr == "@annually" then Some("0 0 1 1 *")
    else if expr == "@monthly" then Some("0 0 1 * *")
    else if expr == "@weekly" then Some("0 0 * * 0")
    else if expr == "@daily" || expr == "@midnight" then Some("0 0 * * *")
    else if expr == "@hourly" then Some("0 * * * *")
    else None
  }

  const EVERY := "@every "

  /** The expression with surrounding space removed and a named shortcut spelled out. */
  function Canonical(expr: string): string {
    match Shortcut(TrimSpace(expr))
    case Some(spelled) => spelled
    case None => TrimSpace(expr)
  }

  lemma ShortcutEnds(expr: string)
    requires Shortcut(expr).Some?
    ensures var e := Shortcut(expr).value; e != "" && e[0] == '0' && (e[|e| - 1] == '*' || e[|e| - 1] == '0')
  {
  }

  lemma TrimsNothing(s: string)
    requires s != "" && !IsSpace(s[0]) && !IsSpace(s[|s| - 1])
    ensures TrimSpace(s) == s
  {
    hide IsSpace;
  }

  lemma ShortcutsAreTrimmed(expr: string)
    requires Shortcut(expr).Some?
    ensures var e := Shortcut(expr).value; TrimSpace(e) == e && e[0] == '0'
  {
    ShortcutEnds(expr);
    assert !IsSpace('0') && !IsSpace('*');
    hide Shortcut, IsSpace, TrimSpace;
    TrimsNothing(Shortcut(expr).value);
  }

  lemma ShortcutsAreCanonical(expr: string)
    requires Shortcut(expr).Some?
    ensures Canonical(Shortcut(expr).value) == Shortcut(expr).value
    ensures Shortcut(TrimSpace(Shortcut(expr).value)).None?
  {
    ShortcutsAreTrimmed(expr);
    hide TrimSpace;
  }

  /** What the five fields of an expression say about a minute, with no reference to the parser's lists. */
  predicate Says(fields: seq<string>, t: int)
    requires |fields| == 5
  {
    && FieldDenotes(fields[0], 0, 59, Calendar.MinuteOf(t))
    && FieldDenotes(fields[1], 0, 23, Calendar.HourOf(t))
    && FieldDenotes(fields[2], 1, 31, Calendar.MonthDayOf(t))
    && FieldDenotes(fields[3], 1, 12, Calendar.MonthOf(t))
    && FieldDenotes(fields[4], 0, 6, Calendar.WeekdayOf(t))
  }

  /** The same in plain arithmetic. */
  predicate SaysPlainly(fields: seq<string>, t: int)
    requires |fields| == 5
  {
    && FieldAsks(fields[0], 0, 59, Calendar.MinuteOf(t))
    && FieldAsks(fields[1], 0, 23, Calendar.HourOf(t))
    && FieldAsks(fields[2], 1, 31, Calendar.MonthDayOf(t))
    && FieldAsks(fields[3], 1, 12, Calendar.MonthOf(t))
    && FieldAsks(fields[4], 0, 6, Calendar.WeekdayOf(t))
  }

  /** When no two steps of a term come back into its bounds, wrapping around changes no answer. */
  lemma PlainFieldsSay(fields: seq<string>, t: int)
    requires |fields| == 5
    requires PlainField(fields[0], 0, 59) && PlainField(fields[1], 0, 23) && PlainField(fields[2], 1, 31)
    requires PlainField(fields[3], 1, 12) && PlainField(fields[4], 0, 6)
    ensures Says(fields, t) <==> SaysPlainly(fields, t)
  {
    hide PlainField, FieldDenotes, FieldAsks, Calendar.MinuteOf, Calendar.HourOf, Calendar.MonthOf, Calendar.MonthDayOf;
    hide Calendar.WeekdayOf;
    DayIsPositive(t);
    PlainFieldAsks(fields[0], 0, 59, Calendar.MinuteOf(t));
    PlainFieldAsks(fields[1], 0, 23, Calendar.HourOf(t));
    PlainFieldAsks(fields[2], 1, 31, Calendar.MonthDayOf(t));
    PlainFieldAsks(fields[3], 1, 12, Calendar.MonthOf(t));
    PlainFieldAsks(fields[4], 0, 6, Calendar.WeekdayOf(t));
  }

  lemma DayIsPositive(t: int)
    ensures Calendar.MonthDayOf(t) >= 1
  {
    Calendar.CivilRoundTrip(Calendar.DayOf(t));
  }

  predicate WellFormed(fields: seq<string>) {
    && |fields| == 5
    && WellFormedField(fields[0], 0, 59)
    && WellFormedField(fields[1], 0, 23)
    && WellFormedField(fields[2], 1, 31)
    && WellFormedField(fields[3], 1, 12)
    && WellFormedField(fields[4], 0, 6)
  }

  /** A wrapped step in the minute or month field puts an entry below the bounds where the search makes dates of it. */
  predicate SearchFieldWraps(fields: seq<string>)
    requires |fields| == 5
  {
    FieldWraps(fields[0], 0, 59) || FieldWraps(fields[3], 1, 12)
  }

  /**
    A five-field expression parses exactly when all its fields do; the schedule
    matches exactly the minutes the fields speak of, and the search can use it if and
    only if no minute or month step wraps.  `parseDuration` stands for time.ParseDuration.
    */
  method Parse(expr: string, parseDuration: string -> Option<int>) returns (r: Result<Schedule>)
    ensures var e := Canonical(expr);
            if HasPrefix(e, EVERY) then
              var d := parseDuration(e[|EVERY|..]);
              && (r.Success? <==> d.Some? && d.value > 0)
              && (r.Success? ==> r.value == Schedule([], [], [], [], [], d.value))
            else
              && (r.Success? <==> WellFormed(Fields(e)))
              && (r.Success? ==> r.value.every == 0)
              && (r.Success? ==> (FiveField(r.value) <==> !SearchFieldWraps(Fields(e))))
              && (r.Success? ==> forall t :: Matches(r.value, t) <==> Says(Fields(e), t))
    decreases Shortcut(TrimSpace(expr)).Some?
  {
    hide FieldDenotes, FieldWraps, WellFormedField, Calendar.MinuteOf, Calendar.HourOf, Calendar.MonthDayOf,
      Calendar.MonthOf, Calendar.WeekdayOf;
    var trimmed := TrimSpace(expr);
    if trimmed == "" {
      assert Fields("") == [];
      return Failure(EmptyExpression);
    }
    var spelled := Shortcut(trimmed);
    if spelled.Some? {
      ShortcutsAreCanonical(trimmed);
      r := Parse(spelled.value, parseDuration);
      return;
    }
    if HasPrefix(trimmed, EVERY) {
      var d := parseDuration(trimmed[|EVERY|..]);
      match d {
        case None => return Failure(InvalidDuration);
        case Some(every) =>
          if every <= 0 {
            return Failure(DurationNotPositive);
          }
          return Success(Schedule([], [], [], [], [], every));
      }
    }
    var fields := Fields(trimmed);
    if |fields| != 5 {
      return Failure(WrongFieldCount);
    }
    var minutes := ParseField(fields[0], 0, 59);
    if minutes.Failure? {
      return Failure(minutes.error);
    }
    var hours := ParseField(fields[1], 0, 23);
    if hours.Failure? {
      return Failure(hours.error);
    }
    var days := ParseField(fields[2], 1, 31);
    if days.Failure? {
      return Failure(days.error);
    }
    var months := ParseField(fields[3], 1, 12);
    if months.Failure? {
      return Failure(months.error);
    }
    var weekdays := ParseField(fields[4], 0, 6);
    if weekdays.Failure? {
      return Failure(weekdays.error);
    }
    return Success(Schedule(minutes.value, hours.value, days.value, months.value, weekdays.value, 0));
  }

  // ----- What the text of an expression says -----

  /** Nothing but the spelling of `@every` and of the shortcuts stands between a text and its words. */
  lemma CanonicalOfSpaced(words: seq<string>, gaps: seq<string>)
    requires WellSpaced(words, gaps) && |words| > 1
    ensures var text := Spaced(words, gaps);
            && Canonical(text) == TrimSpace(text) && Fields(Canonical(text)) == words
            && (words[0] != "@every" ==> !HasPrefix(Canonical(text), EVERY))
  {
    var text := Spaced(words, gaps);
    hide Fields, TrimSpace, Spaced, WellSpaced, IsSpace, Canonical, HasPrefix;
    TrimSpaceOfSpaced(words, gaps);
    if Shortcut(TrimSpace(text)).Some? {
      ShortcutIsOneWord(TrimSpace(text));
      assert false;
    }
    CanonicalUnlessShortcut(text);
    if HasPrefix(TrimSpace(text), EVERY) {
      EveryIsFirstWord(TrimSpace(text));
    }
  }

  lemma CanonicalUnlessShortcut(expr: string)
    requires Shortcut(TrimSpace(expr)).None?
    ensures Canonical(expr) == TrimSpace(expr)
  {
  }

  lemma ShortcutIsOneWord(s: string)
    requires Shortcut(s).Some?
    ensures |Fields(s)| == 1
  {
    PrintableIsNoSpace(s);
    FieldsOfWord(s);
  }

  lemma EveryIsFirstWord(s: string)
    requires HasPrefix(s, EVERY)
    ensures |Fields(s)| > 0 && Fields(s)[0] == "@every"
  {
    var word, rest := "@every", s[6..];
    PrintableIsNoSpace(word);
    assert s == "" + word + rest && rest[0] == ' ';
    assert IsSpace(' ') && AllSpace("");
    hide IsSpace, Fields, NoSpace, AllSpace;
    FieldsOfFirst("", word, rest);
  }

  /**
    An expression of five words, spaced in any way, is read in their order: minute,
    hour, day of month, month, weekday.  With another number of words, and no
    `@every`, it does not parse.
    */
  lemma WordsAreRead(words: seq<string>, gaps: seq<string>, t: int)
    requires WellSpaced(words, gaps) && |words| > 1 && words[0] != "@every"
    ensures var fields := Fields(Canonical(Spaced(words, gaps)));
            && !HasPrefix(Canonical(Spaced(words, gaps)), EVERY)
            && (WellFormed(fields)
                <==> |words| == 5
                     && WellFormedField(words[0], 0, 59) && WellFormedField(words[1], 0, 23)
                     && WellFormedField(words[2], 1, 31) && WellFormedField(words[3], 1, 12)
                     && WellFormedField(words[4], 0, 6))
            && (WellFormed(fields) ==>
                 (Says(fields, t)
                  <==> FieldDenotes(words[0], 0, 59, Calendar.MinuteOf(t))
                       && FieldDenotes(words[1], 0, 23, Calendar.HourOf(t))
                       && FieldDenotes(words[2], 1, 31, Calendar.MonthDayOf(t))
                       && FieldDenotes(words[3], 1, 12, Calendar.MonthOf(t))
                       && FieldDenotes(words[4], 0, 6, Calendar.WeekdayOf(t))))
  {
    CanonicalOfSpaced(words, gaps);
    hide Fields, Canonical, Spaced, WellSpaced, WellFormedField, FieldDenotes, HasPrefix;
  }

  // What the named shortcuts say.

  lemma StarDenotes(min: int, max: int, v: int)
    requires 0 <= min <= max <= LARGEST
    ensures FieldDenotes("*", min, max, v) <==> min <= v <= max
    ensures WellFormedField("*", min, max)
  {
    OneTermField("*", min, max, v);
    var t := Term(min, max, 1);
    assert TermRange("*", min, max) == Success(t);
    ModOne(v - min);
    assert Has(t, v) <==> min <= v <= max;
  }

  lemma ModOne(n: int)
    ensures n % 1 == 0
  {
  }

  lemma DigitDenotes(d: int, min: int, max: int, v: int)
    requires 0 <= min <= d <= max <= LARGEST && d <= 9
    ensures FieldDenotes([DigitChar(d)], min, max, v) <==> v == d
    ensures WellFormedField([DigitChar(d)], min, max)
  {
    var term, t := [DigitChar(d)], Term(d, d, 1);
    OneTermField(term, min, max, v);
    assert Itoa(d) == term;
    AtoiOfItoa(d);
    hide Atoi, Itoa;
    assert term[0] == DigitChar(d) && forall c :: c in term ==> c == DigitChar(d);
    assert '/' !in term && '-' !in term && term != "*";
    assert TermRange(term, min, max) == Success(t);
    ModOne(v - d);
  }

  lemma OneTermField(term: string, min: int, max: int, v: int)
    requires 0 <= min <= max && ',' !in term
    ensures FieldDenotes(term, min, max, v) <==> Denotes(term, min, max, v)
    ensures WellFormedField(term, min, max) <==> TermRange(term, min, max).Success?
  {
    SplitPlain(term, ',');
    assert Terms(term) == [term];
    assert term in Terms(term);
    hide TermRange, Denotes, Split;
  }

  /** The shortcuts name the first minute of each year, month, week (Sunday), day and hour. */
  lemma ShortcutsMean(name: string, t: int)
    requires Shortcut(name).Some?
    ensures var fields := Fields(Canonical(name));
            && !HasPrefix(Canonical(name), EVERY) && WellFormed(fields)
            && (Says(fields, t)
                <==> && Calendar.MinuteOf(t) == 0
                     && (name != "@hourly" ==> Calendar.HourOf(t) == 0)
                     && (name == "@weekly" ==> Calendar.WeekdayOf(t) == 0)
                     && (name in {"@monthly", "@yearly", "@annually"} ==> Calendar.MonthDayOf(t) == 1)
                     && (name in {"@yearly", "@annually"} ==> Calendar.MonthOf(t) == 1))
  {
    var dated, yearly := name in {"@monthly", "@yearly", "@annually"}, name in {"@yearly", "@annually"};
    var fields := Plain(name == "@hourly", dated, yearly, name == "@weekly");
    ShortcutSpelled(name, fields[1], fields[2], fields[3], fields[4]);
    PlainSays(name == "@hourly", dated, yearly, name == "@weekly", t);
    hide Fields, Canonical, Says, WellFormed, HasPrefix, Shortcut;
    hide Calendar.MinuteOf, Calendar.HourOf, Calendar.MonthOf, Calendar.MonthDayOf, Calendar.WeekdayOf;
  }

  function Plain(hourly: bool, dated: bool, yearly: bool, weekly: bool): (fields: seq<string>)
    ensures |fields| == 5
  {
    ["0", if hourly then "*" else "0", if dated then "1" else "*", if yearly then "1" else "*",
     if weekly then "0" else "*"]
  }

  lemma PlainSays(hourly: bool, dated: bool, yearly: bool, weekly: bool, t: int)
    ensures var fields := Plain(hourly, dated, yearly, weekly);
            && WellFormed(fields)
            && (Says(fields, t)
                <==> && Calendar.MinuteOf(t) == 0
                     && (!hourly ==> Calendar.HourOf(t) == 0)
                     && (weekly ==> Calendar.WeekdayOf(t) == 0)
                     && (dated ==> Calendar.MonthDayOf(t) == 1)
                     && (yearly ==> Calendar.MonthOf(t) == 1))
  {
    hide FieldDenotes, WellFormedField;
    hide Calendar.MinuteOf, Calendar.HourOf, Calendar.MonthOf, Calendar.MonthDayOf, Calendar.WeekdayOf;
    assert "0" == [DigitChar(0)] && "1" == [DigitChar(1)];
    DigitDenotes(0, 0, 59, Calendar.MinuteOf(t));
    DigitDenotes(0, 0, 23, Calendar.HourOf(t));
    StarDenotes(0, 23, Calendar.HourOf(t));
    DigitDenotes(1, 1, 31, Calendar.MonthDayOf(t));
    StarDenotes(1, 31, Calendar.MonthDayOf(t));
    DigitDenotes(1, 1, 12, Calendar.MonthOf(t));
    StarDenotes(1, 12, Calendar.MonthOf(t));
    DigitDenotes(0, 0, 6, Calendar.WeekdayOf(t));
    StarDenotes(0, 6, Calendar.WeekdayOf(t));
    DayInMonth(t);
  }

  lemma DayInMonth(t: int)
    ensures 1 <= Calendar.MonthDayOf(t) <= 31
  {
    Calendar.CivilRoundTrip(Calendar.DayOf(t));
  }

  lemma ShortcutSpelled(name: string, hour: string, day: string, month: string, weekday: string)
    requires Shortcut(name).Some?
    requires hour == if name == "@hourly" then "*" else "0"
    requires day == if name in {"@monthly", "@yearly", "@annually"} then "1" else "*"
    requires month == if name in {"@yearly", "@annually"} then "1" else "*"
    requires weekday == if name == "@weekly" then "0" else "*"
    ensures Fields(Canonical(name)) == ["0", hour, day, month, weekday]
    ensures !HasPrefix(Canonical(name), EVERY)
  {
    PrintableIsNoSpace(name);
    TrimsNothing(name);
    assert Canonical(name) == Shortcut(name).value;
    ShortcutIsFive(name, hour, day, month, weekday);
    PrintableIsNoSpace("0");
    PrintableIsNoSpace("1");
    PrintableIsNoSpace("*");
    hide Fields, NoSpace, FiveWords;
    FieldsOfFive("0", hour, day, month, weekday);
  }

  lemma ShortcutIsFive(name: string, hour: string, day: string, month: string, weekday: string)
    requires Shortcut(name).Some?
    requires hour == if name == "@hourly" then "*" else "0"
    requires day == if name in {"@monthly", "@yearly", "@annually"} then "1" else "*"
    requires month == if name in {"@yearly", "@annually"} then "1" else "*"
    requires weekday == if name == "@weekly" then "0" else "*"
    ensures Shortcut(name).value == FiveWords("0", hour, day, month, weekday)
    ensures !HasPrefix(Shortcut(name).value, EVERY)
  {
    assert Shortcut(name).value[0] == '0';
  }
}
