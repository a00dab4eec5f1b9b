/**
  Event type patterns of internal/nervous/filters.go.

  `Glob` is the meaning of a pattern, character by character: '*' stands for any
  string and every other character for itself.  The code never looks at a
  pattern that way: it splits it at the stars and searches for the pieces
  greedily, from the left, with two shortcuts for common shapes.
  */
module GlobFilter {
  import opened Strings

  ghost predicate Glob(pattern: string, text: string) {
    if pattern == "" then text == ""
    else if pattern[0] == '*' then exists k :: 0 <= k <= |text| && Glob(pattern[1..], text[k..])
    else text != "" && text[0] == pattern[0] && Glob(pattern[1..], text[1..])
  }

  predicate OccursAt(text: string, part: string, k: int) {
    0 <= k <= |text| - |part| && text[k..k + |part|] == part
  }

  /** Some gap, then parts[0], some gap, parts[1], ..., and the last part at the very end. */
  ghost predicate Pieces(parts: seq<string>, text: string)
    requires parts != []
    decreases |parts|, 1
  {
    exists k :: OccursAt(text, parts[0], k) && PiecesAfter(parts, text, k)
  }

  /** What must follow when parts[0] is placed at k. */
  ghost predicate PiecesAfter(parts: seq<string>, text: string, k: int)
    requires parts != [] && OccursAt(text, parts[0], k)
    decreases |parts|, 0
  {
    if |parts| == 1 then k + |parts[0]| == |text| else Pieces(parts[1..], text[k + |parts[0]|..])
  }

  // ----- A pattern means what its pieces mean -----

  lemma {:induction false} GlobOfLiteral(lit: string, text: string)
    requires '*' !in lit
    ensures Glob(lit, text) <==> text == lit
  {
    if lit != "" {
      assert lit[0] in lit;
      if text != "" && text[0] == lit[0] {
        GlobOfLiteral(lit[1..], text[1..]);
        assert text == [text[0]] + text[1..] && lit == [lit[0]] + lit[1..];
      }
    }
  }

  lemma {:induction false} GlobOfLiteralThen(lit: string, pattern: string, text: string)
    requires '*' !in lit
    ensures Glob(lit + pattern, text) <==> HasPrefix(text, lit) && Glob(pattern, text[|lit|..])
  {
    if lit == "" {
      assert lit + pattern == pattern && text[0..] == text;
    } else {
      assert lit[0] in lit;
      assert (lit + pattern)[1..] == lit[1..] + pattern;
      if text != "" {
        GlobOfLiteralThen(lit[1..], pattern, text[1..]);
        if |lit| <= |text| {
          assert text[1..][|lit| - 1..] == text[|lit|..];
          assert text[..|lit|] == [text[0]] + text[1..][..|lit| - 1];
          assert lit == [lit[0]] + lit[1..];
        }
      }
    }
  }

  lemma {:induction false} GlobOfStarThen(parts: seq<string>, text: string)
    requires parts != [] && forall p :: p in parts ==> '*' !in p
    ensures Glob("*" + Join(parts, '*'), text) <==> Pieces(parts, text)
    decreases |parts|, 1
  {
    var rest := Join(parts, '*');
    assert ("*" + rest)[1..] == rest;
    forall k | 0 <= k <= |text|
      ensures Glob(rest, text[k..]) <==> OccursAt(text, parts[0], k) && PiecesAfter(parts, text, k)
    {
      GlobAt(parts, text, k);
    }
    assert Glob("*" + rest, text) <==> exists k :: 0 <= k <= |text| && Glob(rest, text[k..]);
  }

  lemma {:induction false} GlobAt(parts: seq<string>, text: string, k: nat)
    requires parts != [] && forall p :: p in parts ==> '*' !in p
    requires k <= |text|
    ensures Glob(Join(parts, '*'), text[k..]) <==> OccursAt(text, parts[0], k) && PiecesAfter(parts, text, k)
    decreases |parts|, 0
  {
    var lit := parts[0];
    if |parts| == 1 {
      GlobOfLiteral(lit, text[k..]);
      if k + |lit| == |text| {
        assert text[k..] == text[k..k + |lit|];
      }
    } else {
      var tail := "*" + Join(parts[1..], '*');
      assert Join(parts, '*') == lit + tail;
      GlobOfLiteralThen(lit, tail, text[k..]);
      if k <= |text| - |lit| {
        assert text[k..][..|lit|] == text[k..k + |lit|];
        assert text[k..][|lit|..] == text[k + |lit|..];
        GlobOfStarThen(parts[1..], text[k + |lit|..]);
      }
    }
  }

  /** A pattern with a star: its first piece at the front, the others after gaps. */
  lemma GlobOfParts(pattern: string, text: string)
    requires '*' in pattern
    ensures var parts := Split(pattern, '*');
            && |parts| >= 2
            && (Glob(pattern, text) <==> HasPrefix(text, parts[0]) && Pieces(parts[1..], text[|parts[0]|..]))
  {
    var parts := Split(pattern, '*');
    JoinOfSplit(pattern, '*');
    SplitHasNoSep(pattern, '*');
    var tail := "*" + Join(parts[1..], '*');
    assert pattern == parts[0] + tail;
    GlobOfLiteralThen(parts[0], tail, text);
    if HasPrefix(text, parts[0]) {
      GlobOfStarThen(parts[1..], text[|parts[0]|..]);
    }
  }

  // ----- Searching from the left loses nothing -----

  /** strings.Index: the leftmost occurrence of part in text, or -1. */
  function Index(text: string, part: string): (i: int)
    ensures i == -1 ==> forall k :: !OccursAt(text, part, k)
    ensures i != -1 ==> OccursAt(text, part, i) && forall k :: OccursAt(text, part, k) ==> i <= k
  {
    IndexFrom(text, part, 0)
  }

  function IndexFrom(text: string, part: string, from: nat): (i: int)
    requires forall k :: OccursAt(text, part, k) ==> from <= k
    ensures i == -1 ==> forall k :: !OccursAt(text, part, k)
    ensures i != -1 ==> OccursAt(text, part, i) && forall k :: OccursAt(text, part, k) ==> i <= k
    decreases |text| - from
  {
    if from > |text| - |part| then -1
    else if OccursAt(text, part, from) then from
    else IndexFrom(text, part, from + 1)
  }

  lemma SliceOfDrop(text: string, d: nat, a: nat, b: nat)
    requires a <= b && d + b <= |text|
    ensures text[d..][a..b] == text[d + a..d + b]
  {
    assert forall i :: 0 <= i < b - a ==> text[d..][a..b][i] == text[d + a + i];
  }

  /** The pieces still fit when there is more text in front of them. */
  lemma PiecesExtendLeft(parts: seq<string>, text: string, d: nat)
    requires parts != [] && d <= |text| && Pieces(parts, text[d..])
    ensures Pieces(parts, text)
  {
    var lit, short := parts[0], text[d..];
    var k :| OccursAt(short, lit, k) && PiecesAfter(parts, short, k);
    SliceOfDrop(text, d, k, k + |lit|);
    assert OccursAt(text, lit, d + k);
    assert short[k + |lit|..] == text[d + k + |lit|..];
  }

  /** Exchange: if the pieces fit at all, they fit with the first one at its leftmost place. */
  lemma LeftmostSuffices(parts: seq<string>, text: string)
    requires |parts| >= 2
    ensures var i := Index(text, parts[0]);
            Pieces(parts, text) <==> i != -1 && Pieces(parts[1..], text[i + |parts[0]|..])
  {
    var lit := parts[0];
    var i := Index(text, lit);
    if Pieces(parts, text) {
      var k :| OccursAt(text, lit, k) && PiecesAfter(parts, text, k);
      assert text[i + |lit|..][k - i..] == text[k + |lit|..];
      PiecesExtendLeft(parts[1..], text[i + |lit|..], k - i);
    } else if i != -1 {
      assert !PiecesAfter(parts, text, i);
    }
  }

  lemma LastPieceIsSuffix(part: string, text: string)
    ensures Pieces([part], text) <==> HasSuffix(text, part)
  {
    if HasSuffix(text, part) {
      var k := |text| - |part|;
      assert text[k..k + |part|] == text[k..];
      assert OccursAt(text, part, k) && PiecesAfter([part], text, k);
    }
    if Pieces([part], text) {
      var k :| OccursAt(text, part, k) && PiecesAfter([part], text, k);
      assert text[k..] == text[k..k + |part|];
    }
  }

  /**
    `matchGlob`: correct for every pattern that holds a star, which is when it is
    called.  Without one the single piece is both first and last.
    */
  method MatchGlob(pattern: string, text: string) returns (matched: bool)
    ensures '*' in pattern ==> matched == Glob(pattern, text)
    ensures '*' !in pattern ==> matched == (HasPrefix(text, pattern) && HasSuffix(text[|pattern|..], pattern))
  {
    if pattern == "*" {
      GlobOfStarThen([""], text);
      LastPieceIsSuffix("", text);
      assert "*" + Join([""], '*') == pattern;
      return true;
    }
    var parts := Split(pattern, '*');
    if '*' in pattern {
      GlobOfParts(pattern, text);
    } else {
      SplitPlain(pattern, '*');
    }
    if !HasPrefix(text, parts[0]) {
      return false;
    }
    var rest := text[|parts[0]|..];
    var i := 1;
    while i < |parts| - 1
      invariant 1 <= i && (|parts| >= 2 ==> i <= |parts| - 1)
      invariant '*' !in pattern ==> i == 1 && rest == text[|parts[0]|..]
      invariant '*' in pattern ==> (Glob(pattern, text) <==> Pieces(parts[i..], rest))
    {
      assert parts[i..][1..] == parts[i + 1..];
      LeftmostSuffices(parts[i..], rest);
      var idx := Index(rest, parts[i]);
      if idx < 0 {
        return false;
      }
      rest := rest[idx + |parts[i]|..];
      i := i + 1;
    }
    if '*' in pattern {
      assert parts[i..] == [parts[|parts| - 1]];
      LastPieceIsSuffix(parts[|parts| - 1], rest);
    }
    return HasSuffix(rest, parts[|parts| - 1]);
  }

  /** strings.Count(s, c) == 1. */
  predicate ExactlyOne(s: string, c: char) {
    c in s && c !in s[IndexChar(s, c) + 1..]
  }

  /** "prefix.*": one star, at the end. */
  lemma TrailingStar(prefix: string, text: string)
    requires '*' !in prefix
    ensures Glob(prefix + "*", text) <==> HasPrefix(text, prefix)
  {
    GlobOfLiteralThen(prefix, "*", text);
    if HasPrefix(text, prefix) {
      var rest := text[|prefix|..];
      GlobOfLiteral("", rest[|rest|..]);
      assert "*"[1..] == "";
    }
  }

  /** "*.suffix": one star, at the front. */
  lemma LeadingStar(suffix: string, text: string)
    requires '*' !in suffix
    ensures Glob("*" + suffix, text) <==> HasSuffix(text, suffix)
  {
    GlobOfStarThen([suffix], text);
    LastPieceIsSuffix(suffix, text);
  }

  /** `MatchEventType`: whichever path it takes, the answer is the pattern's meaning. */
  method MatchEventType(pattern: string, eventType: string) returns (matched: bool)
    ensures matched == Glob(pattern, eventType)
  {
    if pattern == "*" {
      LeadingStar("", eventType);
      assert "*" + "" == pattern;
      return true;
    }
    if '*' !in pattern {
      GlobOfLiteral(pattern, eventType);
      return pattern == eventType;
    }
    if HasSuffix(pattern, ".*") && ExactlyOne(pattern, '*') {
      var prefix := pattern[..|pattern| - 1];
      assert pattern == prefix + "*";
      OneStarAtEnd(pattern);
      TrailingStar(prefix, eventType);
      return HasPrefix(eventType, prefix);
    }
    if HasPrefix(pattern, "*.") && ExactlyOne(pattern, '*') {
      var suffix := pattern[1..];
      assert pattern == "*" + suffix;
      assert IndexChar(pattern, '*') == 0;
      LeadingStar(suffix, eventType);
      return HasSuffix(eventType, suffix);
    }
    matched := MatchGlob(pattern, eventType);
  }

  lemma OneStarAtEnd(pattern: string)
    requires pattern != "" && pattern[|pattern| - 1] == '*' && ExactlyOne(pattern, '*')
    ensures '*' !in pattern[..|pattern| - 1]
  {
    var i := IndexChar(pattern, '*');
    AbsentFromSuffix(pattern, i + 1, '*');
  }

  lemma AbsentFromSuffix(s: string, from: nat, c: char)
    requires from <= |s| && c !in s[from..]
    ensures forall j :: from <= j < |s| ==> s[j] != c
  {
    forall j | from <= j < |s|
      ensures s[j] != c
    {
      assert s[from..][j - from] == s[j];
    }
  }
}
