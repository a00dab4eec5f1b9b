/**
  The functions of Go's strings and strconv packages that the modelled code
  calls, on strings as sequences of characters.
  */
module Strings {

  datatype Option<+T> = None | Some(value: T)

  predicate HasPrefix(s: string, prefix: string) {
    |prefix| <= |s| && s[..|prefix|] == prefix
  }

  predicate HasSuffix(s: string, suffix: string) {
    |suffix| <= |s| && s[|s| - |suffix|..] == suffix
  }

  /** The leftmost position of c, or -1. */
  function IndexChar(s: string, c: char): (i: int)
    ensures i == -1 <==> c !in s
    ensures i != -1 ==> 0 <= i < |s| && s[i] == c && c !in s[..i]
  {
    if s == [] then -1
    else if s[0] == c then 0
    else
      var i := IndexChar(s[1..], c);
      if i == -1 then -1
      else assert s[..i + 1] == [s[0]] + s[1..][..i]; i + 1
  }

  function Split(s: string, sep: char): (parts: seq<string>)
    ensures parts != []
  {
    if s == [] then [""]
    else
      var rest := Split(s[1..], sep);
      if s[0] == sep then [""] + rest
      else [[s[0]] + rest[0]] + rest[1..]
  }

  function Join(parts: seq<string>, sep: char): string
    requires parts != []
  {
    if |parts| == 1 then parts[0] else parts[0] + [sep] + Join(parts[1..], sep)
  }

  lemma {:induction false} JoinOfSplit(s: string, sep: char)
    ensures Join(Split(s, sep), sep) == s
  {
    if s != [] {
      JoinOfSplit(s[1..], sep);
      var rest := Split(s[1..], sep);
      if s[0] != sep {
        assert ([[s[0]] + rest[0]] + rest[1..])[1..] == rest[1..];
      } else {
        assert ([""] + rest)[1..] == rest;
      }
    }
  }

  lemma {:induction false} SplitHasNoSep(s: string, sep: char)
    ensures forall p :: p in Split(s, sep) ==> sep !in p
  {
    if s != [] {
      SplitHasNoSep(s[1..], sep);
      var rest := Split(s[1..], sep);
      assert rest[0] in rest;
      forall p | p in Split(s, sep)
        ensures sep !in p
      {
        assert p == "" || p in rest || p == [s[0]] + rest[0];
      }
    }
  }

  lemma {:induction false} SplitPlain(s: string, sep: char)
    requires sep !in s
    ensures Split(s, sep) == [s]
  {
    if s != [] {
      SplitPlain(s[1..], sep);
      assert s[0] in s;
      assert [s[0]] + s[1..] == s;
    }
  }

  lemma {:induction false} SplitFirst(s: string, rest: string, sep: char)
    requires sep !in s
    ensures Split(s + [sep] + rest, sep) == [s] + Split(rest, sep)
  {
    var all := s + [sep] + rest;
    if s == [] {
      assert all[1..] == rest;
    } else {
      assert all[1..] == s[1..] + [sep] + rest;
      SplitFirst(s[1..], rest, sep);
      assert s[0] in s;
      assert [s[0]] + s[1..] == s;
    }
  }

  /** Splitting undoes joining when no part holds the separator. */
  lemma {:induction false} SplitOfJoin(parts: seq<string>, sep: char)
    requires parts != []
    requires forall p :: p in parts ==> sep !in p
    ensures Split(Join(parts, sep), sep) == parts
  {
    if |parts| == 1 {
      SplitPlain(parts[0], sep);
    } else {
      SplitOfJoin(parts[1..], sep);
      SplitFirst(parts[0], Join(parts[1..], sep), sep);
    }
  }

  // ----- strconv.Atoi -----

  const MAX_INT: int := 0x7FFF_FFFF_FFFF_FFFF
  const MIN_INT: int := -0x8000_0000_0000_0000

  /** 64-bit wrap-around, as Go's int arithmetic has it. */
  function WrapInt(n: int): (r: int)
    ensures MIN_INT <= r <= MAX_INT
    ensures MIN_INT <= n <= MAX_INT ==> r == n
  {
    (n - MIN_INT) % 0x1_0000_0000_0000_0000 + MIN_INT
  }

  /** Wrapping a sum early makes no difference in the end. */
  lemma WrapPlus(n: int, d: int)
    ensures WrapInt(WrapInt(n) + d) == WrapInt(n + d)
  {
  }

  predicate IsDigit(c: char) { '0' <= c <= '9' }

  predicate AllDigits(s: string) { forall c :: c in s ==> IsDigit(c) }

  function DigitsValue(s: string): (n: int)
    requires AllDigits(s)
    ensures n >= 0
  {
    if s == [] then 0
    else
      assert s[|s| - 1] in s;
      DigitsValue(s[..|s| - 1]) * 10 + (s[|s| - 1] as int - '0' as int)
  }

  /** An optional sign, then at least one digit, in the range of a 64-bit int. */
  function Atoi(s: string): (r: Option<int>)
    ensures r.Some? ==> MIN_INT <= r.value <= MAX_INT
  {
    var signed := s != [] && (s[0] == '+' || s[0] == '-');
    var digits := if signed then s[1..] else s;
    if digits == [] || !AllDigits(digits) then None
    else
      var n := if signed && s[0] == '-' then -DigitsValue(digits) else DigitsValue(digits);
      if MIN_INT <= n <= MAX_INT then Some(n) else None
  }

  /** How a number may be written: an optional sign and digits, and no more than 64 bits. */
  ghost predicate Numeral(s: string, n: int) {
    MIN_INT <= n <= MAX_INT && exists sign, digits :: Signed(s, sign, digits, n)
  }

  predicate Signed(s: string, sign: string, digits: string, n: int) {
    && s == sign + digits && (sign == "" || sign == "+" || sign == "-")
    && digits != "" && AllDigits(digits)
    && n == if sign == "-" then -DigitsValue(digits) else DigitsValue(digits)
  }

  lemma AtoiIff(s: string, n: int)
    ensures Atoi(s) == Some(n) <==> Numeral(s, n)
  {
    if Atoi(s) == Some(n) {
      var signed := s[0] == '+' || s[0] == '-';
      assert Signed(s, if signed then s[..1] else "", if signed then s[1..] else s, n);
    }
    forall sign, digits | Signed(s, sign, digits, n) && MIN_INT <= n <= MAX_INT
      ensures Atoi(s) == Some(n)
    {
      assert digits[0] in digits;
      assert sign != "" ==> s[0] == sign[0] && s[1..] == digits;
      assert sign == "" ==> s == digits;
    }
  }

  /** The leftmost position splits a string in one way only. */
  lemma IndexOfFirst(a: string, c: char, b: string)
    requires c !in a
    ensures IndexChar(a + [c] + b, c) == |a|
  {
    var s := a + [c] + b;
    var i := IndexChar(s, c);
    assert s[|a|] == c && c in s;
    assert forall k :: 0 <= k < |a| ==> s[k] == a[k] && a[k] in a;
    assert forall k :: 0 <= k < i ==> s[..i][k] == s[k] && s[..i][k] in s[..i];
  }

  function DigitChar(d: int): (c: char)
    requires 0 <= d <= 9
    ensures IsDigit(c) && c as int == '0' as int + d
  {
    ('0' as int + d) as char
  }

  /** The decimal notation of n. */
  function Itoa(n: nat): (s: string)
    ensures s != []
  {
    if n < 10 then [DigitChar(n)] else Itoa(n / 10) + [DigitChar(n % 10)]
  }

  lemma {:induction false} DigitsOfItoa(n: nat)
    ensures AllDigits(Itoa(n)) && DigitsValue(Itoa(n)) == n
    ensures n > 0 ==> Itoa(n)[0] != '0'
  {
    if n >= 10 {
      DigitsOfItoa(n / 10);
      assert Itoa(n)[..|Itoa(n)| - 1] == Itoa(n / 10);
    } else {
      assert Itoa(n)[..0] == [];
    }
  }

  lemma AtoiOfItoa(n: nat)
    requires n <= MAX_INT
    ensures Atoi(Itoa(n)) == Some(n)
  {
    DigitsOfItoa(n);
    assert Itoa(n)[0] in Itoa(n);
  }

  // ----- White space -----

  /** unicode.IsSpace. */
  predicate IsSpace(c: char) {
    c in "\t\n\U{0B}\U{0C}\r \U{85}\U{A0}\U{1680}\U{2028}\U{2029}\U{202F}\U{205F}\U{3000}"
    || '\U{2000}' <= c <= '\U{200A}'
  }

  function TrimLeft(s: string): string {
    if s != [] && IsSpace(s[0]) then TrimLeft(s[1..]) else s
  }

  function TrimRight(s: string): string {
    if s != [] && IsSpace(s[|s| - 1]) then TrimRight(s[..|s| - 1]) else s
  }

  function TrimSpace(s: string): string { TrimRight(TrimLeft(s)) }

  /** The maximal runs of characters that are not white space. */
  function Fields(s: string): seq<string>
    decreases |s|
  {
    var rest := TrimLeft(s);
    if rest == [] then []
    else
      var n := WordLength(rest);
      TrimLeftShortens(s);
      [rest[..n]] + Fields(rest[n..])
  }

  function WordLength(s: string): (n: nat)
    ensures n <= |s|
    ensures s != [] && !IsSpace(s[0]) ==> n > 0
  {
    if s == [] || IsSpace(s[0]) then 0 else 1 + WordLength(s[1..])
  }

  lemma TrimLeftShortens(s: string)
    ensures |TrimLeft(s)| <= |s|
    ensures TrimLeft(s) != [] ==> !IsSpace(TrimLeft(s)[0])
  {
  }

  predicate AllSpace(s: string) { forall c :: c in s ==> IsSpace(c) }

  predicate NoSpace(s: string) { forall c :: c in s ==> !IsSpace(c) }

  /** Words between runs of white space: the first run, a word, the next run, ..., the last run. */
  function Spaced(words: seq<string>, gaps: seq<string>): string
    requires |gaps| == |words| + 1
  {
    if words == [] then gaps[0] else gaps[0] + words[0] + Spaced(words[1..], gaps[1..])
  }

  /** Only the outer runs may be empty. */
  predicate WellSpaced(words: seq<string>, gaps: seq<string>) {
    && |gaps| == |words| + 1
    && (forall w :: w in words ==> w != "" && NoSpace(w))
    && (forall g :: g in gaps ==> AllSpace(g))
    && (forall i :: 0 < i < |words| ==> gaps[i] != "")
  }

  lemma {:induction false} TrimLeftOfSpace(gap: string, rest: string)
    requires AllSpace(gap) && (rest == "" || !IsSpace(rest[0]))
    ensures TrimLeft(gap + rest) == rest
  {
    hide IsSpace;
    if gap == "" {
      assert gap + rest == rest;
    } else {
      assert gap[0] in gap;
      assert (gap + rest)[1..] == gap[1..] + rest;
      TrimLeftOfSpace(gap[1..], rest);
    }
  }

  lemma {:induction false} WordLengthOfWord(word: string, rest: string)
    requires NoSpace(word) && (rest == "" || IsSpace(rest[0]))
    ensures WordLength(word + rest) == |word|
  {
    hide IsSpace;
    if word == "" {
      assert word + rest == rest;
    } else {
      assert word[0] in word;
      assert (word + rest)[1..] == word[1..] + rest;
      WordLengthOfWord(word[1..], rest);
    }
  }

  lemma FieldsOfSpace(gap: string)
    requires AllSpace(gap)
    ensures Fields(gap) == []
  {
    TrimLeftOfSpace(gap, "");
    assert gap + "" == gap;
  }

  lemma FieldsOfFirst(gap: string, word: string, rest: string)
    requires AllSpace(gap) && word != "" && NoSpace(word) && (rest == "" || IsSpace(rest[0]))
    ensures Fields(gap + word + rest) == [word] + Fields(rest)
  {
    hide IsSpace;
    var s, trimmed := gap + word + rest, word + rest;
    assert word[0] in word && trimmed[0] == word[0];
    assert s == gap + trimmed;
    TrimLeftOfSpace(gap, trimmed);
    WordLengthOfWord(word, rest);
    assert trimmed[..|word|] == word && trimmed[|word|..] == rest;
  }

  lemma SpacedStartsWithGap(words: seq<string>, gaps: seq<string>)
    requires |gaps| == |words| + 1 && gaps[0] != ""
    ensures Spaced(words, gaps) != "" && Spaced(words, gaps)[0] == gaps[0][0]
  {
  }

  /** Fields finds exactly the words, in order, however they are spaced. */
  lemma {:induction false} FieldsOfSpaced(words: seq<string>, gaps: seq<string>)
    requires WellSpaced(words, gaps)
    ensures Fields(Spaced(words, gaps)) == words
  {
    hide IsSpace;
    if words == [] {
      FieldsOfSpace(gaps[0]);
    } else {
      var rest := Spaced(words[1..], gaps[1..]);
      LaterAreSpaced(words, gaps);
      FieldsOfSpaced(words[1..], gaps[1..]);
      if gaps[1] != "" {
        SpacedStartsWithGap(words[1..], gaps[1..]);
        assert gaps[1][0] in gaps[1] && gaps[1] in gaps;
      } else {
        assert words[1..] == [];
      }
      assert words[0] in words && gaps[0] in gaps;
      FieldsOfFirst(gaps[0], words[0], rest);
    }
  }

  lemma LaterAreSpaced(words: seq<string>, gaps: seq<string>)
    requires WellSpaced(words, gaps) && words != []
    ensures WellSpaced(words[1..], gaps[1..])
  {
    hide IsSpace, AllSpace, NoSpace;
  }

  /** Every text is some words in some spacing. */
  lemma {:induction false} EveryTextIsSpaced(s: string) returns (gaps: seq<string>)
    ensures WellSpaced(Fields(s), gaps) && s == Spaced(Fields(s), gaps)
    decreases |s|
  {
    hide IsSpace, WellSpaced, Spaced, AllSpace, NoSpace, TrimLeft, WordLength;
    var trimmed := TrimLeft(s);
    var gap := TrimmedOff(s);
    TrimLeftShortens(s);
    if trimmed == [] {
      assert Fields(s) == [];
      OnlySpace(gap);
      assert gap + [] == gap;
      gaps := [gap];
    } else {
      var n := WordLength(trimmed);
      var word, rest := trimmed[..n], trimmed[n..];
      WordIsMaximal(trimmed);
      assert Fields(s) == [word] + Fields(rest);
      hide Fields;
      var later := EveryTextIsSpaced(rest);
      gaps := [gap] + later;
      FirstIsSpaced(gap, word, rest, Fields(rest), later);
      assert trimmed == word + rest;
      assert gap + trimmed == gap + word + rest;
    }
  }

  lemma OnlySpace(gap: string)
    requires AllSpace(gap)
    ensures WellSpaced([], [gap]) && Spaced([], [gap]) == gap
  {
  }

  /** What TrimLeft takes off. */
  lemma {:induction false} TrimmedOff(s: string) returns (gap: string)
    ensures AllSpace(gap) && s == gap + TrimLeft(s)
  {
    hide IsSpace;
    if s != [] && IsSpace(s[0]) {
      var later := TrimmedOff(s[1..]);
      gap := [s[0]] + later;
    } else {
      gap := [];
    }
  }

  lemma {:induction false} WordIsMaximal(s: string)
    ensures var n := WordLength(s); NoSpace(s[..n]) && (n < |s| ==> IsSpace(s[n]))
  {
    hide IsSpace;
    if s != [] && !IsSpace(s[0]) {
      WordIsMaximal(s[1..]);
      var n := WordLength(s[1..]);
      assert s[..n + 1] == [s[0]] + s[1..][..n];
    }
  }

  lemma WordComesFirst(words: seq<string>, gaps: seq<string>)
    requires WellSpaced(words, gaps) && words != []
    ensures Spaced(words, gaps) != ""
    ensures gaps[0] == "" ==> !IsSpace(Spaced(words, gaps)[0])
  {
    hide IsSpace;
    assert words[0] in words && words[0][0] in words[0];
  }

  lemma FirstIsSpaced(gap: string, word: string, rest: string, words: seq<string>, gaps: seq<string>)
    requires AllSpace(gap) && word != "" && NoSpace(word) && (rest != "" ==> IsSpace(rest[0]))
    requires WellSpaced(words, gaps) && rest == Spaced(words, gaps)
    ensures WellSpaced([word] + words, [gap] + gaps)
    ensures Spaced([word] + words, [gap] + gaps) == gap + word + rest
  {
    hide IsSpace;
    if words != [] {
      WordComesFirst(words, gaps);
    }
    var ws, gs := [word] + words, [gap] + gaps;
    assert ws[1..] == words && gs[1..] == gaps;
    hide AllSpace, NoSpace, Spaced;
    assert forall i :: 0 < i < |ws| ==> gs[i] == gaps[i - 1];
  }

  lemma {:induction false} TrimRightOfSpace(core: string, gap: string)
    requires AllSpace(gap) && (core == "" || !IsSpace(core[|core| - 1]))
    ensures TrimRight(core + gap) == core
    decreases |gap|
  {
    hide IsSpace;
    var s := core + gap;
    if gap == "" {
      assert s == core;
    } else {
      var init := gap[..|gap| - 1];
      assert gap[|gap| - 1] in gap;
      assert s[..|s| - 1] == core + init;
      TrimRightOfSpace(core, init);
    }
  }

  /** TrimSpace takes the outer white space off, and nothing else. */
  lemma TrimSpaceOfSurrounded(before: string, core: string, after: string)
    requires AllSpace(before) && AllSpace(after)
    requires core == "" || (!IsSpace(core[0]) && !IsSpace(core[|core| - 1]))
    ensures TrimSpace(before + core + after) == core
  {
    hide IsSpace;
    if core == "" {
      assert before + core + after == (before + after) + "";
      assert AllSpace(before + after);
      TrimLeftOfSpace(before + after, "");
      assert TrimRight("") == "";
    } else {
      assert before + core + after == before + (core + after);
      TrimLeftOfSpace(before, core + after);
      TrimRightOfSpace(core, after);
    }
  }

  lemma SpacedAfterGap(words: seq<string>, gaps: seq<string>)
    requires |gaps| == |words| + 1
    ensures Spaced(words, gaps) == gaps[0] + Spaced(words, gaps[0 := ""])
  {
    if words != [] {
      assert gaps[0 := ""][1..] == gaps[1..];
      assert "" + words[0] == words[0];
      assert gaps[0] + words[0] + Spaced(words[1..], gaps[1..]) == gaps[0] + (words[0] + Spaced(words[1..], gaps[1..]));
    }
  }

  /** The same words without the outer runs of white space. */
  function Inner(words: seq<string>, gaps: seq<string>): seq<string>
    requires |gaps| == |words| + 1
  {
    gaps[0 := ""][|words| := ""]
  }

  lemma {:induction false} SpacedAroundInner(words: seq<string>, gaps: seq<string>)
    requires |gaps| == |words| + 1 && words != []
    ensures Spaced(words, gaps) == gaps[0] + Spaced(words, Inner(words, gaps)) + gaps[|words|]
  {
    var rest, later := words[1..], gaps[1..];
    var inner := Inner(words, gaps);
    if rest == [] {
      assert later == [gaps[1]] && inner[1..] == [""];
      assert Spaced(rest, later) == gaps[1] && Spaced(rest, inner[1..]) == "";
    } else {
      SpacedAroundInner(rest, later);
      SpacedAfterGap(rest, inner[1..]);
      assert inner[1..][0 := ""] == Inner(rest, later);
      var core := Spaced(rest, Inner(rest, later));
      assert Spaced(words, inner) == "" + words[0] + (later[0] + core);
      assert Spaced(words, gaps) == gaps[0] + words[0] + (later[0] + core + gaps[|words|]);
      hide Spaced, Inner;
      Regroup(gaps[0], words[0], later[0] + core, gaps[|words|]);
    }
  }

  lemma Regroup(a: string, b: string, c: string, d: string)
    ensures a + b + (c + d) == a + ("" + b + c) + d
  {
    assert "" + b == b;
  }

  lemma InnerIsWellSpaced(words: seq<string>, gaps: seq<string>)
    requires WellSpaced(words, gaps)
    ensures WellSpaced(words, Inner(words, gaps))
  {
    hide IsSpace;
  }

  lemma {:induction false} InnerEndsInWord(words: seq<string>, gaps: seq<string>)
    requires WellSpaced(words, gaps) && words != [] && gaps[|words|] == ""
    ensures Spaced(words, gaps) != "" && !IsSpace(Spaced(words, gaps)[|Spaced(words, gaps)| - 1])
  {
    hide IsSpace;
    var first := words[0];
    assert first in words && first[|first| - 1] in first;
    if words[1..] == [] {
      assert Spaced(words[1..], gaps[1..]) == "";
      assert Spaced(words, gaps) == gaps[0] + first;
    } else {
      LaterAreSpaced(words, gaps);
      InnerEndsInWord(words[1..], gaps[1..]);
    }
  }

  /** TrimSpace leaves the words with what is between them. */
  lemma TrimSpaceOfSpaced(words: seq<string>, gaps: seq<string>)
    requires WellSpaced(words, gaps) && words != []
    ensures TrimSpace(Spaced(words, gaps)) == Spaced(words, Inner(words, gaps))
    ensures Fields(TrimSpace(Spaced(words, gaps))) == words
  {
    var inner := Inner(words, gaps);
    assert gaps[0] in gaps && gaps[|words|] in gaps;
    hide IsSpace, Spaced;
    SpacedAroundInner(words, gaps);
    InnerIsWellSpaced(words, gaps);
    InnerEndsInWord(words, inner);
    WordComesFirst(words, inner);
    TrimSpaceOfSurrounded(gaps[0], Spaced(words, inner), gaps[|words|]);
    FieldsOfSpaced(words, inner);
  }

  lemma PrintableIsNoSpace(s: string)
    requires forall c :: c in s ==> '!' <= c <= '~'
    ensures NoSpace(s)
  {
  }

  lemma FieldsOfWord(word: string)
    requires word != "" && NoSpace(word)
    ensures Fields(word) == [word]
  {
    FieldsOfFirst("", word, "");
    FieldsOfSpace("");
    assert "" + word + "" == word;
  }

  predicate IsWord(w: string) { w != "" && NoSpace(w) }

  /** A space, a word, and more. */
  function SpaceAnd(w: string, rest: string): string { " " + w + rest }

  predicate AtSpace(rest: string) { rest == "" || rest[0] == ' ' }

  lemma NextField(w: string, rest: string)
    requires IsWord(w) && AtSpace(rest)
    ensures Fields(SpaceAnd(w, rest)) == [w] + Fields(rest) && AtSpace(SpaceAnd(w, rest))
  {
    assert IsSpace(' ') && AllSpace(" ");
    hide IsSpace, Fields, AllSpace, NoSpace;
    FieldsOfFirst(" ", w, rest);
  }

  lemma FirstField(w: string, rest: string)
    requires IsWord(w) && AtSpace(rest)
    ensures Fields(w + rest) == [w] + Fields(rest)
  {
    assert IsSpace(' ') && AllSpace("");
    hide IsSpace, Fields, AllSpace, NoSpace;
    FieldsOfFirst("", w, rest);
    assert "" + w == w;
  }

  /** Five words with one space between each two. */
  function FiveWords(a: string, b: string, c: string, d: string, e: string): string {
    a + SpaceAnd(b, SpaceAnd(c, SpaceAnd(d, SpaceAnd(e, ""))))
  }

  lemma FieldsOfLastThree(c: string, d: string, e: string)
    requires IsWord(c) && IsWord(d) && IsWord(e)
    ensures var s := SpaceAnd(c, SpaceAnd(d, SpaceAnd(e, ""))); Fields(s) == [c, d, e] && AtSpace(s)
  {
    FieldsOfSpace("");
    assert AtSpace("");
    hide Fields, IsWord, AtSpace, SpaceAnd;
    NextField(e, "");
    NextField(d, SpaceAnd(e, ""));
    NextField(c, SpaceAnd(d, SpaceAnd(e, "")));
  }

  lemma FieldsOfFive(a: string, b: string, c: string, d: string, e: string)
    requires IsWord(a) && IsWord(b) && IsWord(c) && IsWord(d) && IsWord(e)
    ensures Fields(FiveWords(a, b, c, d, e)) == [a, b, c, d, e]
  {
    hide Fields, IsWord, AtSpace, SpaceAnd;
    var s3 := SpaceAnd(c, SpaceAnd(d, SpaceAnd(e, "")));
    FieldsOfLastThree(c, d, e);
    NextField(b, s3);
    FirstField(a, SpaceAnd(b, s3));
  }
}
