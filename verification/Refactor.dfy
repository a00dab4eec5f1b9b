/**
  Moving blocks of lines between files, after internal/refactor/operations.go.

  A file is its content, a string of bytes.  Reading a file fails when it does not
  exist or holds a line that the scanner refuses as too long; writing one replaces
  its content as a whole or, for the paths in `readOnly`, fails and changes nothing.
  */
module Refactor {
  import opened Strings
  import Collections

  datatype Error =
    | StartLineTooSmall
    | EndBeforeStart
    | StartPastEnd
    | EndPastEnd
    | AfterLineNegative
    | AfterLinePastEnd
    | CannotOpen
    | LineTooLong
    | CannotWrite

  datatype Result<+T> = Ok(value: T) | Err(error: Error)

  type Files = map<string, string>

  /** bufio.Scanner has a buffer of 64 KiB for a line and its newline. */
  const MAX_LINE: nat := 65535

  // ----- Content and lines -----

  function DropCR(line: string): (r: string)
    ensures if EndsInCR(line) then line == r + "\r" else line == r
  {
    if EndsInCR(line) then line[..|line| - 1] else line
  }

  predicate EndsInCR(line: string) { line != [] && line[|line| - 1] == '\r' }

  /** What bufio.ScanLines finds, one line after the other. */
  function ScanLines(content: string): (r: Result<seq<string>>)
    decreases |content|
  {
    if content == [] then Ok([])
    else
      var i := IndexChar(content, '\n');
      var raw := if i == -1 then content else content[..i];
      if |raw| > MAX_LINE then Err(LineTooLong)
      else
        var rest := ScanLines(if i == -1 then [] else content[i + 1..]);
        if rest.Err? then rest else Ok([DropCR(raw)] + rest.value)
  }

  /** Lines in front of what a scan finds. */
  function After(lines: seq<string>, scanned: Result<seq<string>>): Result<seq<string>> {
    if scanned.Err? then scanned else Ok(lines + scanned.value)
  }

  lemma NothingBefore(scanned: Result<seq<string>>)
    ensures After([], scanned) == scanned
  {
    if scanned.Ok? {
      assert [] + scanned.value == scanned.value;
    }
  }

  lemma NothingAfter(lines: seq<string>)
    ensures After(lines, ScanLines([])) == Ok(lines)
  {
    assert lines + [] == lines;
  }

  lemma ScanOne(rest: string, lines: seq<string>)
    requires rest != []
    ensures var i := IndexChar(rest, '\n');
            var raw := if i == -1 then rest else rest[..i];
            After(lines, ScanLines(rest))
            == if |raw| > MAX_LINE then Err(LineTooLong)
               else After(lines + [DropCR(raw)], ScanLines(if i == -1 then [] else rest[i + 1..]))
  {
    var i := IndexChar(rest, '\n');
    var raw := if i == -1 then rest else rest[..i];
    var next := ScanLines(if i == -1 then [] else rest[i + 1..]);
    if next.Ok? {
      assert lines + ([DropCR(raw)] + next.value) == lines + [DropCR(raw)] + next.value;
    }
  }

  /** Every line with a newline after it. */
  function Terminated(lines: seq<string>): string {
    if lines == [] then [] else lines[0] + "\n" + Terminated(lines[1..])
  }

  predicate NoNewlines(lines: seq<string>) { forall line :: line in lines ==> '\n' !in line }

  predicate Short(lines: seq<string>) { forall line :: line in lines ==> |line| <= MAX_LINE }

  /** Lines that do not end in a carriage return. */
  predicate NoCRs(lines: seq<string>) { forall line :: line in lines ==> !EndsInCR(line) }

  function DropCRs(lines: seq<string>): (r: seq<string>)
    ensures |r| == |lines|
    ensures forall i :: 0 <= i < |lines| ==> r[i] == DropCR(lines[i])
  {
    if lines == [] then [] else [DropCR(lines[0])] + DropCRs(lines[1..])
  }

  lemma {:induction false} ScannedLines(content: string)
    requires ScanLines(content).Ok?
    ensures NoNewlines(ScanLines(content).value) && Short(ScanLines(content).value)
    decreases |content|
  {
    if content != [] {
      var i := IndexChar(content, '\n');
      var raw := if i == -1 then content else content[..i];
      var rest := if i == -1 then [] else content[i + 1..];
      ScannedLines(rest);
      assert ScanLines(content).value == [DropCR(raw)] + ScanLines(rest).value;
      hide ScanLines, IndexChar;
    }
  }

  lemma ScanFirst(line: string, rest: string)
    requires '\n' !in line
    ensures ScanLines(line + "\n" + rest)
            == if |line| > MAX_LINE then Err(LineTooLong)
               else if ScanLines(rest).Err? then ScanLines(rest)
               else Ok([DropCR(line)] + ScanLines(rest).value)
  {
    var all := line + "\n" + rest;
    var i := IndexChar(all, '\n');
    assert all[|line|] == '\n';
    assert forall k :: 0 <= k < |line| ==> all[k] == line[k] && line[k] in line;
    assert forall k :: 0 <= k < i ==> all[k] == all[..i][k] && all[..i][k] in all[..i];
    assert i == |line|;
    assert all[..i] == line && all[i + 1..] == rest;
  }

  /** Writing lines and scanning them again takes one carriage return off each. */
  lemma {:induction false} ScanOfTerminated(lines: seq<string>)
    requires NoNewlines(lines)
    ensures ScanLines(Terminated(lines)) == if Short(lines) then Ok(DropCRs(lines)) else Err(LineTooLong)
  {
    if lines != [] {
      assert forall line :: line in lines <==> line == lines[0] || line in lines[1..];
      ScanOfTerminated(lines[1..]);
      ScanFirst(lines[0], Terminated(lines[1..]));
    }
  }

  /** A scan at the end of a content, after its last newline. */
  lemma ScanLast(last: string)
    requires '\n' !in last
    ensures ScanLines(last) == if |last| > MAX_LINE then Err(LineTooLong)
                               else Ok(if last == "" then [] else [DropCR(last)])
  {
    if last != [] {
      var i := IndexChar(last, '\n');
      assert i == -1;
      assert ScanLines([]) == Ok([]);
      assert [DropCR(last)] + [] == [DropCR(last)];
    }
  }

  /**
    What a scan finds in any content, given as terminated lines and a last one without a
    newline, which counts unless it is empty.
    */
  lemma {:induction false} ScanOfAny(lines: seq<string>, last: string)
    requires NoNewlines(lines) && '\n' !in last
    ensures ScanLines(Terminated(lines) + last)
            == if !Short(lines) || |last| > MAX_LINE then Err(LineTooLong)
               else Ok(DropCRs(lines) + if last == "" then [] else [DropCR(last)])
  {
    if lines == [] {
      assert Terminated(lines) + last == last;
      ScanLast(last);
      var tail := if last == "" then [] else [DropCR(last)];
      assert DropCRs(lines) + tail == tail;
    } else {
      assert forall line :: line in lines <==> line == lines[0] || line in lines[1..];
      var rest := Terminated(lines[1..]) + last;
      assert Terminated(lines) + last == lines[0] + "\n" + rest;
      hide ScanLines, Terminated, DropCR;
      ScanOfAny(lines[1..], last);
      ScanFirst(lines[0], rest);
      var tail := if last == "" then [] else [DropCR(last)];
      Collections.ConcatAssociates([DropCR(lines[0])], DropCRs(lines[1..]), tail);
    }
  }

  /** Every content is such lines. */
  lemma {:induction false} AnyContentIsLines(content: string) returns (lines: seq<string>, last: string)
    ensures NoNewlines(lines) && '\n' !in last && content == Terminated(lines) + last
    decreases |content|
  {
    var i := IndexChar(content, '\n');
    if i == -1 {
      lines, last := [], content;
    } else {
      lines, last := AnyContentIsLines(content[i + 1..]);
      var first := content[..i];
      assert content == first + "\n" + content[i + 1..];
      assert Terminated([first] + lines) == first + "\n" + Terminated(lines);
      lines := [first] + lines;
    }
  }

  predicate Good(lines: seq<string>) { NoNewlines(lines) && NoCRs(lines) && Short(lines) }

  /** Exactly when lines survive a trip to disk. */
  lemma ReadAfterWrite(lines: seq<string>)
    ensures ScanLines(Terminated(lines)) == Ok(lines) <==> Good(lines)
  {
    if ScanLines(Terminated(lines)) == Ok(lines) {
      ScannedLines(Terminated(lines));
      ScanOfTerminated(lines);
      forall line | line in lines
        ensures !EndsInCR(line)
      {
        var i :| 0 <= i < |lines| && lines[i] == line;
        assert DropCRs(lines)[i] == line;
      }
    }
    if Good(lines) {
      ScanOfTerminated(lines);
      assert DropCRs(lines) == lines;
    }
  }

  // ----- Blocks of lines -----

  predicate InRange(lines: seq<string>, startLine: int, endLine: int) {
    1 <= startLine <= endLine <= |lines|
  }

  function Block(lines: seq<string>, startLine: int, endLine: int): (block: seq<string>)
    requires InRange(lines, startLine, endLine)
    ensures |block| == endLine - startLine + 1
  {
    lines[startLine - 1..endLine]
  }

  function WithoutBlock(lines: seq<string>, startLine: int, endLine: int): seq<string>
    requires InRange(lines, startLine, endLine)
  {
    lines[..startLine - 1] + lines[endLine..]
  }

  function WithBlock(lines: seq<string>, afterLine: int, block: seq<string>): seq<string>
    requires 0 <= afterLine <= |lines|
  {
    lines[..afterLine] + block + lines[afterLine..]
  }

  /** Which line is where: lines are counted from 1, and `endLine` still belongs to the block. */
  lemma BlockLines(lines: seq<string>, startLine: int, endLine: int, k: nat)
    requires InRange(lines, startLine, endLine) && k < |lines|
    ensures var block, shorter := Block(lines, startLine, endLine), WithoutBlock(lines, startLine, endLine);
            && |block| == endLine - startLine + 1 && |shorter| == |lines| - |block|
            && (k + 1 < startLine ==> shorter[k] == lines[k])
            && (startLine <= k + 1 <= endLine ==> block[k + 1 - startLine] == lines[k])
            && (endLine < k + 1 ==> shorter[k - |block|] == lines[k])
  {
  }

  /** A block put in comes after line `afterLine`, and the other lines keep their order. */
  lemma InsertionLines(lines: seq<string>, afterLine: nat, block: seq<string>, k: nat)
    requires afterLine <= |lines| && k < |lines| + |block|
    ensures var longer := WithBlock(lines, afterLine, block);
            && |longer| == |lines| + |block|
            && longer[k] == if k < afterLine then lines[k]
                            else if k < afterLine + |block| then block[k - afterLine]
                            else lines[k - |block|]
  {
  }

  /** A block put in can be found and taken out again. */
  lemma BlockOfInsertion(lines: seq<string>, afterLine: nat, block: seq<string>)
    requires afterLine <= |lines| && block != []
    ensures var longer := WithBlock(lines, afterLine, block);
            && InRange(longer, afterLine + 1, afterLine + |block|)
            && Block(longer, afterLine + 1, afterLine + |block|) == block
            && WithoutBlock(longer, afterLine + 1, afterLine + |block|) == lines
  {
  }

  /** A block taken out can be put back. */
  lemma InsertionOfBlock(lines: seq<string>, startLine: int, endLine: int)
    requires InRange(lines, startLine, endLine)
    ensures var shorter := WithoutBlock(lines, startLine, endLine);
            && startLine - 1 <= |shorter|
            && WithBlock(shorter, startLine - 1, Block(lines, startLine, endLine)) == lines
  {
  }

  lemma BlockMembers(lines: seq<string>, startLine: int, endLine: int)
    requires InRange(lines, startLine, endLine)
    ensures forall line :: line in Block(lines, startLine, endLine) ==> line in lines
    ensures forall line :: line in WithoutBlock(lines, startLine, endLine) ==> line in lines
    ensures Good(lines) ==> Good(Block(lines, startLine, endLine)) && Good(WithoutBlock(lines, startLine, endLine))
    ensures multiset(Block(lines, startLine, endLine)) + multiset(WithoutBlock(lines, startLine, endLine))
            == multiset(lines)
  {
    assert lines == lines[..startLine - 1] + lines[startLine - 1..endLine] + lines[endLine..];
  }

  lemma InsertionMembers(lines: seq<string>, afterLine: int, block: seq<string>)
    requires 0 <= afterLine <= |lines|
    ensures Good(lines) && Good(block) ==> Good(WithBlock(lines, afterLine, block))
    ensures multiset(WithBlock(lines, afterLine, block)) == multiset(lines) + multiset(block)
  {
    assert lines == lines[..afterLine] + lines[afterLine..];
  }

  // ----- The operations on files -----

  function ReadLines(files: Files, path: string): Result<seq<string>> {
    if path in files then ScanLines(files[path]) else Err(CannotOpen)
  }

  function WriteLines(files: Files, readOnly: set<string>, path: string, lines: seq<string>): Result<Files> {
    if path in readOnly then Err(CannotWrite) else Ok(files[path := Terminated(lines)])
  }

  /** The checks that extraction and deletion share, in their order. */
  function RangeError(files: Files, path: string, startLine: int, endLine: int): Option<Error> {
    if startLine < 1 then Some(StartLineTooSmall)
    else if endLine < startLine then Some(EndBeforeStart)
    else
      var lines := ReadLines(files, path);
      if lines.Err? then Some(lines.error)
      else if startLine > |lines.value| then Some(StartPastEnd)
      else if endLine > |lines.value| then Some(EndPastEnd)
      else None
  }

  lemma RangeIsRight(files: Files, path: string, startLine: int, endLine: int)
    ensures RangeError(files, path, startLine, endLine).None?
            <==> ReadLines(files, path).Ok? && InRange(ReadLines(files, path).value, startLine, endLine)
  {
  }

  function Extracted(files: Files, path: string, startLine: int, endLine: int): Result<string> {
    var error := RangeError(files, path, startLine, endLine);
    if error.Some? then Err(error.value)
    else Ok(Join(Block(ReadLines(files, path).value, startLine, endLine), '\n'))
  }

  function Deleted(files: Files, readOnly: set<string>, path: string, startLine: int, endLine: int): Result<Files> {
    var error := RangeError(files, path, startLine, endLine);
    if error.Some? then Err(error.value)
    else WriteLines(files, readOnly, path, WithoutBlock(ReadLines(files, path).value, startLine, endLine))
  }

  function Inserted(files: Files, readOnly: set<string>, path: string, afterLine: int, content: string): Result<Files> {
    if afterLine < 0 then Err(AfterLineNegative)
    else
      var lines := ReadLines(files, path);
      if lines.Err? then Err(lines.error)
      else if afterLine > |lines.value| then Err(AfterLinePastEnd)
      else WriteLines(files, readOnly, path, WithBlock(lines.value, afterLine, Split(content, '\n')))
  }

  /** The files after a move, and its error. */
  function Moved(files: Files, readOnly: set<string>, src: string, startLine: int, endLine: int, dest: string,
                 afterLine: int): (Files, Option<Error>)
  {
    var block := Extracted(files, src, startLine, endLine);
    if block.Err? then (files, Some(block.error))
    else
      var shorter := Deleted(files, readOnly, src, startLine, endLine);
      if shorter.Err? then (files, Some(shorter.error))
      else
        var longer := Inserted(shorter.value, readOnly, dest, afterLine, block.value);
        if longer.Err? then (shorter.value, Some(longer.error)) else (longer.value, None)
  }

  // ----- What a move does -----

  /** The insertion of an extracted block puts in the very lines that were extracted. */
  lemma ExtractedSplits(files: Files, path: string, startLine: int, endLine: int)
    requires Extracted(files, path, startLine, endLine).Ok?
    ensures RangeError(files, path, startLine, endLine).None?
    ensures var lines := ReadLines(files, path).value;
            Split(Extracted(files, path, startLine, endLine).value, '\n') == Block(lines, startLine, endLine)
  {
    RangeIsRight(files, path, startLine, endLine);
    ScannedLines(files[path]);
    var lines := ReadLines(files, path).value;
    BlockMembers(lines, startLine, endLine);
    SplitOfJoin(Block(lines, startLine, endLine), '\n');
  }

  /**
    The lines the destination has at the time of the insertion: when it is the
    source itself, the block is already gone and each line has been through the disk.
    */
  function LinesToExtend(files: Files, src: string, startLine: int, endLine: int, dest: string): Result<seq<string>>
    requires RangeError(files, src, startLine, endLine).None?
  {
    if src == dest then Ok(DropCRs(WithoutBlock(ReadLines(files, src).value, startLine, endLine)))
    else ReadLines(files, dest)
  }

  lemma SourceAfterDeletion(files: Files, path: string, startLine: int, endLine: int)
    requires RangeError(files, path, startLine, endLine).None?
    ensures var shorter := WithoutBlock(ReadLines(files, path).value, startLine, endLine);
            ScanLines(Terminated(shorter)) == Ok(DropCRs(shorter))
  {
    ScannedLines(files[path]);
    BlockMembers(ReadLines(files, path).value, startLine, endLine);
    ScanOfTerminated(WithoutBlock(ReadLines(files, path).value, startLine, endLine));
  }

  /** When a move succeeds, stated about the files before it. */
  predicate CanMove(files: Files, readOnly: set<string>, src: string, startLine: int, endLine: int, dest: string,
                    afterLine: int) {
    && RangeError(files, src, startLine, endLine).None?
    && src !in readOnly
    && CanInsert(files, readOnly, src, startLine, endLine, dest, afterLine)
  }

  predicate CanInsert(files: Files, readOnly: set<string>, src: string, startLine: int, endLine: int, dest: string,
                      afterLine: int)
    requires RangeError(files, src, startLine, endLine).None?
  {
    var lines := LinesToExtend(files, src, startLine, endLine, dest);
    lines.Ok? && 0 <= afterLine <= |lines.value| && dest !in readOnly
  }

  /**
    The outcome of every move: on success both files hold exactly the expected
    lines and no other file changed; on failure nothing changed, except that a move
    whose insertion fails has already cut the block out of the source.
    */
  lemma MoveOutcome(files: Files, readOnly: set<string>, src: string, startLine: int, endLine: int, dest: string,
                    afterLine: int)
    ensures var (files', error) := Moved(files, readOnly, src, startLine, endLine, dest, afterLine);
            && (error.None? <==> CanMove(files, readOnly, src, startLine, endLine, dest, afterLine))
            && (error.None? ==>
                 var block := Block(ReadLines(files, src).value, startLine, endLine);
                 var shorter := WithoutBlock(ReadLines(files, src).value, startLine, endLine);
                 var extended := LinesToExtend(files, src, startLine, endLine, dest).value;
                 files' == files[src := Terminated(shorter)][dest := Terminated(WithBlock(extended, afterLine, block))])
  {
    RangeIsRight(files, src, startLine, endLine);
    if RangeError(files, src, startLine, endLine).None? {
      SourceAfterDeletion(files, src, startLine, endLine);
      ExtractedSplits(files, src, startLine, endLine);
      hide ScanLines, Split, Join, Terminated, WithoutBlock, Block, WithBlock;
    }
  }

  /** A failing move cuts the block out of its source exactly when only the insertion is impossible. */
  lemma BlockLostIff(files: Files, readOnly: set<string>, src: string, startLine: int, endLine: int, dest: string,
                     afterLine: int)
    ensures var (files', error) := Moved(files, readOnly, src, startLine, endLine, dest, afterLine);
            && (error.Some? && ReadLines(files', src) != ReadLines(files, src)
                <==> && RangeError(files, src, startLine, endLine).None? && src !in readOnly
                     && !CanInsert(files, readOnly, src, startLine, endLine, dest, afterLine))
            && (error.Some? ==>
                 forall path :: path != src ==> ReadLines(files', path) == ReadLines(files, path))
  {
    MoveOutcome(files, readOnly, src, startLine, endLine, dest, afterLine);
    RangeIsRight(files, src, startLine, endLine);
    if RangeError(files, src, startLine, endLine).None? {
      SourceAfterDeletion(files, src, startLine, endLine);
    }
    hide ScanLines, Split, Join, Terminated;
  }

  /** A line list that the disk gives back as it was. */
  predicate Clean(files: Files, path: string) {
    ReadLines(files, path).Ok? && NoCRs(ReadLines(files, path).value)
  }

  lemma CleanLines(files: Files, path: string)
    requires Clean(files, path)
    ensures Good(ReadLines(files, path).value)
  {
    ScannedLines(files[path]);
  }

  lemma GoodIsClean(files: Files)
    ensures forall path :: ReadLines(files, path).Ok? && Good(ReadLines(files, path).value) ==> Clean(files, path)
  {
  }

  /** A move between two files splices the block into the destination and loses no line. */
  lemma MoveConserves(files: Files, readOnly: set<string>, src: string, startLine: int, endLine: int, dest: string,
                      afterLine: int)
    requires CanMove(files, readOnly, src, startLine, endLine, dest, afterLine)
    requires src != dest && Clean(files, src) && Clean(files, dest)
    ensures var a, b := ReadLines(files, src).value, ReadLines(files, dest).value;
            var files' := Moved(files, readOnly, src, startLine, endLine, dest, afterLine).0;
            && ReadLines(files', src) == Ok(WithoutBlock(a, startLine, endLine))
            && ReadLines(files', dest) == Ok(WithBlock(b, afterLine, Block(a, startLine, endLine)))
            && multiset(ReadLines(files', src).value) + multiset(ReadLines(files', dest).value)
               == multiset(a) + multiset(b)
            && Clean(files', src) && Clean(files', dest)
            && (forall path :: path != src && path != dest ==> ReadLines(files', path) == ReadLines(files, path))
  {
    hide ScanLines, Terminated, Moved, Block, WithoutBlock, WithBlock, Good, NoNewlines, Short;
    var a, b := ReadLines(files, src).value, ReadLines(files, dest).value;
    MoveOutcome(files, readOnly, src, startLine, endLine, dest, afterLine);
    RangeIsRight(files, src, startLine, endLine);
    CleanLines(files, src);
    CleanLines(files, dest);
    var block, shorter := Block(a, startLine, endLine), WithoutBlock(a, startLine, endLine);
    BlockMembers(a, startLine, endLine);
    InsertionMembers(b, afterLine, block);
    ReadAfterWrite(shorter);
    ReadAfterWrite(WithBlock(b, afterLine, block));
    GoodIsClean(Moved(files, readOnly, src, startLine, endLine, dest, afterLine).0);
  }

  /** What the two files hold after a move, whatever their lines end in. */
  lemma LinesAfterMove(files: Files, readOnly: set<string>, src: string, startLine: int, endLine: int, dest: string,
                       afterLine: int)
    requires CanMove(files, readOnly, src, startLine, endLine, dest, afterLine) && src != dest
    ensures var a, b := ReadLines(files, src).value, ReadLines(files, dest).value;
            var files' := Moved(files, readOnly, src, startLine, endLine, dest, afterLine).0;
            && ReadLines(files', src) == Ok(DropCRs(WithoutBlock(a, startLine, endLine)))
            && ReadLines(files', dest) == Ok(DropCRs(WithBlock(b, afterLine, Block(a, startLine, endLine))))
  {
    MoveOutcome(files, readOnly, src, startLine, endLine, dest, afterLine);
    RangeIsRight(files, src, startLine, endLine);
    hide Moved;
    var a, b := ReadLines(files, src).value, ReadLines(files, dest).value;
    SourceAfterDeletion(files, src, startLine, endLine);
    ScannedLines(files[src]);
    ScannedLines(files[dest]);
    var block := Block(a, startLine, endLine);
    BlockMembers(a, startLine, endLine);
    ScanOfTerminated(WithBlock(b, afterLine, block));
  }

  function TotalLength(lines: seq<string>): nat {
    if lines == [] then 0 else |lines[0]| + TotalLength(lines[1..])
  }

  lemma {:induction false} TotalOfConcat(a: seq<string>, b: seq<string>)
    ensures TotalLength(a + b) == TotalLength(a) + TotalLength(b)
  {
    if a == [] {
      assert a + b == b;
    } else {
      assert (a + b)[1..] == a[1..] + b;
      TotalOfConcat(a[1..], b);
    }
  }

  lemma {:induction false} TotalOfPermutation(a: seq<string>, b: seq<string>)
    requires multiset(a) == multiset(b)
    ensures TotalLength(a) == TotalLength(b)
  {
    if a == [] {
      assert |multiset(b)| == 0;
    } else {
      var i := Collections.MatchFirst(a, b);
      TotalOfPermutation(a[1..], b[..i] + b[i + 1..]);
      TotalOfConcat(b[..i], b[i + 1..]);
      TotalOfConcat(b[..i], b[i..]);
      assert b == b[..i] + b[i..] && b[i..][1..] == b[i + 1..];
    }
  }

  lemma {:induction false} TotalOfDropCRs(lines: seq<string>)
    ensures TotalLength(DropCRs(lines)) <= TotalLength(lines)
    ensures TotalLength(DropCRs(lines)) == TotalLength(lines) <==> NoCRs(lines)
  {
    if lines != [] {
      assert NoCRs(lines) <==> !EndsInCR(lines[0]) && NoCRs(lines[1..]) by {
        assert forall line :: line in lines <==> line == lines[0] || line in lines[1..];
      }
      TotalOfDropCRs(lines[1..]);
      assert DropCRs(lines)[1..] == DropCRs(lines[1..]);
    }
  }

  /** A move conserves the lines of its files exactly when none of them ends in a carriage return of its own. */
  lemma MoveConservesIff(files: Files, readOnly: set<string>, src: string, startLine: int, endLine: int, dest: string,
                         afterLine: int)
    requires CanMove(files, readOnly, src, startLine, endLine, dest, afterLine) && src != dest
    ensures var files' := Moved(files, readOnly, src, startLine, endLine, dest, afterLine).0;
            && ReadLines(files', src).Ok? && ReadLines(files', dest).Ok?
            && (multiset(ReadLines(files', src).value + ReadLines(files', dest).value)
                == multiset(ReadLines(files, src).value + ReadLines(files, dest).value)
                <==> Clean(files, src) && Clean(files, dest))
  {
    LinesAfterMove(files, readOnly, src, startLine, endLine, dest, afterLine);
    RangeIsRight(files, src, startLine, endLine);
    var a, b := ReadLines(files, src).value, ReadLines(files, dest).value;
    var shorter := WithoutBlock(a, startLine, endLine);
    var longer := WithBlock(b, afterLine, Block(a, startLine, endLine));
    BlockMembers(a, startLine, endLine);
    InsertionMembers(b, afterLine, Block(a, startLine, endLine));
    hide ReadLines, Moved, WithoutBlock, WithBlock, Block, RangeError, NoCRs, DropCRs, TotalLength, Good, CanInsert;
    assert multiset(shorter + longer) == multiset(a + b);
    DropConservesIff(shorter, longer, a, b);
  }

  /** Dropping carriage returns from rearranged lines shortens them unless there are none. */
  lemma DropTotals(shorter: seq<string>, longer: seq<string>, a: seq<string>, b: seq<string>)
    requires multiset(shorter + longer) == multiset(a + b)
    ensures NoCRs(a) && NoCRs(b) <==> NoCRs(shorter) && NoCRs(longer)
    ensures TotalLength(DropCRs(shorter)) + TotalLength(DropCRs(longer)) <= TotalLength(a) + TotalLength(b)
    ensures TotalLength(DropCRs(shorter)) + TotalLength(DropCRs(longer)) == TotalLength(a) + TotalLength(b)
            <==> NoCRs(a) && NoCRs(b)
  {
    SameLinesSameCRs(shorter, longer, a, b);
    TotalOfPermutation(shorter + longer, a + b);
    TotalOfConcat(shorter, longer);
    TotalOfConcat(a, b);
    TotalOfDropCRs(shorter);
    TotalOfDropCRs(longer);
    hide NoCRs, DropCRs, TotalLength;
  }

  lemma SameLinesSameCRs(shorter: seq<string>, longer: seq<string>, a: seq<string>, b: seq<string>)
    requires multiset(shorter + longer) == multiset(a + b)
    ensures NoCRs(a) && NoCRs(b) <==> NoCRs(shorter) && NoCRs(longer)
  {
    hide EndsInCR;
    assert forall line :: line in a + b <==> line in multiset(a + b);
    assert forall line :: line in shorter + longer <==> line in multiset(shorter + longer);
    assert forall line :: line in a + b <==> line in shorter + longer;
    assert forall line :: line in a || line in b <==> line in a + b;
    assert forall line :: line in shorter || line in longer <==> line in shorter + longer;
  }

  lemma DropConservesIff(shorter: seq<string>, longer: seq<string>, a: seq<string>, b: seq<string>)
    requires multiset(shorter + longer) == multiset(a + b)
    ensures multiset(DropCRs(shorter) + DropCRs(longer)) == multiset(a + b) <==> NoCRs(a) && NoCRs(b)
  {
    hide NoCRs, TotalLength, DropCRs;
    DropTotals(shorter, longer, a, b);
    if multiset(DropCRs(shorter) + DropCRs(longer)) == multiset(a + b) {
      TotalOfPermutation(DropCRs(shorter) + DropCRs(longer), a + b);
      TotalOfConcat(DropCRs(shorter), DropCRs(longer));
      TotalOfConcat(a, b);
    }
    if NoCRs(shorter) && NoCRs(longer) {
      DropsNothing(shorter);
      DropsNothing(longer);
    }
  }

  lemma DropsNothing(lines: seq<string>)
    requires NoCRs(lines)
    ensures DropCRs(lines) == lines
  {
  }

  /** The same move within one file. */
  lemma MoveWithinConserves(files: Files, readOnly: set<string>, src: string, startLine: int, endLine: int,
                            afterLine: int)
    requires CanMove(files, readOnly, src, startLine, endLine, src, afterLine)
    requires Clean(files, src)
    ensures var a := ReadLines(files, src).value;
            var files' := Moved(files, readOnly, src, startLine, endLine, src, afterLine).0;
            && afterLine <= |WithoutBlock(a, startLine, endLine)|
            && ReadLines(files', src)
               == Ok(WithBlock(WithoutBlock(a, startLine, endLine), afterLine, Block(a, startLine, endLine)))
            && multiset(ReadLines(files', src).value) == multiset(a)
            && Clean(files', src)
            && (forall path :: path != src ==> ReadLines(files', path) == ReadLines(files, path))
  {
    hide ScanLines, Terminated, Moved, Block, WithoutBlock, WithBlock, Good, NoNewlines, Short;
    var a := ReadLines(files, src).value;
    MoveOutcome(files, readOnly, src, startLine, endLine, src, afterLine);
    RangeIsRight(files, src, startLine, endLine);
    CleanLines(files, src);
    var block, shorter := Block(a, startLine, endLine), WithoutBlock(a, startLine, endLine);
    BlockMembers(a, startLine, endLine);
    assert NoCRs(shorter) by { assert Good(shorter); }
    DropsNothing(shorter);
    InsertionMembers(shorter, afterLine, block);
    ReadAfterWrite(WithBlock(shorter, afterLine, block));
    GoodIsClean(Moved(files, readOnly, src, startLine, endLine, src, afterLine).0);
  }

  /** Moving the block back is possible and restores the lines of both files. */
  lemma MoveBackRestores(files: Files, readOnly: set<string>, src: string, startLine: int, endLine: int, dest: string,
                         afterLine: int)
    requires CanMove(files, readOnly, src, startLine, endLine, dest, afterLine)
    requires src != dest && Clean(files, src) && Clean(files, dest)
    ensures var there := Moved(files, readOnly, src, startLine, endLine, dest, afterLine).0;
            var length := endLine - startLine + 1;
            var (back, error) := Moved(there, readOnly, dest, afterLine + 1, afterLine + length, src, startLine - 1);
            && error.None?
            && (forall path :: ReadLines(back, path) == ReadLines(files, path))
  {
    hide ReadLines, Moved, WithoutBlock, WithBlock, Block, Clean, RangeError, CanMove;
    CanMoveParts(files, readOnly, src, startLine, endLine, dest, afterLine);
    MoveConserves(files, readOnly, src, startLine, endLine, dest, afterLine);
    var a, b := ReadLines(files, src).value, ReadLines(files, dest).value;
    var there := Moved(files, readOnly, src, startLine, endLine, dest, afterLine).0;
    var last := afterLine + endLine - startLine + 1;
    BlockOfInsertion(b, afterLine, Block(a, startLine, endLine));
    InsertionOfBlock(a, startLine, endLine);
    CanMoveBack(files, readOnly, src, startLine, endLine, dest, afterLine);
    MoveOutcome(there, readOnly, dest, afterLine + 1, last, src, startLine - 1);
    MoveConserves(there, readOnly, dest, afterLine + 1, last, src, startLine - 1);
  }

  /** What a move that succeeds has found. */
  lemma CanMoveParts(files: Files, readOnly: set<string>, src: string, startLine: int, endLine: int, dest: string,
                     afterLine: int)
    requires CanMove(files, readOnly, src, startLine, endLine, dest, afterLine)
    ensures ReadLines(files, src).Ok? && InRange(ReadLines(files, src).value, startLine, endLine) && afterLine >= 0
    ensures src != dest ==> ReadLines(files, dest).Ok? && afterLine <= |ReadLines(files, dest).value|
    ensures src == dest ==> afterLine <= |WithoutBlock(ReadLines(files, src).value, startLine, endLine)|
  {
    RangeIsRight(files, src, startLine, endLine);
    hide ReadLines, RangeError, WithoutBlock;
  }

  lemma MoveWithinBackRestores(files: Files, readOnly: set<string>, src: string, startLine: int, endLine: int,
                               afterLine: int)
    requires CanMove(files, readOnly, src, startLine, endLine, src, afterLine)
    requires Clean(files, src)
    ensures var there := Moved(files, readOnly, src, startLine, endLine, src, afterLine).0;
            var length := endLine - startLine + 1;
            var (back, error) := Moved(there, readOnly, src, afterLine + 1, afterLine + length, src, startLine - 1);
            && error.None?
            && (forall path :: ReadLines(back, path) == ReadLines(files, path))
  {
    hide ReadLines, Moved, WithoutBlock, WithBlock, Block, Clean, RangeError, CanMove;
    CanMoveParts(files, readOnly, src, startLine, endLine, src, afterLine);
    MoveWithinConserves(files, readOnly, src, startLine, endLine, afterLine);
    var a := ReadLines(files, src).value;
    var there := Moved(files, readOnly, src, startLine, endLine, src, afterLine).0;
    var last := afterLine + endLine - startLine + 1;
    BlockOfInsertion(WithoutBlock(a, startLine, endLine), afterLine, Block(a, startLine, endLine));
    InsertionOfBlock(a, startLine, endLine);
    CanMoveWithinBack(files, readOnly, src, startLine, endLine, afterLine);
    MoveOutcome(there, readOnly, src, afterLine + 1, last, src, startLine - 1);
    MoveWithinConserves(there, readOnly, src, afterLine + 1, last, startLine - 1);
  }

  // ----- Exactly when moving back restores -----

  function Total(files: Files, path: string): nat
    requires ReadLines(files, path).Ok?
  {
    TotalLength(ReadLines(files, path).value)
  }

  /** A move between two files never lengthens their lines, and shortens some unless both files are clean. */
  lemma MoveShortensUnlessClean(files: Files, readOnly: set<string>, src: string, startLine: int, endLine: int,
                                dest: string, afterLine: int)
    requires CanMove(files, readOnly, src, startLine, endLine, dest, afterLine) && src != dest
    ensures var files' := Moved(files, readOnly, src, startLine, endLine, dest, afterLine).0;
            && ReadLines(files, src).Ok? && ReadLines(files, dest).Ok?
            && ReadLines(files', src).Ok? && ReadLines(files', dest).Ok?
            && Total(files', src) + Total(files', dest) <= Total(files, src) + Total(files, dest)
            && (Total(files', src) + Total(files', dest) == Total(files, src) + Total(files, dest)
                <==> Clean(files, src) && Clean(files, dest))
  {
    LinesAfterMove(files, readOnly, src, startLine, endLine, dest, afterLine);
    RangeIsRight(files, src, startLine, endLine);
    var a, b := ReadLines(files, src).value, ReadLines(files, dest).value;
    var shorter := WithoutBlock(a, startLine, endLine);
    var longer := WithBlock(b, afterLine, Block(a, startLine, endLine));
    BlockMembers(a, startLine, endLine);
    InsertionMembers(b, afterLine, Block(a, startLine, endLine));
    hide ReadLines, Moved, WithoutBlock, WithBlock, Block, RangeError, NoCRs, DropCRs, TotalLength, Good, CanInsert;
    assert multiset(shorter + longer) == multiset(a + b);
    DropTotals(shorter, longer, a, b);
  }

  /** The way back from a move is open. */
  lemma CanMoveBack(files: Files, readOnly: set<string>, src: string, startLine: int, endLine: int, dest: string,
                    afterLine: int)
    requires CanMove(files, readOnly, src, startLine, endLine, dest, afterLine) && src != dest
    ensures var there := Moved(files, readOnly, src, startLine, endLine, dest, afterLine).0;
            CanMove(there, readOnly, dest, afterLine + 1, afterLine + endLine - startLine + 1, src, startLine - 1)
  {
    LinesAfterMove(files, readOnly, src, startLine, endLine, dest, afterLine);
    RangeIsRight(files, src, startLine, endLine);
    var there := Moved(files, readOnly, src, startLine, endLine, dest, afterLine).0;
    RangeIsRight(there, dest, afterLine + 1, afterLine + endLine - startLine + 1);
    hide ReadLines, Moved, RangeError;
  }

  /**
    Moving the block back between two files is always possible, and restores all lines
    exactly when both files are clean.
    */
  lemma MoveBackRestoresIff(files: Files, readOnly: set<string>, src: string, startLine: int, endLine: int,
                            dest: string,
                            afterLine: int)
    requires CanMove(files, readOnly, src, startLine, endLine, dest, afterLine) && src != dest
    ensures var there := Moved(files, readOnly, src, startLine, endLine, dest, afterLine).0;
            var (back, error) := Moved(there, readOnly, dest, afterLine + 1, afterLine + endLine - startLine + 1,
              src, startLine - 1);
            && error.None?
            && ((forall path :: ReadLines(back, path) == ReadLines(files, path))
                <==> Clean(files, src) && Clean(files, dest))
  {
    hide CanMove, Moved, ReadLines, Clean, Total;
    var there := Moved(files, readOnly, src, startLine, endLine, dest, afterLine).0;
    var last := afterLine + endLine - startLine + 1;
    MoveShortensUnlessClean(files, readOnly, src, startLine, endLine, dest, afterLine);
    CanMoveBack(files, readOnly, src, startLine, endLine, dest, afterLine);
    MoveOutcome(there, readOnly, dest, afterLine + 1, last, src, startLine - 1);
    MoveShortensUnlessClean(there, readOnly, dest, afterLine + 1, last, src, startLine - 1);
    if Clean(files, src) && Clean(files, dest) {
      MoveBackRestores(files, readOnly, src, startLine, endLine, dest, afterLine);
    } else {
      var back := Moved(there, readOnly, dest, afterLine + 1, last, src, startLine - 1).0;
      assert Total(back, src) + Total(back, dest) < Total(files, src) + Total(files, dest);
      SameLinesSameTotal(back, files, src);
      SameLinesSameTotal(back, files, dest);
    }
  }

  lemma SameLinesSameTotal(files: Files, files': Files, path: string)
    requires ReadLines(files, path).Ok? && ReadLines(files', path).Ok?
    ensures ReadLines(files, path) == ReadLines(files', path) ==> Total(files, path) == Total(files', path)
  {
  }

  // The same within one file.

  lemma LinesAfterMoveWithin(files: Files, readOnly: set<string>, src: string, startLine: int, endLine: int,
                             afterLine: int)
    requires CanMove(files, readOnly, src, startLine, endLine, src, afterLine)
    ensures var a := ReadLines(files, src).value;
            var files' := Moved(files, readOnly, src, startLine, endLine, src, afterLine).0;
            var kept := DropCRs(WithoutBlock(a, startLine, endLine));
            && ReadLines(files', src) == Ok(DropCRs(WithBlock(kept, afterLine, Block(a, startLine, endLine))))
            && (forall path :: path != src ==> ReadLines(files', path) == ReadLines(files, path))
  {
    hide Moved, ScanLines, Terminated, WithoutBlock, WithBlock, Block, DropCRs, NoNewlines, Short, Good;
    MoveOutcome(files, readOnly, src, startLine, endLine, src, afterLine);
    RangeIsRight(files, src, startLine, endLine);
    var a := ReadLines(files, src).value;
    var block, shorter := Block(a, startLine, endLine), WithoutBlock(a, startLine, endLine);
    ScannedLines(files[src]);
    PartsAreScannable(a, startLine, endLine);
    SourceAfterDeletion(files, src, startLine, endLine);
    ScannedLines(Terminated(shorter));
    var kept := DropCRs(shorter);
    InsertionIsScannable(kept, afterLine, block);
    ScanOfTerminated(WithBlock(kept, afterLine, block));
  }

  lemma PartsAreScannable(lines: seq<string>, startLine: int, endLine: int)
    requires InRange(lines, startLine, endLine) && NoNewlines(lines) && Short(lines)
    ensures NoNewlines(Block(lines, startLine, endLine)) && Short(Block(lines, startLine, endLine))
    ensures NoNewlines(WithoutBlock(lines, startLine, endLine)) && Short(WithoutBlock(lines, startLine, endLine))
  {
  }

  lemma InsertionIsScannable(lines: seq<string>, afterLine: int, block: seq<string>)
    requires 0 <= afterLine <= |lines| && NoNewlines(lines) && Short(lines) && NoNewlines(block) && Short(block)
    ensures NoNewlines(WithBlock(lines, afterLine, block)) && Short(WithBlock(lines, afterLine, block))
  {
  }

  /** Lines taken apart, some of them through the disk twice, and put together again. */
  lemma DropTwiceTotals(a: seq<string>, startLine: int, endLine: int, afterLine: int)
    requires InRange(a, startLine, endLine) && 0 <= afterLine <= |a| - (endLine - startLine + 1)
    ensures var kept := DropCRs(WithoutBlock(a, startLine, endLine));
            var lines := DropCRs(WithBlock(kept, afterLine, Block(a, startLine, endLine)));
            TotalLength(lines) <= TotalLength(a) && (TotalLength(lines) == TotalLength(a) <==> NoCRs(a))
  {
    var block, shorter := Block(a, startLine, endLine), WithoutBlock(a, startLine, endLine);
    var kept := DropCRs(shorter);
    var longer := WithBlock(kept, afterLine, block);
    BlockMembers(a, startLine, endLine);
    InsertionMembers(kept, afterLine, block);
    TotalOfDropCRs(shorter);
    hide WithoutBlock, WithBlock, Block, NoCRs, DropCRs, TotalLength, Good;
    assert multiset(block + shorter) == multiset(a + []);
    assert multiset(longer + []) == multiset(kept + block);
    SameLinesSameCRs(block, shorter, a, []);
    DropTotals(longer, [], kept, block);
    TotalOfPermutation(block + shorter, a + []);
    TotalOfConcat(block, shorter);
    NothingToDrop();
    assert a + [] == a;
    if NoCRs(shorter) {
      DropsNothing(shorter);
    }
  }

  lemma NothingToDrop()
    ensures NoCRs([]) && DropCRs([]) == [] && TotalLength([]) == 0
  {
  }

  lemma MoveWithinShortensUnlessClean(files: Files, readOnly: set<string>, src: string, startLine: int, endLine: int,
                                      afterLine: int)
    requires CanMove(files, readOnly, src, startLine, endLine, src, afterLine)
    ensures var files' := Moved(files, readOnly, src, startLine, endLine, src, afterLine).0;
            && ReadLines(files, src).Ok? && ReadLines(files', src).Ok?
            && Total(files', src) <= Total(files, src)
            && (Total(files', src) == Total(files, src) <==> Clean(files, src))
            && (forall path :: path != src ==> ReadLines(files', path) == ReadLines(files, path))
  {
    LinesAfterMoveWithin(files, readOnly, src, startLine, endLine, afterLine);
    RangeIsRight(files, src, startLine, endLine);
    hide ReadLines, Moved, RangeError, NoCRs, TotalLength, DropCRs;
    DropTwiceTotals(ReadLines(files, src).value, startLine, endLine, afterLine);
  }

  /** A move within one file keeps its lines, as a multiset, exactly when it is clean. */
  lemma MoveWithinConservesIff(files: Files, readOnly: set<string>, src: string, startLine: int, endLine: int,
                               afterLine: int)
    requires CanMove(files, readOnly, src, startLine, endLine, src, afterLine)
    ensures var files' := Moved(files, readOnly, src, startLine, endLine, src, afterLine).0;
            && ReadLines(files, src).Ok? && ReadLines(files', src).Ok?
            && (multiset(ReadLines(files', src).value) == multiset(ReadLines(files, src).value) <==> Clean(files, src))
  {
    hide CanMove, Moved, ReadLines, Clean;
    MoveWithinShortensUnlessClean(files, readOnly, src, startLine, endLine, afterLine);
    var files' := Moved(files, readOnly, src, startLine, endLine, src, afterLine).0;
    if Clean(files, src) {
      MoveWithinConserves(files, readOnly, src, startLine, endLine, afterLine);
    } else if multiset(ReadLines(files', src).value) == multiset(ReadLines(files, src).value) {
      TotalOfPermutation(ReadLines(files', src).value, ReadLines(files, src).value);
    }
  }

  lemma CanMoveWithinBack(files: Files, readOnly: set<string>, src: string, startLine: int, endLine: int,
                          afterLine: int)
    requires CanMove(files, readOnly, src, startLine, endLine, src, afterLine)
    ensures var there := Moved(files, readOnly, src, startLine, endLine, src, afterLine).0;
            CanMove(there, readOnly, src, afterLine + 1, afterLine + endLine - startLine + 1, src, startLine - 1)
  {
    hide ReadLines, Moved, RangeError, DropCRs;
    LinesAfterMoveWithin(files, readOnly, src, startLine, endLine, afterLine);
    RangeIsRight(files, src, startLine, endLine);
    var there := Moved(files, readOnly, src, startLine, endLine, src, afterLine).0;
    var a, lines := ReadLines(files, src).value, ReadLines(there, src).value;
    assert afterLine <= |WithoutBlock(a, startLine, endLine)| == |a| - (endLine - startLine + 1);
    assert |lines| == |a|;
    RangeIsRight(there, src, afterLine + 1, afterLine + endLine - startLine + 1);
    assert |WithoutBlock(lines, afterLine + 1, afterLine + endLine - startLine + 1)| == |a| - (endLine - startLine + 1);
  }

  lemma MoveWithinBackRestoresIff(files: Files, readOnly: set<string>, src: string, startLine: int, endLine: int,
                                  afterLine: int)
    requires CanMove(files, readOnly, src, startLine, endLine, src, afterLine)
    ensures var there := Moved(files, readOnly, src, startLine, endLine, src, afterLine).0;
            var (back, error) := Moved(there, readOnly, src, afterLine + 1, afterLine + endLine - startLine + 1,
              src, startLine - 1);
            && error.None?
            && ((forall path :: ReadLines(back, path) == ReadLines(files, path)) <==> Clean(files, src))
  {
    hide CanMove, Moved, ReadLines, Clean, Total;
    var there := Moved(files, readOnly, src, startLine, endLine, src, afterLine).0;
    var last := afterLine + endLine - startLine + 1;
    MoveWithinShortensUnlessClean(files, readOnly, src, startLine, endLine, afterLine);
    CanMoveWithinBack(files, readOnly, src, startLine, endLine, afterLine);
    MoveOutcome(there, readOnly, src, afterLine + 1, last, src, startLine - 1);
    MoveWithinShortensUnlessClean(there, readOnly, src, afterLine + 1, last, startLine - 1);
    if Clean(files, src) {
      MoveWithinBackRestores(files, readOnly, src, startLine, endLine, afterLine);
    } else {
      var back := Moved(there, readOnly, src, afterLine + 1, last, src, startLine - 1).0;
      SameLinesSameTotal(back, files, src);
    }
  }

  // ----- The disk -----

  class Disk {
    var files: Files
    const readOnly: set<string>

    constructor (files: Files, readOnly: set<string>)
      ensures this.files == files && this.readOnly == readOnly
    {
      this.files, this.readOnly := files, readOnly;
    }

    /** Scans a file line by line. */
    method ReadFile(path: string) returns (r: Result<seq<string>>)
      ensures r == ReadLines(files, path)
    {
      if path !in files {
        return Err(CannotOpen);
      }
      r := Scan(files[path]);
    }

    static method Scan(content: string) returns (r: Result<seq<string>>)
      ensures r == ScanLines(content)
    {
      hide DropCR, IndexChar, ScanLines;
      var lines: seq<string> := [];
      var rest := content;
      NothingBefore(ScanLines(content));
      while rest != []
        invariant ScanLines(content) == After(lines, ScanLines(rest))
        decreases |rest|
      {
        var i := IndexChar(rest, '\n');
        var raw := if i == -1 then rest else rest[..i];
        ScanOne(rest, lines);
        if |raw| > MAX_LINE {
          return Err(LineTooLong);
        }
        lines := lines + [DropCR(raw)];
        rest := if i == -1 then [] else rest[i + 1..];
      }
      NothingAfter(lines);
      return Ok(lines);
    }

    /** Writes a new content line by line, then puts it in place of the old one. */
    method WriteFile(path: string, lines: seq<string>) returns (error: Option<Error>)
      modifies this
      ensures error == if path in readOnly then Some(CannotWrite) else None
      ensures files == if path in readOnly then old(files) else old(files)[path := Terminated(lines)]
    {
      var content := "";
      for i := 0 to |lines|
        invariant content + Terminated(lines[i..]) == Terminated(lines)
      {
        assert lines[i..][1..] == lines[i + 1..];
        content := content + (lines[i] + "\n");
      }
      assert lines[|lines|..] == [] && content + [] == content;
      if path in readOnly {
        return Some(CannotWrite);
      }
      files := files[path := content];
      return None;
    }

    method ExtractCodeBlock(path: string, startLine: int, endLine: int) returns (r: Result<string>)
      ensures r == Extracted(files, path, startLine, endLine)
    {
      if startLine < 1 {
        return Err(StartLineTooSmall);
      }
      if endLine < startLine {
        return Err(EndBeforeStart);
      }
      var lines := ReadFile(path);
      if lines.Err? {
        return Err(lines.error);
      }
      if startLine > |lines.value| {
        return Err(StartPastEnd);
      }
      if endLine > |lines.value| {
        return Err(EndPastEnd);
      }
      return Ok(Join(lines.value[startLine - 1..endLine], '\n'));
    }

    method InsertCodeBlock(path: string, afterLine: int, content: string) returns (error: Option<Error>)
      modifies this
      ensures var r := Inserted(old(files), readOnly, path, afterLine, content);
              && files == (if r.Ok? then r.value else old(files))
              && error == (if r.Ok? then None else Some(r.error))
    {
      if afterLine < 0 {
        return Some(AfterLineNegative);
      }
      var lines := ReadFile(path);
      if lines.Err? {
        return Some(lines.error);
      }
      if afterLine > |lines.value| {
        return Some(AfterLinePastEnd);
      }
      error := WriteFile(path, lines.value[..afterLine] + Split(content, '\n') + lines.value[afterLine..]);
    }

    method DeleteCodeBlock(path: string, startLine: int, endLine: int) returns (error: Option<Error>)
      modifies this
      ensures var r := Deleted(old(files), readOnly, path, startLine, endLine);
              && files == (if r.Ok? then r.value else old(files))
              && error == (if r.Ok? then None else Some(r.error))
    {
      if startLine < 1 {
        return Some(StartLineTooSmall);
      }
      if endLine < startLine {
        return Some(EndBeforeStart);
      }
      var lines := ReadFile(path);
      if lines.Err? {
        return Some(lines.error);
      }
      if startLine > |lines.value| {
        return Some(StartPastEnd);
      }
      if endLine > |lines.value| {
        return Some(EndPastEnd);
      }
      error := WriteFile(path, lines.value[..startLine - 1] + lines.value[endLine..]);
    }

    method MoveSymbol(src: string, startLine: int, endLine: int, dest: string, afterLine: int)
      returns (error: Option<Error>)
      modifies this
      ensures (files, error) == Moved(old(files), readOnly, src, startLine, endLine, dest, afterLine)
      ensures error.None? <==> CanMove(old(files), readOnly, src, startLine, endLine, dest, afterLine)
    {
      MoveOutcome(files, readOnly, src, startLine, endLine, dest, afterLine);
      hide CanMove, Extracted, Deleted, Inserted;
      var block := ExtractCodeBlock(src, startLine, endLine);
      if block.Err? {
        return Some(block.error);
      }
      error := DeleteCodeBlock(src, startLine, endLine);
      if error.Some? {
        return;
      }
      error := InsertCodeBlock(dest, afterLine, block.value);
    }
  }
}
