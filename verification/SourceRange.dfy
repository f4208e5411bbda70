/** Bounded ranges of source lines (lib/semindex_source/source_resolver.cpp): from the working tree through a stream,
    and from a Git blob in memory. */
module SourceRange {
  import opened Wrappers
  import opened Index

  const NEWLINE: byte := 10
  const RETURN: byte := 13

  datatype Request = Request(firstLine: nat, lineCount: nat, byteLimit: nat)

  datatype Result = Result(lines: seq<Text>, byteLimitHit: bool)

  // ---- what is asked for ----

  /** The next newline, or the end. */
  function LineEnd(content: Text, from: nat): (end: nat)
    requires from <= |content|
    ensures from <= end <= |content|
    ensures NEWLINE !in content[from..end] && (end < |content| ==> content[end] == NEWLINE)
    decreases |content| - from
  {
    if from == |content| || content[from] == NEWLINE then from else LineEnd(content, from + 1)
  }

  /** The lines from an offset on; a newline at the very end starts no further line. */
  function Lines(content: Text, offset: nat): seq<Text>
    decreases |content| - offset
  {
    if offset >= |content| then []
    else [content[offset..LineEnd(content, offset)]] + Lines(content, LineEnd(content, offset) + 1)
  }

  function Stripped(line: Text): Text {
    if line != [] && line[|line| - 1] == RETURN then line[..|line| - 1] else line
  }

  function AllStripped(lines: seq<Text>): seq<Text> {
    seq(|lines|, i requires 0 <= i < |lines| => Stripped(lines[i]))
  }

  function Dropped(lines: seq<Text>, n: nat): seq<Text> {
    if n <= |lines| then lines[n..] else []
  }

  function Taken(lines: seq<Text>, n: nat): seq<Text> {
    if n <= |lines| then lines[..n] else lines
  }

  /** The lines of the request, as far as the content has them. */
  function Window(content: Text, r: Request): seq<Text> {
    Taken(AllStripped(Dropped(Lines(content, 0), if r.firstLine == 0 then 0 else r.firstLine - 1)), r.lineCount)
  }

  /** Bytes of lines with their newlines. */
  function Total(lines: seq<Text>): nat {
    if lines == [] then 0 else Total(lines[..|lines| - 1]) + |lines[|lines| - 1]| + 1
  }

  /** Lines from the front until one does not fit. */
  function Fitting(lines: seq<Text>, limit: nat): seq<Text> {
    if lines == [] || |lines[0]| + 1 > limit then []
    else [lines[0]] + Fitting(lines[1..], limit - |lines[0]| - 1)
  }

  function Range(content: Text, r: Request): Result {
    var kept := Fitting(Window(content, r), r.byteLimit);
    Result(kept, |kept| < |Window(content, r)|)
  }

  // ---- reading from a place ----

  /** The place behind the line and its newline. */
  function NextLine(content: Text, offset: nat): (next: nat)
    requires offset < |content|
    ensures offset < next <= |content|
  {
    if LineEnd(content, offset) < |content| then LineEnd(content, offset) + 1 else |content|
  }

  function Ahead(content: Text, offset: nat, count: nat): seq<Text> {
    Taken(AllStripped(Lines(content, offset)), count)
  }

  /** What is still to be read from a place on. */
  function Rest(content: Text, offset: nat, count: nat, limit: nat): Result {
    var kept := Fitting(Ahead(content, offset, count), limit);
    Result(kept, |kept| < |Ahead(content, offset, count)|)
  }

  function After(lines: seq<Text>, rest: Result): Result {
    Result(lines + rest.lines, rest.byteLimitHit)
  }

  /** The place behind n lines. */
  function Skipped(content: Text, offset: nat, n: nat): nat
    decreases n
  {
    if n == 0 || offset >= |content| then offset else Skipped(content, NextLine(content, offset), n - 1)
  }

  lemma LinesStep(content: Text, offset: nat)
    requires offset < |content|
    ensures Lines(content, offset)
            == [content[offset..LineEnd(content, offset)]] + Lines(content, NextLine(content, offset))
  {
  }

  lemma {:induction false} SkippedLines(content: Text, offset: nat, n: nat)
    ensures Lines(content, Skipped(content, offset, n)) == Dropped(Lines(content, offset), n)
    decreases n
  {
    hide Lines, NextLine, LineEnd;
    if n > 0 && offset < |content| {
      LinesStep(content, offset);
      SkippedLines(content, NextLine(content, offset), n - 1);
      DroppedStep(content[offset..LineEnd(content, offset)], Lines(content, NextLine(content, offset)), n);
    } else {
      DroppedNone(content, offset, n);
    }
  }

  lemma DroppedStep(line: Text, lines: seq<Text>, n: nat)
    requires n > 0
    ensures Dropped([line] + lines, n) == Dropped(lines, n - 1)
  {
  }

  lemma DroppedNone(content: Text, offset: nat, n: nat)
    requires n == 0 || offset >= |content|
    ensures Dropped(Lines(content, offset), n) == Lines(content, offset)
  {
  }

  lemma RangeIsRest(content: Text, r: Request)
    ensures var skip := if r.firstLine == 0 then 0 else r.firstLine - 1;
            Range(content, r) == After([], Rest(content, Skipped(content, 0, skip), r.lineCount, r.byteLimit))
  {
    SkippedLines(content, 0, if r.firstLine == 0 then 0 else r.firstLine - 1);
    hide Fitting, Lines;
    var kept := Fitting(Window(content, r), r.byteLimit);
    assert [] + kept == kept;
  }

  lemma AheadStep(content: Text, offset: nat, count: nat)
    requires offset < |content| && count > 0
    ensures Ahead(content, offset, count)
            == [Stripped(content[offset..LineEnd(content, offset)])]
               + Ahead(content, NextLine(content, offset), count - 1)
  {
    LinesStep(content, offset);
    hide Lines, Stripped;
  }

  /** One more line: it fits, or it ends the reading. */
  lemma RestStep(content: Text, offset: nat, count: nat, limit: nat, lines: seq<Text>)
    requires offset < |content| && count > 0
    ensures var line := Stripped(content[offset..LineEnd(content, offset)]);
            After(lines, Rest(content, offset, count, limit))
            == if |line| + 1 > limit then Result(lines, true)
               else After(lines + [line], Rest(content, NextLine(content, offset), count - 1, limit - |line| - 1))
  {
    hide Ahead, Stripped, Lines;
    AheadStep(content, offset, count);
    var line := Stripped(content[offset..LineEnd(content, offset)]);
    var ahead, rest := Ahead(content, offset, count), Ahead(content, NextLine(content, offset), count - 1);
    assert ahead[0] == line && ahead[1..] == rest;
    if |line| + 1 <= limit {
      var kept := Fitting(rest, limit - |line| - 1);
      assert Fitting(ahead, limit) == [line] + kept;
      assert lines + ([line] + kept) == lines + [line] + kept;
    } else {
      assert lines + [] == lines;
    }
  }

  lemma RestEnds(content: Text, offset: nat, count: nat, limit: nat, lines: seq<Text>)
    requires offset >= |content| || count == 0
    ensures After(lines, Rest(content, offset, count, limit)) == Result(lines, false)
  {
    assert Ahead(content, offset, count) == [];
    assert lines + [] == lines;
  }

  // ---- the two readers ----

  /** std::getline: None at the end of the file, otherwise the line and the place behind it. */
  function GetLine(content: Text, offset: nat): Option<(Text, nat)> {
    if offset >= |content| then None
    else Some((content[offset..LineEnd(content, offset)], NextLine(content, offset)))
  }

  method ReadRange(content: Text, request: Request) returns (result: Result)
    ensures result == Range(content, request)
  {
    hide Range, Rest, After, Stripped;
    RangeIsRest(content, request);
    var offset: nat, bytes: nat, current: nat := 0, 0, 1;
    var input := GetLine(content, offset);
    while current < request.firstLine && input.Some?
      invariant 1 <= current && (current <= request.firstLine || current == 1) && input == GetLine(content, offset)
      invariant Skipped(content, 0, if request.firstLine == 0 then 0 else request.firstLine - 1)
                == Skipped(content, offset, if request.firstLine < current then 0 else request.firstLine - current)
      decreases request.firstLine - current
    {
      offset := input.value.1;
      input := GetLine(content, offset);
      current := current + 1;
    }
    result := Result([], false);
    while |result.lines| < request.lineCount && input.Some?
      invariant |result.lines| <= request.lineCount && bytes <= request.byteLimit && !result.byteLimitHit
      invariant input == GetLine(content, offset)
      invariant Range(content, request)
                == After(result.lines, Rest(content, offset, request.lineCount - |result.lines|,
                                            request.byteLimit - bytes))
      decreases request.lineCount - |result.lines|
    {
      var line := Stripped(input.value.0);
      RestStep(content, offset, request.lineCount - |result.lines|, request.byteLimit - bytes, result.lines);
      if |line| + 1 > request.byteLimit - bytes {
        return Result(result.lines, true);
      }
      bytes := bytes + |line| + 1;
      result := Result(result.lines + [line], false);
      offset := input.value.1;
      input := GetLine(content, offset);
    }
    RestEnds(content, offset, request.lineCount - |result.lines|, request.byteLimit - bytes, result.lines);
  }

  /** memchr. */
  method FindNewline(content: Text, offset: nat) returns (found: bool, end: nat)
    requires offset <= |content|
    ensures end == LineEnd(content, offset) && (found <==> end < |content|)
  {
    end := offset;
    while end < |content| && content[end] != NEWLINE
      invariant offset <= end <= |content| && LineEnd(content, offset) == LineEnd(content, end)
    {
      end := end + 1;
    }
    found := end < |content|;
  }

  method SkipBlobLine(content: Text, offset: nat) returns (next: nat)
    requires offset < |content|
    ensures next == NextLine(content, offset)
  {
    var newline, end := FindNewline(content, offset);
    next := if newline then end + 1 else |content|;
  }

  method ReadBlobRange(content: Text, request: Request) returns (result: Result)
    ensures result == Range(content, request)
  {
    hide Range, Rest, After;
    RangeIsRest(content, request);
    var offset: nat, bytes: nat, current: nat := 0, 0, 1;
    while current < request.firstLine && offset < |content|
      invariant 1 <= current && (current <= request.firstLine || current == 1)
      invariant Skipped(content, 0, if request.firstLine == 0 then 0 else request.firstLine - 1)
                == Skipped(content, offset, if request.firstLine < current then 0 else request.firstLine - current)
      decreases request.firstLine - current
    {
      offset := SkipBlobLine(content, offset);
      current := current + 1;
    }
    result := Result([], false);
    while |result.lines| < request.lineCount && offset < |content|
      invariant |result.lines| <= request.lineCount && bytes <= request.byteLimit && !result.byteLimitHit
      invariant Range(content, request)
                == After(result.lines, Rest(content, offset, request.lineCount - |result.lines|,
                                            request.byteLimit - bytes))
      decreases request.lineCount - |result.lines|
    {
      RestStep(content, offset, request.lineCount - |result.lines|, request.byteLimit - bytes, result.lines);
      var newline, end := FindNewline(content, offset);
      var length := end - offset;
      if length > 0 && content[offset + length - 1] == RETURN {
        length := length - 1;
      }
      assert content[offset..offset + length] == Stripped(content[offset..end]);
      if length + 1 > request.byteLimit - bytes {
        return Result(result.lines, true);
      }
      bytes := bytes + length + 1;
      result := Result(result.lines + [content[offset..offset + length]], false);
      offset := if newline then end + 1 else |content|;
    }
    RestEnds(content, offset, request.lineCount - |result.lines|, request.byteLimit - bytes, result.lines);
  }

  // ---- what the range promises ----

  lemma {:induction false} FittingIsFront(lines: seq<Text>, limit: nat)
    ensures |Fitting(lines, limit)| <= |lines| && Fitting(lines, limit) == lines[..|Fitting(lines, limit)|]
    ensures Total(Fitting(lines, limit)) <= limit
    ensures |Fitting(lines, limit)| < |lines| ==> Total(lines[..|Fitting(lines, limit)| + 1]) > limit
    decreases |lines|
  {
    if lines != [] && |lines[0]| + 1 <= limit {
      var left := limit - |lines[0]| - 1;
      var kept := Fitting(lines[1..], left);
      assert Fitting(lines, limit) == [lines[0]] + kept;
      hide *;
      FittingIsFront(lines[1..], left);
      TotalSplit(lines[0], kept);
      FrontSplit(lines, |kept|);
      if |kept| < |lines| - 1 {
        TotalSplit(lines[0], lines[1..][..|kept| + 1]);
        FrontSplit(lines, |kept| + 1);
      }
    } else if lines != [] {
      assert lines[..1] == [lines[0]] && [lines[0]][..0] == [];
    }
  }

  lemma FrontSplit(lines: seq<Text>, n: nat)
    requires n < |lines|
    ensures lines[..n + 1] == [lines[0]] + lines[1..][..n]
  {
  }

  lemma {:induction false} TotalSplit(line: Text, lines: seq<Text>)
    ensures Total([line] + lines) == |line| + 1 + Total(lines)
    decreases |lines|
  {
    if lines == [] {
      assert [line] + lines == [line] && [line][..0] == [];
    } else {
      assert ([line] + lines)[..|lines|] == [line] + lines[..|lines| - 1];
      TotalSplit(line, lines[..|lines| - 1]);
    }
  }

  lemma {:induction false} TotalGrows(lines: seq<Text>, m: nat, n: nat)
    requires m <= n <= |lines|
    ensures Total(lines[..m]) <= Total(lines[..n])
    decreases n - m
  {
    if m < n {
      TotalGrows(lines, m, n - 1);
      assert lines[..n][..n - 1] == lines[..n - 1];
    }
  }

  /** Both readers return the longest front of the window that fits the byte limit, and report the limit exactly when
      a line of the window is missing. */
  lemma RangeIsLongest(content: Text, r: Request)
    ensures var window, result := Window(content, r), Range(content, r);
            && |result.lines| <= |window| && result.lines == window[..|result.lines|]
            && (result.byteLimitHit <==> |result.lines| < |window|)
            && forall m | 0 <= m <= |window| :: Total(window[..m]) <= r.byteLimit <==> m <= |result.lines|
  {
    hide Window;
    var window, kept := Window(content, r), Fitting(Window(content, r), r.byteLimit);
    FittingIsFront(window, r.byteLimit);
    forall m | 0 <= m <= |window| ensures Total(window[..m]) <= r.byteLimit <==> m <= |kept| {
      if m <= |kept| {
        TotalGrows(window, m, |kept|);
      } else {
        TotalGrows(window, |kept| + 1, m);
      }
    }
  }

  function Joined(lines: seq<Text>): Text {
    if lines == [] then [] else lines[0] + [NEWLINE] + Joined(lines[1..])
  }

  /** The lines are the content cut at its newlines; the last one may lack its own. */
  lemma {:induction false} LinesJoin(content: Text, offset: nat)
    requires offset <= |content|
    ensures var tail := content[offset..];
            Joined(Lines(content, offset))
            == if tail == [] || tail[|tail| - 1] == NEWLINE then tail else tail + [NEWLINE]
    ensures forall line | line in Lines(content, offset) :: NEWLINE !in line
    decreases |content| - offset
  {
    if offset < |content| {
      var end, next := LineEnd(content, offset), NextLine(content, offset);
      var line, rest := content[offset..end], Lines(content, next);
      LinesStep(content, offset);
      JoinedStep(line, rest);
      assert next == if end < |content| then end + 1 else |content|;
      hide Lines, LineEnd, NextLine, Joined;
      LinesJoin(content, next);
      if end < |content| {
        assert content[offset..] == line + [NEWLINE] + content[next..];
      } else {
        NoLines(content, next);
        assert content[offset..] == line && line + [NEWLINE] + [] == line + [NEWLINE];
      }
    }
  }

  lemma JoinedStep(line: Text, lines: seq<Text>)
    ensures Joined([line] + lines) == line + [NEWLINE] + Joined(lines)
  {
    assert ([line] + lines)[1..] == lines;
  }

  lemma NoLines(content: Text, offset: nat)
    requires offset >= |content|
    ensures Joined(Lines(content, offset)) == []
  {
  }

  /** A line of the range is the line of the content, without the carriage return when it ends in one. */
  lemma LinesComeBack(content: Text, r: Request, i: nat)
    requires i < |Range(content, r).lines|
    ensures var k := (if r.firstLine == 0 then 0 else r.firstLine - 1) + i;
            && i < r.lineCount && k < |Lines(content, 0)|
            && var line, shown := Lines(content, 0)[k], Range(content, r).lines[i];
            && (line != [] && line[|line| - 1] == 13 ==> line == shown + [13])
            && (line == [] || line[|line| - 1] != 13 ==> line == shown)
  {
    RangeIsLongest(content, r);
    hide Range, Lines;
    assert Range(content, r).lines[i] == Window(content, r)[i];
  }
}
