/** The output parsers of index.js, `parseJUnitOutput` and `parseSimpleTestOutput`.
    Both run one algorithm over the harness's standard output: split it into lines;
    for the test case numbered k, find the first line holding the header marker of k,
    scan the following lines up to one holding a stop token, and let every line of
    that block update the case's record. They differ only in their marker words, so
    the algorithm is stated once, as `Parse`, over a `Markers` value, and each
    JavaScript function is proved to be `Parse` at its own markers. */
module OutputParser {
  import opened Text
  import opened Patterns
  import opened Records

  /** The marker vocabulary of one output dialect. The header of case k is
      `headerPrefix + k + ":"`; a line holding `caseToken` or `separator` ends a
      block; the labels introduce the three fields; `timeSuffix` must follow the
      digits of the time. */
  datatype Markers = Markers(
    headerPrefix: string,
    caseToken: string,
    separator: string,
    outputLabel: string,
    timeLabel: string,
    timeSuffix: string,
    passedLabel: string)

  /** The words of the JUnit harness (index.js lines 191-212). */
  const JUnitMarkers := Markers("Test Case ", "Test Case", "---", "Output:", "Execution Time:", "ms", "Passed:")

  /** The words of the plain fallback harness (index.js lines 245-263). */
  const SimpleMarkers := Markers("TEST_CASE_", "TEST_CASE_", "---", "OUTPUT:", "EXECUTION_TIME:", "", "PASSED:")

  /** The word a "passed" line must contain to count as passed. */
  const TrueToken := "true"

  /** Header marker of the test case numbered `k` (1-based). */
  function HeaderMarker(m: Markers, k: nat): string
  {
    m.headerPrefix + NatToString(k) + ":"
  }

  /** Markers under which headers of different cases can never be confused and a
      header line also ends the block before it: the header starts with the case
      token, and no copy of the header can begin inside its prefix or in the digits
      and colon after it. */
  predicate ValidMarkers(m: Markers)
  {
    |m.caseToken| >= 3 && |m.headerPrefix| >= |m.caseToken| &&
    m.headerPrefix[..|m.caseToken|] == m.caseToken &&
    !IsDigit(m.headerPrefix[0]) && m.headerPrefix[0] != ':' && m.headerPrefix[0] != '\r' &&
    Blocked(m.headerPrefix[1..], m.headerPrefix)
  }

  // ---------------------------------------------------------------------------
  // One line of a block

  /** The line ends the block (the `while` condition, index.js lines 197 and 248). */
  predicate IsStop(m: Markers, line: string)
  {
    Contains(line, m.caseToken) || Contains(line, m.separator)
  }

  predicate SetsOutput(m: Markers, line: string)
  {
    Contains(line, m.outputLabel) && MatchCapture(line, m.outputLabel + " ").Some?
  }

  predicate SetsTime(m: Markers, line: string)
  {
    Contains(line, m.timeLabel) && MatchTime(line, m.timeLabel + " ", m.timeSuffix).Some?
  }

  predicate SetsPassed(m: Markers, line: string)
  {
    Contains(line, m.passedLabel)
  }

  /** The line holds none of the three labels. */
  predicate Quiet(m: Markers, line: string)
  {
    !Contains(line, m.outputLabel) && !Contains(line, m.timeLabel) && !Contains(line, m.passedLabel)
  }

  /** The record after one line of a block has been read: the three `if`s of the
      loop body (index.js lines 198-212 and 249-263). */
  function Step(m: Markers, r: ExecutionResult, line: string): ExecutionResult
  {
    ExecutionResult(
      if SetsPassed(m, line) then Contains(line, TrueToken) else r.passed,
      if SetsOutput(m, line) then MatchCapture(line, m.outputLabel + " ").value else r.output,
      if SetsTime(m, line) then MatchTime(line, m.timeLabel + " ", m.timeSuffix).value else r.executionTime)
  }

  /** The record after the lines of a block have been read in order. */
  function Fold(m: Markers, r: ExecutionResult, block: seq<string>): ExecutionResult
    decreases |block|
  {
    if block == [] then r else Step(m, Fold(m, r, block[..|block| - 1]), block[|block| - 1])
  }

  // ---------------------------------------------------------------------------
  // The lines of a block and the result of one test case

  /** Where the scan that starts at `j` stops: the first stop line at or after `j`,
      or the end of the text. */
  function BlockEnd(m: Markers, lines: seq<string>, j: nat): (e: nat)
    requires j <= |lines|
    ensures j <= e <= |lines|
    ensures forall k | j <= k < e :: !IsStop(m, lines[k])
    ensures e == |lines| || IsStop(m, lines[e])
    decreases |lines| - j
  {
    if j == |lines| || IsStop(m, lines[j]) then j else BlockEnd(m, lines, j + 1)
  }

  /** The record built by the scan that starts at line `start`. */
  function ScanSpec(m: Markers, lines: seq<string>, start: nat): ExecutionResult
    requires start <= |lines|
  {
    Fold(m, Default, lines[start..BlockEnd(m, lines, start)])
  }

  /** `lines.findIndex(line => line.includes(pat))`: the first line holding `pat`, or -1. */
  function FindIndex(lines: seq<string>, pat: string): (r: int)
    ensures r == -1 <==> forall i | 0 <= i < |lines| :: !Contains(lines[i], pat)
    ensures r != -1 ==> 0 <= r < |lines| && Contains(lines[r], pat) &&
                        forall i | 0 <= i < r :: !Contains(lines[i], pat)
    decreases |lines|
  {
    if lines == [] then -1
    else if Contains(lines[0], pat) then 0
    else
      var r := FindIndex(lines[1..], pat);
      if r == -1 then -1 else r + 1
  }

  /** `lines.filter(line => line.includes(pat))` */
  function Filter(lines: seq<string>, pat: string): (r: seq<string>)
    ensures forall i | 0 <= i < |r| :: Contains(r[i], pat) && r[i] in lines
    decreases |lines|
  {
    if lines == [] then []
    else (if Contains(lines[0], pat) then [lines[0]] else []) + Filter(lines[1..], pat)
  }

  /** `lines.indexOf(x)`: the first line equal to `x`, or -1. */
  function IndexOf(lines: seq<string>, x: string): (r: int)
    ensures r == -1 <==> x !in lines
    ensures r != -1 ==> 0 <= r < |lines| && lines[r] == x && forall i | 0 <= i < r :: lines[i] != x
    decreases |lines|
  {
    if lines == [] then -1
    else if lines[0] == x then 0
    else
      var r := IndexOf(lines[1..], x);
      if r == -1 then -1 else r + 1
  }

  /** The result for the test case numbered `k`: the default record when no line
      holds its header, otherwise the record built from the lines after the first
      such line. */
  function ParseCase(m: Markers, lines: seq<string>, k: nat): ExecutionResult
  {
    var h := FindIndex(lines, HeaderMarker(m, k));
    if h == -1 then Default else ScanSpec(m, lines, h + 1)
  }

  /** The shared parser: one record per test case, record `i` for the case whose
      header carries the number `i + 1`. */
  function Parse(m: Markers, text: string, count: nat): (rs: seq<ExecutionResult>)
    ensures |rs| == count
  {
    var lines := Split(text, '\n');
    seq(count, i requires 0 <= i < count => ParseCase(m, lines, i + 1))
  }

  // ---------------------------------------------------------------------------
  // The JavaScript functions

  /** The body of the inner `while` loop (index.js lines 198-212 and 249-263): the
      three `if`s that let one line update the record. */
  method ReadLine(m: Markers, line: string, passed0: bool, output0: string, executionTime0: nat)
    returns (passed: bool, output: string, executionTime: nat)
    ensures ExecutionResult(passed, output, executionTime)
         == Step(m, ExecutionResult(passed0, output0, executionTime0), line)
  {
    passed, output, executionTime := passed0, output0, executionTime0;
    if Contains(line, m.outputLabel) {
      var outputMatch := MatchCapture(line, m.outputLabel + " ");
      if outputMatch.Some? {
        output := outputMatch.value;
      }
    }
    if Contains(line, m.timeLabel) {
      var timeMatch := MatchTime(line, m.timeLabel + " ", m.timeSuffix);
      if timeMatch.Some? {
        executionTime := timeMatch.value;
      }
    }
    if Contains(line, m.passedLabel) {
      passed := Contains(line, TrueToken);
    }
  }

  /** The inner `while` loop of both parsers (index.js lines 196-214 and 247-265),
      scanning from line `start` for the markers `m`. */
  method ScanBlock(m: Markers, lines: seq<string>, start: nat)
    returns (passed: bool, output: string, executionTime: nat)
    requires start <= |lines|
    ensures ExecutionResult(passed, output, executionTime) == ScanSpec(m, lines, start)
  {
    passed, output, executionTime := false, "", 0;
    var j := start;
    while j < |lines| && !Contains(lines[j], m.caseToken) && !Contains(lines[j], m.separator)
      invariant start <= j <= BlockEnd(m, lines, start)
      invariant ExecutionResult(passed, output, executionTime) == Fold(m, Default, lines[start..j])
      decreases |lines| - j
    {
      passed, output, executionTime := ReadLine(m, lines[j], passed, output, executionTime);
      assert lines[start..j + 1][..j - start] == lines[start..j];
      j := j + 1;
    }
  }

  /** One pass of the outer loop of `parseJUnitOutput` (index.js lines 184-227): the
      lines holding the header of case `k`, the position of the first of them, then
      the scan after it. */
  method LocateCaseByFilter(m: Markers, lines: seq<string>, k: nat) returns (result: ExecutionResult)
    ensures result == ParseCase(m, lines, k)
  {
    var passed, caseOutput, executionTime := false, "", 0;
    var testCaseLines := Filter(lines, HeaderMarker(m, k));
    FilterThenIndexOf(lines, HeaderMarker(m, k));
    if |testCaseLines| > 0 {
      var outputIndex := IndexOf(lines, testCaseLines[0]);
      if outputIndex != -1 {
        passed, caseOutput, executionTime := ScanBlock(m, lines, outputIndex + 1);
      }
    }
    result := ExecutionResult(passed, caseOutput, executionTime);
  }

  /** `parseJUnitOutput(output, testCases)` (index.js lines 180-231). It locates a
      header with `filter` and then `indexOf`. */
  method ParseJUnitOutput(output: string, testCases: seq<TestCase>) returns (results: seq<ExecutionResult>)
    ensures results == Parse(JUnitMarkers, output, |testCases|)
  {
    results := [];
    var lines := Split(output, '\n');
    for i := 0 to |testCases|
      invariant |results| == i
      invariant forall k | 0 <= k < i :: results[k] == ParseCase(JUnitMarkers, lines, k + 1)
    {
      var result := LocateCaseByFilter(JUnitMarkers, lines, i + 1);
      results := results + [result];
    }
    ParseFromCases(JUnitMarkers, output, results);
  }

  /** One pass of the outer loop of `parseSimpleTestOutput` (index.js lines 239-277):
      the first line holding the header of case `k`, then the scan after it. */
  method LocateCase(m: Markers, lines: seq<string>, k: nat) returns (result: ExecutionResult)
    ensures result == ParseCase(m, lines, k)
  {
    var passed, caseOutput, executionTime := false, "", 0;
    var testCaseStart := FindIndex(lines, HeaderMarker(m, k));
    if testCaseStart != -1 {
      passed, caseOutput, executionTime := ScanBlock(m, lines, testCaseStart + 1);
    }
    result := ExecutionResult(passed, caseOutput, executionTime);
  }

  /** `parseSimpleTestOutput(output, testCases)` (index.js lines 234-281). It locates
      a header with `findIndex`. */
  method ParseSimpleTestOutput(output: string, testCases: seq<TestCase>) returns (results: seq<ExecutionResult>)
    ensures results == Parse(SimpleMarkers, output, |testCases|)
  {
    results := [];
    var lines := Split(output, '\n');
    for i := 0 to |testCases|
      invariant |results| == i
      invariant forall k | 0 <= k < i :: results[k] == ParseCase(SimpleMarkers, lines, k + 1)
    {
      var result := LocateCase(SimpleMarkers, lines, i + 1);
      results := results + [result];
    }
    ParseFromCases(SimpleMarkers, output, results);
  }

  /** A list holding, at each index `k`, the result of the case numbered `k + 1` is
      what `Parse` returns. */
  lemma ParseFromCases(m: Markers, text: string, rs: seq<ExecutionResult>)
    requires forall k | 0 <= k < |rs| :: rs[k] == ParseCase(m, Split(text, '\n'), k + 1)
    ensures rs == Parse(m, text, |rs|)
  {
  }

  /** `filter` followed by `indexOf` of the first line it keeps finds the same line
      as `findIndex`: the first line holding the pattern. */
  lemma {:induction false} FilterThenIndexOf(lines: seq<string>, pat: string)
    ensures |Filter(lines, pat)| > 0 <==> FindIndex(lines, pat) != -1
    ensures |Filter(lines, pat)| > 0 ==> IndexOf(lines, Filter(lines, pat)[0]) == FindIndex(lines, pat)
    decreases |lines|
  {
    if lines != [] {
      FilterThenIndexOf(lines[1..], pat);
      if !Contains(lines[0], pat) {
        var f := Filter(lines[1..], pat);
        assert Filter(lines, pat) == f;
        if |f| > 0 {
          var x := f[0];
          assert lines[0] != x;
        }
      }
    }
  }
}
