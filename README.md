# Even-or-Odd code runner: harness generators and output parsers

This project models the text side of the code-runner service in `index.js`. The service
takes a user's Java `Solution` class and a list of test cases. It writes a Java test
harness for them, which is either a JUnit 4 class (`generateJUnitTest`) or a plain
fallback class with a `main` method (`generateSimpleTest`). It then runs the harness and
turns the harness's standard output back into one record per test case
(`parseJUnitOutput`, `parseSimpleTestOutput`). Each record has a `passed` flag, the
printed `output` and an `executionTime`.

The model consists of these modules:

- `Records` holds the values at the service boundary: test cases and the
  `{passed, output, executionTime}` record. The default record is `{false, "", 0}`.
- `Text` models the two JavaScript string built-ins the parsers call, `includes` and
  `split('\n')`. Its `Join` and `JoinLines` are not parser built-ins: they build the
  printed text of a run (`println` output, lines each followed by a newline) and the
  generated source, and they are the inverse that `split` is proved against. It also
  models Java's decimal rendering of integers.
- `Patterns` models the four regular expressions the parsers apply to a line, under a
  leftmost-match semantics in which `.` matches neither `\n` nor `\r`:
  `/Output: (.+)/`, `/OUTPUT: (.+)/`, `/Execution Time: (\d+)ms/` and
  `/EXECUTION_TIME: (\d+)/`. It also models `parseInt` of the captured digits.
- `OutputParser` states the one algorithm both parsers share:
  - the function `Parse` is written over a `Markers` value, which is the dialect's marker
    words;
  - the two JavaScript functions are methods with their own loops and header lookups;
  - each method is proved equal to `Parse` at its dialect's markers. `parseJUnitOutput`
    uses `filter` then `indexOf`, and `parseSimpleTestOutput` uses `findIndex`.
- `ParserProperties` holds the properties:
  - how one block is read: the last line wins, and lines without a label are inert;
  - where a block ends;
  - what a missing header yields;
  - that the headers of different cases are never confused.
- `Harness` holds the two generators. Each one appends one template per test case, in
  the caller's order, to a fixed prologue and closes the class. Its lemmas state where
  each case's code sits in the generated source and what it declares and prints. The
  report statements of each template are built from the same marker words and field
  labels the round trips read, so the generated source and the parsed protocol share
  one copy of that wording.
- `Transcript`, `Protocol`, `JUnitRun` and `SimpleRun` model a run of the generated
  program:
  - each case prints a block of lines;
  - every case reads back from its own block as the record those lines describe;
  - a case that printed nothing, or only an error, reads back as the default record;
  - in the JUnit dialect this holds whatever order JUnit runs the test methods in.
- `Scenarios` runs the seven Even-or-Odd cases of the web client through both dialects.

Both parsers end each case with a guard that replaces an `undefined` or `null` output
with `"No output"` (index.js lines 219-221 and 269-271). That guard never fires: the
variable starts as `""` and is only ever assigned a regex capture, which is a string.
So the default output here is `""`. The `"No output"` a user sees comes from the web
client instead, which shows `result.output || "No output"` (public/leetcode.js line 198)
and so replaces the empty string.

## Model

| member | source | states |
|---|---|---|
| OutputParser.ParseJUnitOutput | index.js:180-231 | returns exactly `Parse` at the JUnit markers: one record per test case, in order |
| OutputParser.ParseSimpleTestOutput | index.js:234-281 | returns exactly `Parse` at the fallback markers, so the fallback parser is the shared parser at other marker words |
| OutputParser.LocateCaseByFilter | index.js:191-215 | the `filter` then `indexOf` lookup followed by the scan gives the case's record as specified by `ParseCase` |
| OutputParser.LocateCase | index.js:245-266 | the `findIndex` lookup followed by the scan gives the case's record as specified by `ParseCase` |
| OutputParser.ScanBlock | index.js:196-214 | the inner `while` loop (also index.js lines 247-265) builds the record from the default by reading the lines from `start` up to the first line holding the case token or `---` |
| OutputParser.ReadLine | index.js:198-212 | one pass of the loop body updates output, time and flag exactly as one `Step` of the specification |
| OutputParser.FilterThenIndexOf | index.js:191-193 | `filter` finds a line exactly when `findIndex` does, and `indexOf` of the first line it keeps is the `findIndex` position |
| OutputParser.FindIndex | index.js:245 | -1 exactly when no line holds the pattern; otherwise the first line holding it |
| OutputParser.IndexOf | index.js:193 | -1 exactly when the line is absent; otherwise its first position |
| OutputParser.Filter | index.js:191 | every kept line holds the pattern and is one of the lines |
| OutputParser.BlockEnd | index.js:197 | the scan stops at the first line holding a stop token at or after its start, or at the end of the text |
| OutputParser.Parse | index.js:184-228 | one record per test case |
| OutputParser.ParseFromCases | index.js:223-227 | a list whose entry `k` is the record of case `k + 1` is the parser's result |
| ParserProperties.ParseEntry | index.js:184-228 | entry `i` of the result is the record of the case numbered `i + 1`, and it does not depend on how many cases follow |
| ParserProperties.MissingHeader | index.js:186-192 | a case whose header no line holds gets `{false, "", 0}` |
| ParserProperties.BlockBoundary | index.js:196-197 | a case's record is built from exactly the lines between its first header line and the next stop line, or the end of the text |
| ParserProperties.WindowLocality | index.js:191-214 | lines before a case's first header line and after the next stop line do not affect its record |
| ParserProperties.FirstHeaderAt | index.js:245 | the first line holding the header is the one the lookup finds, whatever follows it |
| ParserProperties.FindIndexAt | index.js:245 | `findIndex` returns the first position holding the pattern |
| ParserProperties.ScanAfter | index.js:247-265 | a scan depends only on the lines from its start |
| ParserProperties.BlockEndShift | index.js:197 | where the scan stops does not depend on the lines before its start |
| ParserProperties.BlockEndAfterBody | index.js:197 | the scan runs past stop-free lines and stops at the first stop line |
| ParserProperties.LastPassedWins | index.js:210-212 | the last line of a block holding `Passed:` decides the flag, whatever the lines before it set: true exactly when that line holds `true` |
| ParserProperties.LastOutputWins | index.js:198-203 | the last line on which the output expression matches decides the output |
| ParserProperties.LastTimeWins | index.js:204-209 | the last line on which the time expression matches decides the time |
| ParserProperties.BareOutputLabel | index.js:199-202 | a line holding just `Output: `, or that and a `\r`, leaves the output as it was |
| ParserProperties.StepOutputByMatch | index.js:198-203 | the output changes exactly when the expression matches, and then to its capture; the `includes` guard never blocks a match |
| ParserProperties.StepTimeByMatch | index.js:204-209 | the time changes exactly when the time expression matches, and then to its value |
| ParserProperties.StepQuiet | index.js:198-212 | a line holding none of the three labels leaves the record unchanged |
| ParserProperties.FoldQuiet | index.js:196-214 | lines holding none of the three labels leave the record unchanged |
| ParserProperties.FoldConcat | index.js:196-214 | reading a block in two parts is reading it whole |
| ParserProperties.FoldAt | index.js:196-214 | the record after a block is the record after its line `i` with the remaining lines read on top |
| ParserProperties.FoldKeepsPassed | index.js:210-212 | lines without `Passed:` keep the flag |
| ParserProperties.FoldKeepsOutput | index.js:198-203 | lines on which the output expression does not match keep the output |
| ParserProperties.FoldKeepsTime | index.js:204-209 | lines on which the time expression does not match keep the time |
| ParserProperties.HeaderDistinct | index.js:191 | the header line of one case never holds the header of another: the digits end at the colon, so `Test Case 1:` never matches `Test Case 10:` |
| ParserProperties.HeaderIsStop | index.js:197 | a header line also ends the block before it |
| ParserProperties.NoTokenNoHeader | index.js:191 | a line without the case token holds no header |
| ParserProperties.MarkersValid | index.js:191-263 | both dialects' marker words meet the conditions the header and boundary lemmas need |
| Patterns.MatchCaptureIsLeftmost | index.js:199 | `line.match(/Output: (.+)/)` captures, from the leftmost match, every character up to the next line terminator, and the capture is never empty |
| Patterns.MatchCaptureFails | index.js:200 | the capture fails exactly when `Output: ` followed by a non-terminator matches nowhere |
| Patterns.CaptureOfLine | index.js:117 | the line `Output: <r>` captures `r` when `r` is non-empty and on one line |
| Patterns.CaptureOfBareLabel | index.js:199 | a bare `Output: ` line captures nothing |
| Patterns.MatchTimeIsLeftmost | index.js:205 | `/Execution Time: (\d+)ms/` yields, from its leftmost match, the value of the whole digit run, which must be followed by `ms` |
| Patterns.MatchTimeFails | index.js:206 | the time expression fails exactly when it matches nowhere |
| Patterns.TimeOfLine | index.js:118 | a time line printed from a natural `n` reads back as `n` |
| Patterns.TimeOfNegative | index.js:205 | a label followed by a minus sign does not match, so a negative time is never read |
| Text.SplitJoinLines | index.js:182 | splitting printed lines at `\n` gives the lines back, followed by the empty line after the last newline |
| Text.SplitJoin | index.js:182 | splitting a join of separator-free pieces gives the pieces back |
| Text.JoinSplit | index.js:182 | joining the pieces of a split restores the text |
| Text.DecimalOfNatToString | index.js:207 | `parseInt` of the decimal rendering of `n` is `n` |
| Text.NatToStringInjective | index.js:114 | different case numbers print different digits |
| Text.IntToStringShape | index.js:107-115 | the rendering of an int is non-empty, starts with a digit or a minus sign, and has only digits after that; the template's interpolation of the number (line 107) and Java's printing of it (line 115) give this same text within Java's int range |
| Protocol.ReportReads | index.js:114-120 | the report lines of a returned result read back as `passed = (result == expected)`, `output = result` and the time when it is not negative; none of them ends the block. The result may hold field labels (`Carriable`), since the later report lines set those fields again |
| Protocol.FirstFourRead | index.js:114-118 | without the `Passed:` line the flag stays false, and output and time are still read |
| Protocol.NegativeTime | index.js:118 | a negative elapsed time is not read, so the time stays 0 |
| Protocol.PassedLine | index.js:119 | the `Passed:` line holds the word `true` exactly when the printed boolean is true |
| Transcript.ReadBack | index.js:191-214 | a case whose block is in the output reads back as its block's report lines, wherever the block is |
| Transcript.ReadAbsent | index.js:186-192 | a case no block reports reads back as the default record |
| JUnitRun.JUnitRoundTrip | index.js:114-120 | under `JUnitRunFits`, parsing the output of the JUnit class gives, for every case, the record its method printed. This holds for any run order. A case whose call threw, or whose method did not run, gets the default record. `JUnitRunFits` asks that each method runs at most once, and that every expected value is on one line, holds no marker word and holds no backslash or quote. A returned result must be on one line and must not hold `Test Case` or `---`. When its elapsed time is negative it must also not hold `Execution Time:`. The lines JUnitCore writes must name no case and set no field |
| JUnitRun.JUnitBlockReads | index.js:111-120 | for an expected value without marker words and a `Carriable` result, a method's block ends at the next header or the end of the text; a thrown call prints nothing; a `null` result reads as output `null` with the flag false |
| SimpleRun.SimpleRoundTrip | index.js:142-173 | under `SimpleRunFits`, parsing the output of the fallback program gives every case the record of its printed block; an error block gives the default record. `SimpleRunFits` asks that every expected value is on one line, holds no marker word and holds no backslash or quote. A returned result must be on one line and must not hold `TEST_CASE_` or `---`, and with a negative elapsed time it must not hold `EXECUTION_TIME:`. An exception's message must be on one line and must not hold `TEST_CASE_`, `---`, `OUTPUT:` or `EXECUTION_TIME:` |
| SimpleRun.SimpleBlockReads | index.js:143-169 | for an expected value without marker words and an outcome that fits (`OutcomeFits`), a case's block ends at its `---` line, and its lines give the record of the case |
| SimpleRun.ErrorReads | index.js:163-168 | the `ERROR:` and `PASSED: false` lines of a caught exception leave the default record unchanged, also when the message holds `PASSED:`, since the failed line sets the flag again |
| SimpleRun.SummaryAgrees | index.js:173 | under `SimpleRunFits`, the count in the summary line equals the number of records the parser marks as passed |
| SimpleRun.PassedCountIsRecords | index.js:153-154 | `passedTests` counts exactly the cases whose record is marked passed |
| SimpleRun.SummaryQuiet | index.js:173 | the summary line names no case and no field, so it leaves every record unchanged |
| Harness.Generate | index.js:103-127 | the shared shape of both generators: the loop appends one template per case, in the caller's order, to the prologue and then closes the class |
| Harness.GenerateJUnitTest | index.js:93-129 | returns the prologue, the test method of every case in order, and `}` |
| Harness.GenerateSimpleTest | index.js:132-177 | returns the prologue, the block of every case in order, and the summary epilogue |
| Harness.JUnitLayout | index.js:94-127 | the source opens with the prologue, holds case `i + 1`'s method right after the methods before it, and ends with `}` |
| Harness.JUnitMethodEmbeds | index.js:104-124 | the method of case `k` is named `testCase<k>`, declares its input and expected value, prints the header `Test Case k:` that the parser looks for, and then its report statements |
| Harness.JUnitMethodName | index.js:106 | the method of case `k` is declared as `public void testCase<k>()` |
| Harness.JUnitMethodPrints | index.js:114-120 | the method prints, one statement after the other, the header, the input, expected, `Output:`, `Execution Time:` (with `ms`) and `Passed:` lines and a blank line, each built from the wording the JUnit round trip reads |
| Harness.SimpleLayout | index.js:133-175 | the source opens with the prologue, holds case `i + 1`'s block right after the blocks before it, and ends with the summary |
| Harness.SimpleTotal | index.js:137 | the prologue declares `totalTests` as the number of cases |
| Harness.SimpleBlockEmbeds | index.js:143-169 | the block of case `k` declares its input and expected value, prints the header `TEST_CASE_k:` that the parser looks for, and holds its report and its error report |
| Harness.SimpleBlockPrints | index.js:156-167 | the `try` ends with the header, the field lines and `---`, and the `catch` right after it prints the header, `ERROR:`, `PASSED: false` and `---`, all built from the wording the fallback round trip reads |
| Harness.AssembleLayout | index.js:103-127 | the generated text is the head, then every part at its place in order, then the tail |
| Harness.AssembleGrows | index.js:103-125 | text already appended is never rewritten |
| Scenarios.LeetCodeSimplePasses | public/leetcode.js:45-81 | with a correct solution the seven client cases all read back as passed, with their answers and clamped times, in the fallback dialect |
| Scenarios.LeetCodeSimpleSummary | public/leetcode.js:45-81 | for these cases the summary line reads `SUMMARY: 7/7 tests passed`, and the parser counts seven passed records |
| Scenarios.LeetCodeSimpleThrows | public/leetcode.js:45-81 | when the call for `-4` throws, that case reads back as the default record and the other six still pass |
| Scenarios.LabelledResultReads | index.js:247-265 | a returned result `PASSED: true`, which holds a field label, is `Carriable` and reads back as itself with the flag the passed line gives |
| Scenarios.LeetCodeJUnitPasses | public/leetcode.js:45-81 | in the JUnit dialect, whatever order the seven methods run in, every case reads back as passed |

## Left out

- Running the harness is not modelled. This covers `executeCommand`, the temporary
  directory, writing files, `javac`, the classpath, and the choice between the JUnit
  and the fallback harness after a failed compile. The program's standard output is a
  parameter.
- The clock is not modelled. `endTime - startTime` is a parameter `elapsed` per case.
- The Express server and its routes (`/`, `/about`, `/leetcode`, `/api/run-code`) and
  `runJavaCode` are I/O around the core and are left out. So is the web client in `public/leetcode.js`, apart from
  its test-case table.
- When a test fails, `JUnitCore` exits with a non-zero status. `executeCommand` then
  rejects, and the server's handling of that rejection is not modelled.
- Java semantics are not modelled. The user's `Solution` is reduced to how each call
  ends: returned a string, returned `null`, or threw. Whatever the solution prints
  itself is not part of the modelled output. Errors that escape `catch (Exception e)`,
  such as a `StackOverflowError`, are not modelled either.
- Input numbers are unbounded integers. Java's 32-bit `int` range and the compile
  error a larger literal causes are not modelled.
- The generators embed `expected` between double quotes without escaping it, and the
  model embeds it the same way. The model compares and prints `expected` as its own
  text. That is the value of the Java literal only when `expected` holds no backslash
  (Java would read an escape) and no quote (the literal would end, or the class would
  not compile). So both round trips assume `JavaLiteral` of every expected value.
  Java's unescaping is not modelled.
- JUnitRun.JUnitRoundTrip, SimpleRun.SimpleRoundTrip, SimpleRun.SummaryAgrees,
  Protocol.ReportReads, JUnitRun.JUnitBlockReads and SimpleRun.SimpleBlockReads: an
  expected value must hold no field label, although the parser reads most such values
  correctly. It reads them wrongly in three cases:
  - an output label when the result is empty, since the output line then sets nothing;
  - a time label when the elapsed time is negative, since the time line then matches
    nothing;
  - a passed label when the call returns `null`, since JUnit then prints no passed
    line.

  The model does not separate these cases from the harmless ones. Returned results and
  exception messages are restricted only as far as the parser needs: a result holding
  a time label with a negative elapsed time, and a message holding an output or time
  label, would really be read wrongly.
- `parseInt` returns an exact natural number here. JavaScript loses precision for digit
  runs beyond 2^53, and that is not modelled.
- The lines JUnitCore writes are hypotheses of the JUnit round trip, not a model of
  JUnitCore. They are: the progress marks before a header on the same line, the lines
  before the first test, and the lines after the last one. The hypotheses are `Unlabelled`,
  `Quiet` and `OneLineEach`. JUnit's failure report, which follows the tests, is covered
  only as far as it meets them.
- JUnit's method order is a parameter (`order`). Any order with distinct methods is
  allowed.
- Standard output is modelled with a line ending `s` after every printed line: nothing
  or a `\r`. Interleaving with standard error is not modelled.
- `OutputParser.Filter`: the contract states only that every kept line holds the
  pattern and is one of the lines. Its relation to `findIndex` and `indexOf`, which is
  what `parseJUnitOutput` relies on, is stated by `OutputParser.FilterThenIndexOf`.
- The `"No output"` branch of both parsers (index.js lines 219-221 and 269-271) is
  unreachable, so the model has no such branch; see above.
