/** A run of the fallback program that `generateSimpleTest` writes, as
    `parseSimpleTestOutput` reads it. The program runs the cases in order; each
    prints a header line, then either the five report lines of its case or, when the
    call or `result.equals(expected)` throws, an error line and a failed line; each
    block ends with a separator line, and a summary line closes the run (index.js
    lines 141-173). Every case reads back as the record its block describes, and an
    error block as the default record. */
module SimpleRun {
  import opened Text
  import opened Patterns
  import opened Records
  import opened OutputParser
  import opened ParserProperties
  import opened Transcript
  import opened Protocol

  /** The text before each printed value (index.js lines 157-161). */
  const SimpleWording := Wording("INPUT: ", "EXPECTED: ", "OUTPUT: ", "EXECUTION_TIME: ", "", "PASSED: ")

  /** The text before the message of a caught exception (index.js line 166). */
  const ErrorLabel := "ERROR: "

  /** The lines after the header of a case whose code threw with `message`. */
  function ErrorLines(message: string, s: string): seq<string>
  {
    [ErrorLabel + message + s, SimpleWording.passed + BoolText(false) + s]
  }

  /** The block of case `k`. A `null` result throws in `result.equals(expected)`
      before anything of the case is printed, so it takes the error path too. */
  function SimpleBlock(k: nat, tc: TestCase, o: Outcome, s: string): Block
  {
    match o
    case Returned(r, el) => Printed("", k, ReportLines(SimpleWording, tc, r, el, s), [SimpleMarkers.separator + s])
    case ReturnedNull(_, message) => Printed("", k, ErrorLines(message, s), [SimpleMarkers.separator + s])
    case Threw(message) => Printed("", k, ErrorLines(message, s), [SimpleMarkers.separator + s])
  }

  /** The record the parser should build for a case: an error block sets nothing. */
  function SimpleRecord(tc: TestCase, o: Outcome): ExecutionResult
  {
    match o
    case Returned(r, el) => Reported(tc, r, el)
    case _ => Default
  }

  /** The blocks of all cases, in the order of the test cases. */
  function SimpleBlocks(tcs: seq<TestCase>, outcomes: seq<Outcome>, s: string): (bs: seq<Block>)
    requires |outcomes| == |tcs|
    ensures |bs| == |tcs|
    ensures forall i | 0 <= i < |tcs| :: bs[i] == SimpleBlock(i + 1, tcs[i], outcomes[i], s)
  {
    seq(|tcs|, i requires 0 <= i < |tcs| => SimpleBlock(i + 1, tcs[i], outcomes[i], s))
  }

  /** How many cases the program counts as passed: `passedTests` (index.js lines 138, 153-154). */
  function PassedCount(tcs: seq<TestCase>, outcomes: seq<Outcome>): (n: nat)
    requires |outcomes| == |tcs|
    ensures n <= |tcs|
  {
    if tcs == [] then 0
    else
      var last := |tcs| - 1;
      var add := if outcomes[last].Returned? && outcomes[last].result == tcs[last].expected then 1 else 0;
      PassedCount(tcs[..last], outcomes[..last]) + add
  }

  /** The closing line (index.js line 173). */
  function SummaryLine(passed: nat, total: nat, s: string): string
  {
    "SUMMARY: " + NatToString(passed) + "/" + NatToString(total) + " tests passed" + s
  }

  /** The standard output of the program. */
  function SimpleStdout(tcs: seq<TestCase>, outcomes: seq<Outcome>, s: string): string
    requires |outcomes| == |tcs|
  {
    JoinLines(Output(SimpleMarkers, [], SimpleBlocks(tcs, outcomes, s),
                     [SummaryLine(PassedCount(tcs, outcomes), |tcs|, s)], s))
  }

  /** The conditions of a run whose output the parser reads as intended: every
      expected value stays on one line, holds no marker word and means in the Java
      literal what it says, and every case's outcome fits. */
  predicate SimpleRunFits(tcs: seq<TestCase>, outcomes: seq<Outcome>, s: string)
  {
    |outcomes| == |tcs| && LineEnding(s) &&
    (forall i | 0 <= i < |tcs| :: Plain(SimpleMarkers, tcs[i].expected) && JavaLiteral(tcs[i].expected)) &&
    (forall i | 0 <= i < |outcomes| :: OutcomeFits(outcomes[i]))
  }

  /** What a case prints after its value label or error label can be read back: a
      returned result is `Carriable`, and the message of an exception fits the error
      line. */
  predicate OutcomeFits(o: Outcome)
  {
    match o
    case Returned(r, el) => Carriable(SimpleMarkers, r, el)
    case ReturnedNull(_, message) => MessageFits(SimpleMarkers, message)
    case Threw(message) => MessageFits(SimpleMarkers, message)
  }

  // ---------------------------------------------------------------------------
  // The round trip

  /** Every case reads back as its record: a returned result as the record its
      report lines describe, an error block as the default record. */
  lemma SimpleRoundTrip(tcs: seq<TestCase>, outcomes: seq<Outcome>, s: string)
    requires SimpleRunFits(tcs, outcomes, s)
    ensures var rs := Parse(SimpleMarkers, SimpleStdout(tcs, outcomes, s), |tcs|);
      |rs| == |tcs| && forall i | 0 <= i < |tcs| :: rs[i] == SimpleRecord(tcs[i], outcomes[i])
  {
    forall i | 0 <= i < |tcs|
      ensures Parse(SimpleMarkers, SimpleStdout(tcs, outcomes, s), |tcs|)[i] == SimpleRecord(tcs[i], outcomes[i])
    {
      SimpleCase(tcs, outcomes, s, i);
    }
  }

  lemma SimpleCase(tcs: seq<TestCase>, outcomes: seq<Outcome>, s: string, i: nat)
    requires SimpleRunFits(tcs, outcomes, s) && i < |tcs|
    ensures Parse(SimpleMarkers, SimpleStdout(tcs, outcomes, s), |tcs|)[i] == SimpleRecord(tcs[i], outcomes[i])
  {
    var text := SimpleStdout(tcs, outcomes, s);
    var trail := [SummaryLine(PassedCount(tcs, outcomes), |tcs|, s)];
    SimpleReadable(tcs, outcomes, s);
    ParseEntry(SimpleMarkers, text, |tcs|, i);
    SimpleCaseRead(tcs, outcomes, trail + [""], s, i);
  }

  lemma SimpleCaseRead(tcs: seq<TestCase>, outcomes: seq<Outcome>, closing: seq<string>, s: string, i: nat)
    requires |outcomes| == |tcs| && i < |tcs| && LineEnding(s)
    requires Plain(SimpleMarkers, tcs[i].expected) && OutcomeFits(outcomes[i])
    requires Readable(SimpleMarkers, [], SimpleBlocks(tcs, outcomes, s), closing, s)
    ensures ParseCase(SimpleMarkers, Output(SimpleMarkers, [], SimpleBlocks(tcs, outcomes, s), closing, s), i + 1) ==
      SimpleRecord(tcs[i], outcomes[i])
  {
    var bs := SimpleBlocks(tcs, outcomes, s);
    assert bs[i] == SimpleBlock(i + 1, tcs[i], outcomes[i], s);
    SimpleBlockReads(i + 1, tcs[i], outcomes[i], s);
    ReadBack(SimpleMarkers, [], bs, closing, s, i);
  }

  /** The printed text splits into lines the read-back lemmas apply to. */
  lemma SimpleReadable(tcs: seq<TestCase>, outcomes: seq<Outcome>, s: string)
    requires SimpleRunFits(tcs, outcomes, s)
    ensures var bs := SimpleBlocks(tcs, outcomes, s);
      var trail := [SummaryLine(PassedCount(tcs, outcomes), |tcs|, s)];
      Readable(SimpleMarkers, [], bs, trail + [""], s) &&
      Split(SimpleStdout(tcs, outcomes, s), '\n') == Output(SimpleMarkers, [], bs, trail + [""], s)
  {
    var bs := SimpleBlocks(tcs, outcomes, s);
    var summary := SummaryLine(PassedCount(tcs, outcomes), |tcs|, s);
    SimpleMarkersValid();
    SimpleBlocksFit(tcs, outcomes, s);
    SummaryQuiet(PassedCount(tcs, outcomes), |tcs|, s);
    EndLines(SimpleMarkers, [summary]);
    PrintedLines(SimpleMarkers, [], bs, [summary], s);
  }

  /** Every block is well formed and prints on lines of its own; block `j` reports
      case `j + 1`. */
  lemma SimpleBlocksFit(tcs: seq<TestCase>, outcomes: seq<Outcome>, s: string)
    requires SimpleRunFits(tcs, outcomes, s)
    ensures var bs := SimpleBlocks(tcs, outcomes, s);
      forall j | 0 <= j < |bs| :: WellFormed(SimpleMarkers, bs[j]) && Printable(bs[j]) && bs[j].Printed? && bs[j].id == j + 1
  {
    var bs := SimpleBlocks(tcs, outcomes, s);
    forall j | 0 <= j < |bs|
      ensures WellFormed(SimpleMarkers, bs[j]) && Printable(bs[j]) && bs[j].Printed? && bs[j].id == j + 1
    {
      SimpleBlockReads(j + 1, tcs[j], outcomes[j], s);
    }
  }

  /** The count in the summary line is the number of records the parser reads as
      passed. */
  lemma SummaryAgrees(tcs: seq<TestCase>, outcomes: seq<Outcome>, s: string)
    requires SimpleRunFits(tcs, outcomes, s)
    ensures PassedCount(tcs, outcomes) == CountPassed(Parse(SimpleMarkers, SimpleStdout(tcs, outcomes, s), |tcs|))
  {
    SimpleRoundTrip(tcs, outcomes, s);
    assert Parse(SimpleMarkers, SimpleStdout(tcs, outcomes, s), |tcs|) == SimpleRecords(tcs, outcomes);
    PassedCountIsRecords(tcs, outcomes);
  }

  /** The records of all cases, in order. */
  function SimpleRecords(tcs: seq<TestCase>, outcomes: seq<Outcome>): (rs: seq<ExecutionResult>)
    requires |outcomes| == |tcs|
    ensures |rs| == |tcs| && forall i | 0 <= i < |tcs| :: rs[i] == SimpleRecord(tcs[i], outcomes[i])
  {
    seq(|tcs|, i requires 0 <= i < |tcs| => SimpleRecord(tcs[i], outcomes[i]))
  }

  /** How many records are marked passed. */
  function CountPassed(rs: seq<ExecutionResult>): (n: nat)
    ensures n <= |rs|
  {
    if rs == [] then 0 else CountPassed(rs[..|rs| - 1]) + (if rs[|rs| - 1].passed then 1 else 0)
  }

  /** The program counts a case as passed exactly when its record is marked passed. */
  lemma {:induction false} PassedCountIsRecords(tcs: seq<TestCase>, outcomes: seq<Outcome>)
    requires |outcomes| == |tcs|
    ensures PassedCount(tcs, outcomes) == CountPassed(SimpleRecords(tcs, outcomes))
    decreases |tcs|
  {
    if tcs != [] {
      var last := |tcs| - 1;
      PassedCountIsRecords(tcs[..last], outcomes[..last]);
      assert SimpleRecords(tcs, outcomes)[..last] == SimpleRecords(tcs[..last], outcomes[..last]);
    }
  }

  // ---------------------------------------------------------------------------
  // One case

  /** A case's block ends at its separator line, and its lines build the record of
      its case. */
  lemma SimpleBlockReads(k: nat, tc: TestCase, o: Outcome, s: string)
    requires LineEnding(s) && Plain(SimpleMarkers, tc.expected) && OutcomeFits(o)
    ensures var b := SimpleBlock(k, tc, o, s);
      WellFormed(SimpleMarkers, b) && Printable(b) && b.Printed? && b.id == k &&
      Fold(SimpleMarkers, Default, b.body) == SimpleRecord(tc, o)
  {
    var m := SimpleMarkers;
    SimpleFits();
    SeparatorLine(s);
    match o {
      case Returned(r, el) =>
        ReportReads(m, SimpleWording, tc, r, el, s);
      case ReturnedNull(_, message) =>
        ErrorReads(message, s);
      case Threw(message) =>
        ErrorReads(message, s);
    }
  }

  /** The separator line ends the block and names no case. */
  lemma SeparatorLine(s: string)
    requires LineEnding(s)
    ensures var line := SimpleMarkers.separator + s;
      IsStop(SimpleMarkers, line) && !Contains(line, SimpleMarkers.caseToken) && '\n' !in line
  {
    SeparatorStops(s);
    SeparatorNamesNoCase(s);
  }

  lemma SeparatorStops(s: string)
    ensures IsStop(SimpleMarkers, SimpleMarkers.separator + s)
  {
    assert SimpleMarkers.separator + s == "" + SimpleMarkers.separator + s;
    ContainsMiddle("", SimpleMarkers.separator, s);
  }

  lemma SeparatorNamesNoCase(s: string)
    requires LineEnding(s)
    ensures !Contains(SimpleMarkers.separator + s, SimpleMarkers.caseToken) && '\n' !in SimpleMarkers.separator + s
  {
    var line := SimpleMarkers.separator + s;
    assert forall k | 0 <= k < |line| :: line[k] in "---\r";
    NotContainsChar(line, SimpleMarkers.caseToken);
  }

  /** An error block sets nothing: the error line sets neither output nor time, and
      the failed line after it leaves the flag false, whatever the message set it to. */
  lemma ErrorReads(message: string, s: string)
    requires LineEnding(s) && MessageFits(SimpleMarkers, message)
    ensures Carried(SimpleMarkers, ErrorLines(message, s))
    ensures Fold(SimpleMarkers, Default, ErrorLines(message, s)) == Default
  {
    var m := SimpleMarkers;
    var ls := ErrorLines(message, s);
    SimpleFits();
    ErrorLine(message, s);
    PassedLine(m, SimpleWording, false, s);
    assert ls == [ls[0]] + [ls[1]];
    FoldSnoc(m, Default, [ls[0]], ls[1]);
    FoldSnoc(m, Default, [], ls[0]);
    StepPassed(m, Step(m, Default, ls[0]), ls[1], false);
  }

  /** The error line goes on and names no output and no time. */
  lemma ErrorLine(message: string, s: string)
    requires LineEnding(s) && MessageFits(SimpleMarkers, message)
    ensures var line := ErrorLabel + message + s;
      !IsStop(SimpleMarkers, line) && '\n' !in line &&
      !Contains(line, SimpleMarkers.outputLabel) && !Contains(line, SimpleMarkers.timeLabel)
  {
    var m := SimpleMarkers;
    SimpleSized();
    SimpleErrorBlocked();
    LineLacks(ErrorLabel, message, s, m.caseToken);
    LineLacks(ErrorLabel, message, s, m.separator);
    LineLacks(ErrorLabel, message, s, m.outputLabel);
    LineLacks(ErrorLabel, message, s, m.timeLabel);
    NoNewline(ErrorLabel, message, s);
  }

  /** The summary line names no case and no field. */
  lemma SummaryQuiet(passed: nat, total: nat, s: string)
    requires LineEnding(s)
    ensures var line := SummaryLine(passed, total, s);
      Unlabelled(SimpleMarkers, [line]) && Quiet(SimpleMarkers, line) && OneLineEach([line])
  {
    var line := SummaryLine(passed, total, s);
    SummaryAvoids(passed, total, s, 'T');
    SummaryAvoids(passed, total, s, 'O');
    SummaryAvoids(passed, total, s, 'E');
    SummaryAvoids(passed, total, s, 'P');
    SummaryAvoids(passed, total, s, '\n');
    NotContainsChar(line, SimpleMarkers.caseToken);
    NotContainsChar(line, SimpleMarkers.outputLabel);
    NotContainsChar(line, SimpleMarkers.timeLabel);
    NotContainsChar(line, SimpleMarkers.passedLabel);
  }

  lemma SummaryAvoids(passed: nat, total: nat, s: string, c: char)
    requires LineEnding(s) && c in "TOEP\n"
    ensures c !in SummaryLine(passed, total, s)
  {
    var a := NatToString(passed);
    var b := NatToString(total);
    assert c !in a by {
      forall k | 0 <= k < |a| ensures a[k] != c {
        assert IsDigit(a[k]);
      }
    }
    assert c !in b by {
      forall k | 0 <= k < |b| ensures b[k] != c {
        assert IsDigit(b[k]);
      }
    }
    assert c !in "SUMMARY: " && c !in "/" && c !in " tests passed" && c !in s;
  }

  // ---------------------------------------------------------------------------
  // The wording of the fallback program against the markers of `parseSimpleTestOutput`
  // (one lemma per literal fact keeps each proof obligation small)

  lemma SimpleFits()
    ensures Fits(SimpleMarkers, SimpleWording)
  {
    SimpleMarkersValid();
    SimpleSized();
    SimpleInputBlocked();
    SimpleExpectedBlocked();
    SimpleUnitBlocked();
    SimpleOutputBlocked();
    SimpleTimeBlocked();
    SimplePassedBlocked();
    SimpleLabels();
    SimpleTimeTail();
  }

  lemma SimpleShapeCase()
    ensures WordShape(SimpleMarkers.caseToken)
  {
  }

  lemma SimpleShapeSeparator()
    ensures WordShape(SimpleMarkers.separator)
  {
  }

  lemma SimpleShapeOutputWord()
    ensures WordShape(SimpleMarkers.outputLabel)
  {
  }

  lemma SimpleShapeTimeWord()
    ensures WordShape(SimpleMarkers.timeLabel)
  {
  }

  lemma SimpleShapePassedWord()
    ensures WordShape(SimpleMarkers.passedLabel)
  {
  }

  lemma SimpleSized()
    ensures Sized(SimpleMarkers)
  {
    SimpleShapeCase();
    SimpleShapeSeparator();
    SimpleShapeOutputWord();
    SimpleShapeTimeWord();
    SimpleShapePassedWord();
  }

  lemma SimpleInputBlocked()
    requires Sized(SimpleMarkers)
    ensures Inert(SimpleMarkers, SimpleWording.input)
  {
    SimpleInputBeforeCase();
    SimpleInputBeforeSeparator();
    SimpleInputBeforeOutputWord();
    SimpleInputBeforeTimeWord();
    SimpleInputBeforePassedWord();
  }

  lemma SimpleExpectedBlocked()
    requires Sized(SimpleMarkers)
    ensures Inert(SimpleMarkers, SimpleWording.expected)
  {
    SimpleExpectedBeforeCase();
    SimpleExpectedBeforeSeparator();
    SimpleExpectedBeforeOutputWord();
    SimpleExpectedBeforeTimeWord();
    SimpleExpectedBeforePassedWord();
  }

  lemma SimpleUnitBlocked()
    requires Sized(SimpleMarkers)
    ensures Inert(SimpleMarkers, SimpleWording.unit)
  {
    SimpleUnitBeforeCase();
    SimpleUnitBeforeSeparator();
    SimpleUnitBeforeOutputWord();
    SimpleUnitBeforeTimeWord();
    SimpleUnitBeforePassedWord();
  }

  lemma SimpleOutputBlocked()
    ensures Blocked(SimpleWording.output, SimpleMarkers.caseToken) && Blocked(SimpleWording.output, SimpleMarkers.separator) && Blocked(SimpleWording.output, SimpleMarkers.timeLabel) && Blocked(SimpleWording.output, SimpleMarkers.passedLabel)
  {
    SimpleOutputBeforeCase();
    SimpleOutputBeforeSeparator();
    SimpleOutputBeforeTimeWord();
    SimpleOutputBeforePassedWord();
  }

  lemma SimpleTimeBlocked()
    ensures Blocked(SimpleWording.time, SimpleMarkers.caseToken) && Blocked(SimpleWording.time, SimpleMarkers.separator) && Blocked(SimpleWording.time, SimpleMarkers.outputLabel) && Blocked(SimpleWording.time, SimpleMarkers.passedLabel)
  {
    SimpleTimeBeforeCase();
    SimpleTimeBeforeSeparator();
    SimpleTimeBeforeOutputWord();
    SimpleTimeBeforePassedWord();
  }

  lemma SimplePassedBlocked()
    ensures Blocked(SimpleWording.passed, SimpleMarkers.caseToken) && Blocked(SimpleWording.passed, SimpleMarkers.separator) && Blocked(SimpleWording.passed, SimpleMarkers.outputLabel) && Blocked(SimpleWording.passed, SimpleMarkers.timeLabel)
  {
    SimplePassedBeforeCase();
    SimplePassedBeforeSeparator();
    SimplePassedBeforeOutputWord();
    SimplePassedBeforeTimeWord();
  }

  lemma SimpleErrorBlocked()
    requires Sized(SimpleMarkers)
    ensures Inert(SimpleMarkers, ErrorLabel)
  {
    SimpleErrorBeforeCase();
    SimpleErrorBeforeSeparator();
    SimpleErrorBeforeOutputWord();
    SimpleErrorBeforeTimeWord();
    SimpleErrorBeforePassedWord();
  }

  lemma SimpleInputBeforeCase()
    ensures Blocked(SimpleWording.input, SimpleMarkers.caseToken)
  {
    assert SimpleWording.input == "INPUT: " && SimpleMarkers.caseToken == "TEST_CASE_";
    assert Blocked("INPUT: ", "TEST_CASE_");
  }

  lemma SimpleInputBeforeSeparator()
    ensures Blocked(SimpleWording.input, SimpleMarkers.separator)
  {
    BlockedFromChar(SimpleWording.input, SimpleMarkers.separator);
  }

  lemma SimpleInputBeforeOutputWord()
    ensures Blocked(SimpleWording.input, SimpleMarkers.outputLabel)
  {
    BlockedFromChar(SimpleWording.input, SimpleMarkers.outputLabel);
  }

  lemma SimpleInputBeforeTimeWord()
    ensures Blocked(SimpleWording.input, SimpleMarkers.timeLabel)
  {
    BlockedFromChar(SimpleWording.input, SimpleMarkers.timeLabel);
  }

  lemma SimpleInputBeforePassedWord()
    ensures Blocked(SimpleWording.input, SimpleMarkers.passedLabel)
  {
    assert SimpleWording.input == "INPUT: " && SimpleMarkers.passedLabel == "PASSED:";
    assert Blocked("INPUT: ", "PASSED:");
  }

  lemma SimpleExpectedBeforeCase()
    ensures Blocked(SimpleWording.expected, SimpleMarkers.caseToken)
  {
    assert SimpleWording.expected == "EXPECTED: " && SimpleMarkers.caseToken == "TEST_CASE_";
    assert Blocked("EXPECTED: ", "TEST_CASE_");
  }

  lemma SimpleExpectedBeforeSeparator()
    ensures Blocked(SimpleWording.expected, SimpleMarkers.separator)
  {
    BlockedFromChar(SimpleWording.expected, SimpleMarkers.separator);
  }

  lemma SimpleExpectedBeforeOutputWord()
    ensures Blocked(SimpleWording.expected, SimpleMarkers.outputLabel)
  {
    BlockedFromChar(SimpleWording.expected, SimpleMarkers.outputLabel);
  }

  lemma SimpleExpectedBeforeTimeWord()
    ensures Blocked(SimpleWording.expected, SimpleMarkers.timeLabel)
  {
    assert SimpleWording.expected == "EXPECTED: " && SimpleMarkers.timeLabel == "EXECUTION_TIME:";
    assert Blocked("EXPECTED: ", "EXECUTION_TIME:");
  }

  lemma SimpleExpectedBeforePassedWord()
    ensures Blocked(SimpleWording.expected, SimpleMarkers.passedLabel)
  {
    assert SimpleWording.expected == "EXPECTED: " && SimpleMarkers.passedLabel == "PASSED:";
    assert Blocked("EXPECTED: ", "PASSED:");
  }

  lemma SimpleUnitBeforeCase()
    ensures Blocked(SimpleWording.unit, SimpleMarkers.caseToken)
  {
    BlockedFromChar(SimpleWording.unit, SimpleMarkers.caseToken);
  }

  lemma SimpleUnitBeforeSeparator()
    ensures Blocked(SimpleWording.unit, SimpleMarkers.separator)
  {
    BlockedFromChar(SimpleWording.unit, SimpleMarkers.separator);
  }

  lemma SimpleUnitBeforeOutputWord()
    ensures Blocked(SimpleWording.unit, SimpleMarkers.outputLabel)
  {
    BlockedFromChar(SimpleWording.unit, SimpleMarkers.outputLabel);
  }

  lemma SimpleUnitBeforeTimeWord()
    ensures Blocked(SimpleWording.unit, SimpleMarkers.timeLabel)
  {
    BlockedFromChar(SimpleWording.unit, SimpleMarkers.timeLabel);
  }

  lemma SimpleUnitBeforePassedWord()
    ensures Blocked(SimpleWording.unit, SimpleMarkers.passedLabel)
  {
    BlockedFromChar(SimpleWording.unit, SimpleMarkers.passedLabel);
  }

  lemma SimpleOutputBeforeCase()
    ensures Blocked(SimpleWording.output, SimpleMarkers.caseToken)
  {
    assert SimpleWording.output == "OUTPUT: " && SimpleMarkers.caseToken == "TEST_CASE_";
    assert Blocked("OUTPUT: ", "TEST_CASE_");
  }

  lemma SimpleOutputBeforeSeparator()
    ensures Blocked(SimpleWording.output, SimpleMarkers.separator)
  {
    BlockedFromChar(SimpleWording.output, SimpleMarkers.separator);
  }

  lemma SimpleOutputBeforeTimeWord()
    ensures Blocked(SimpleWording.output, SimpleMarkers.timeLabel)
  {
    BlockedFromChar(SimpleWording.output, SimpleMarkers.timeLabel);
  }

  lemma SimpleOutputBeforePassedWord()
    ensures Blocked(SimpleWording.output, SimpleMarkers.passedLabel)
  {
    assert SimpleWording.output == "OUTPUT: " && SimpleMarkers.passedLabel == "PASSED:";
    assert Blocked("OUTPUT: ", "PASSED:");
  }

  lemma SimpleTimeBeforeCase()
    ensures Blocked(SimpleWording.time, SimpleMarkers.caseToken)
  {
    assert SimpleWording.time == "EXECUTION_TIME: " && SimpleMarkers.caseToken == "TEST_CASE_";
    assert Blocked("EXECUTION_TIME: ", "TEST_CASE_");
  }

  lemma SimpleTimeBeforeSeparator()
    ensures Blocked(SimpleWording.time, SimpleMarkers.separator)
  {
    BlockedFromChar(SimpleWording.time, SimpleMarkers.separator);
  }

  lemma SimpleTimeBeforeOutputWord()
    ensures Blocked(SimpleWording.time, SimpleMarkers.outputLabel)
  {
    assert SimpleWording.time == "EXECUTION_TIME: " && SimpleMarkers.outputLabel == "OUTPUT:";
    assert Blocked("EXECUTION_TIME: ", "OUTPUT:");
  }

  lemma SimpleTimeBeforePassedWord()
    ensures Blocked(SimpleWording.time, SimpleMarkers.passedLabel)
  {
    BlockedFromChar(SimpleWording.time, SimpleMarkers.passedLabel);
  }

  lemma SimplePassedBeforeCase()
    ensures Blocked(SimpleWording.passed, SimpleMarkers.caseToken)
  {
    BlockedFromChar(SimpleWording.passed, SimpleMarkers.caseToken);
  }

  lemma SimplePassedBeforeSeparator()
    ensures Blocked(SimpleWording.passed, SimpleMarkers.separator)
  {
    BlockedFromChar(SimpleWording.passed, SimpleMarkers.separator);
  }

  lemma SimplePassedBeforeOutputWord()
    ensures Blocked(SimpleWording.passed, SimpleMarkers.outputLabel)
  {
    BlockedFromChar(SimpleWording.passed, SimpleMarkers.outputLabel);
  }

  lemma SimplePassedBeforeTimeWord()
    ensures Blocked(SimpleWording.passed, SimpleMarkers.timeLabel)
  {
    assert SimpleWording.passed == "PASSED: " && SimpleMarkers.timeLabel == "EXECUTION_TIME:";
    assert Blocked("PASSED: ", "EXECUTION_TIME:");
  }

  lemma SimpleErrorBeforeCase()
    ensures Blocked(ErrorLabel, SimpleMarkers.caseToken)
  {
    BlockedFromChar(ErrorLabel, SimpleMarkers.caseToken);
  }

  lemma SimpleErrorBeforeSeparator()
    ensures Blocked(ErrorLabel, SimpleMarkers.separator)
  {
    BlockedFromChar(ErrorLabel, SimpleMarkers.separator);
  }

  lemma SimpleErrorBeforeOutputWord()
    ensures Blocked(ErrorLabel, SimpleMarkers.outputLabel)
  {
    assert ErrorLabel == "ERROR: " && SimpleMarkers.outputLabel == "OUTPUT:";
    assert Blocked("ERROR: ", "OUTPUT:");
  }

  lemma SimpleErrorBeforeTimeWord()
    ensures Blocked(ErrorLabel, SimpleMarkers.timeLabel)
  {
    assert ErrorLabel == "ERROR: " && SimpleMarkers.timeLabel == "EXECUTION_TIME:";
    assert Blocked("ERROR: ", "EXECUTION_TIME:");
  }

  lemma SimpleErrorBeforePassedWord()
    ensures Blocked(ErrorLabel, SimpleMarkers.passedLabel)
  {
    BlockedFromChar(ErrorLabel, SimpleMarkers.passedLabel);
  }

  lemma SimpleLabels()
    ensures SimpleWording.output == SimpleMarkers.outputLabel + " " && SimpleWording.time == SimpleMarkers.timeLabel + " "
    ensures SimpleWording.unit == SimpleMarkers.timeSuffix && SimpleWording.passed == SimpleMarkers.passedLabel + " "
    ensures 't' !in SimpleWording.passed && SimpleWording.unit == []
    ensures '\n' !in SimpleWording.input && '\n' !in SimpleWording.expected && '\n' !in SimpleWording.output
    ensures '\n' !in SimpleWording.time && '\n' !in SimpleWording.unit && '\n' !in SimpleWording.passed
  {
    SimpleLabelsJoin();
    SimplePassedWord();
    SimpleLinesIn();
    SimpleLinesOut();
  }

  lemma SimpleLabelsJoin()
    ensures SimpleWording.output == SimpleMarkers.outputLabel + " " && SimpleWording.time == SimpleMarkers.timeLabel + " "
    ensures SimpleWording.unit == SimpleMarkers.timeSuffix && SimpleWording.passed == SimpleMarkers.passedLabel + " "
  {
  }

  lemma SimplePassedWord()
    ensures 't' !in SimpleWording.passed && SimpleWording.unit == []
  {
  }

  lemma SimpleLinesIn()
    ensures '\n' !in SimpleWording.input && '\n' !in SimpleWording.expected && '\n' !in SimpleWording.output
  {
  }

  lemma SimpleLinesOut()
    ensures '\n' !in SimpleWording.time && '\n' !in SimpleWording.unit && '\n' !in SimpleWording.passed
  {
  }

  /** `EXECUTION_TIME:` cannot start again inside its own label. */
  lemma SimpleTimeTail()
    ensures Blocked(SimpleWording.time[1..], SimpleWording.time)
  {
    assert SimpleWording.time[1..] == "XECUTION_TIME: ";
    SimpleTimeTailChars();
  }

  lemma SimpleTimeTailChars()
    ensures Blocked("XECUTION_TIME: ", "EXECUTION_TIME: ")
  {
  }
}
