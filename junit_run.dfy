/** A run of the JUnit test class that `generateJUnitTest` writes, as
    `parseJUnitOutput` reads it. Each test method prints a header line and the
    report lines of its case, then an empty line (index.js lines 114-120). JUnit runs
    the methods in an order of its own and may write progress marks before a header
    on the same line; a method whose call throws prints nothing; one whose call
    returns `null` prints up to the time line and then throws in
    `result.equals(expected)`. Whatever the order, every case that printed its block
    reads back as the record its lines describe, and every other case as the default
    record. */
module JUnitRun {
  import opened Text
  import opened Patterns
  import opened Records
  import opened OutputParser
  import opened ParserProperties
  import opened Transcript
  import opened Protocol

  /** The text before each printed value (index.js lines 115-119). */
  const JUnitWording := Wording("Input: num = ", "Expected: ", "Output: ", "Execution Time: ", "ms", "Passed: ")

  /** What a test method contributes to the output, behind the progress marks `mark`. */
  function JUnitBlock(mark: string, k: nat, tc: TestCase, o: Outcome, s: string): Block
  {
    match o
    case Returned(r, el) => Printed(mark, k, ReportLines(JUnitWording, tc, r, el, s) + [s], [])
    case ReturnedNull(el, _) => Printed(mark, k, ReportLines(JUnitWording, tc, "null", el, s)[..4], [])
    case Threw(_) => Silent
  }

  /** The record the parser should build for a case: `null` concatenates as the
      text "null" and the flag stays false. */
  function JUnitRecord(tc: TestCase, o: Outcome): ExecutionResult
  {
    match o
    case Returned(r, el) => Reported(tc, r, el)
    case ReturnedNull(el, _) => ExecutionResult(false, "null", if el >= 0 then el else 0)
    case Threw(_) => Default
  }

  /** The blocks of the methods in the order JUnit ran them: `order[j]` is the index
      of the `j`-th method run, `marks[j]` the progress marks before its header. */
  function JUnitBlocks(tcs: seq<TestCase>, outcomes: seq<Outcome>, order: seq<nat>, marks: seq<string>, s: string): (bs: seq<Block>)
    requires |outcomes| == |tcs| && |marks| == |order|
    requires forall j | 0 <= j < |order| :: order[j] < |tcs|
    ensures |bs| == |order|
    ensures forall j | 0 <= j < |order| ::
      bs[j] == JUnitBlock(marks[j], order[j] + 1, tcs[order[j]], outcomes[order[j]], s)
  {
    seq(|order|, j requires 0 <= j < |order| => JUnitBlock(marks[j], order[j] + 1, tcs[order[j]], outcomes[order[j]], s))
  }

  /** The standard output of the run: the lines JUnit writes before the first test,
      the blocks, and the lines it writes after the last test. */
  function JUnitStdout(lead: seq<string>, tcs: seq<TestCase>, outcomes: seq<Outcome>, order: seq<nat>,
                       marks: seq<string>, trail: seq<string>, s: string): string
    requires |outcomes| == |tcs| && |marks| == |order|
    requires forall j | 0 <= j < |order| :: order[j] < |tcs|
  {
    JoinLines(Output(JUnitMarkers, lead, JUnitBlocks(tcs, outcomes, order, marks, s), trail, s))
  }

  /** The conditions of a run whose output the parser reads as intended: every
      method runs at most once; an expected value stays on one line, holds no marker
      word and means in the Java literal what it says; a returned result is
      `Carriable`; progress marks hold no `T`; no line outside the blocks holds
      `Test Case`, and none after them holds a field label. */
  predicate JUnitRunFits(lead: seq<string>, tcs: seq<TestCase>, outcomes: seq<Outcome>, order: seq<nat>,
                         marks: seq<string>, trail: seq<string>, s: string)
  {
    |outcomes| == |tcs| && |marks| == |order| &&
    (forall j | 0 <= j < |order| :: order[j] < |tcs|) &&
    (forall a, b | 0 <= a < b < |order| :: order[a] != order[b]) &&
    LineEnding(s) &&
    (forall i | 0 <= i < |tcs| :: Plain(JUnitMarkers, tcs[i].expected) && JavaLiteral(tcs[i].expected)) &&
    (forall i | 0 <= i < |outcomes| :: outcomes[i].Returned? ==> Carriable(JUnitMarkers, outcomes[i].result, outcomes[i].elapsed)) &&
    (forall j | 0 <= j < |marks| :: 'T' !in marks[j] && '\n' !in marks[j]) &&
    Unlabelled(JUnitMarkers, lead) && OneLineEach(lead) &&
    Unlabelled(JUnitMarkers, trail) && OneLineEach(trail) &&
    (forall i | 0 <= i < |trail| :: Quiet(JUnitMarkers, trail[i]))
  }

  // ---------------------------------------------------------------------------
  // The round trip

  /** Every case run whose call did not throw reads back as its record; every case
      not run, or whose call threw, as the default record. */
  lemma JUnitRoundTrip(lead: seq<string>, tcs: seq<TestCase>, outcomes: seq<Outcome>, order: seq<nat>,
                       marks: seq<string>, trail: seq<string>, s: string)
    requires JUnitRunFits(lead, tcs, outcomes, order, marks, trail, s)
    ensures var rs := Parse(JUnitMarkers, JUnitStdout(lead, tcs, outcomes, order, marks, trail, s), |tcs|);
      |rs| == |tcs| &&
      forall i | 0 <= i < |tcs| :: rs[i] == if i in order then JUnitRecord(tcs[i], outcomes[i]) else Default
  {
    forall i | 0 <= i < |tcs|
      ensures Parse(JUnitMarkers, JUnitStdout(lead, tcs, outcomes, order, marks, trail, s), |tcs|)[i] ==
        if i in order then JUnitRecord(tcs[i], outcomes[i]) else Default
    {
      JUnitCase(lead, tcs, outcomes, order, marks, trail, s, i);
    }
  }

  lemma JUnitCase(lead: seq<string>, tcs: seq<TestCase>, outcomes: seq<Outcome>, order: seq<nat>,
                  marks: seq<string>, trail: seq<string>, s: string, i: nat)
    requires JUnitRunFits(lead, tcs, outcomes, order, marks, trail, s) && i < |tcs|
    ensures Parse(JUnitMarkers, JUnitStdout(lead, tcs, outcomes, order, marks, trail, s), |tcs|)[i] ==
      if i in order then JUnitRecord(tcs[i], outcomes[i]) else Default
  {
    JUnitReadable(lead, tcs, outcomes, order, marks, trail, s);
    ParseEntry(JUnitMarkers, JUnitStdout(lead, tcs, outcomes, order, marks, trail, s), |tcs|, i);
    JUnitCaseOf(lead, tcs, outcomes, order, marks, trail + [""], s, i);
  }

  /** Case `i` reads back from the lines of the run. */
  lemma JUnitCaseOf(lead: seq<string>, tcs: seq<TestCase>, outcomes: seq<Outcome>, order: seq<nat>,
                    marks: seq<string>, closing: seq<string>, s: string, i: nat)
    requires |outcomes| == |tcs| && |marks| == |order| && i < |tcs|
    requires forall a | 0 <= a < |order| :: order[a] < |tcs|
    requires forall a | 0 <= a < |marks| :: 'T' !in marks[a] && '\n' !in marks[a]
    requires LineEnding(s) && Plain(JUnitMarkers, tcs[i].expected)
    requires outcomes[i].Returned? ==> Carriable(JUnitMarkers, outcomes[i].result, outcomes[i].elapsed)
    requires Readable(JUnitMarkers, lead, JUnitBlocks(tcs, outcomes, order, marks, s), closing, s)
    ensures ParseCase(JUnitMarkers, Output(JUnitMarkers, lead, JUnitBlocks(tcs, outcomes, order, marks, s), closing, s), i + 1) ==
      if i in order then JUnitRecord(tcs[i], outcomes[i]) else Default
  {
    if i in order {
      var j :| 0 <= j < |order| && order[j] == i;
      if outcomes[i].Threw? {
        JUnitCaseAbsent(lead, tcs, outcomes, order, marks, closing, s, i);
      } else {
        JUnitCaseRun(lead, tcs, outcomes, order, marks, closing, s, j, i);
      }
    } else {
      JUnitCaseAbsent(lead, tcs, outcomes, order, marks, closing, s, i);
    }
  }

  /** The `j`-th method run, whose call did not throw, reads back as its record. */
  lemma JUnitCaseRun(lead: seq<string>, tcs: seq<TestCase>, outcomes: seq<Outcome>, order: seq<nat>,
                     marks: seq<string>, closing: seq<string>, s: string, j: nat, i: nat)
    requires |outcomes| == |tcs| && |marks| == |order| && j < |order| && i < |tcs| && order[j] == i
    requires forall a | 0 <= a < |order| :: order[a] < |tcs|
    requires !outcomes[i].Threw? && 'T' !in marks[j] && '\n' !in marks[j] && LineEnding(s)
    requires Plain(JUnitMarkers, tcs[i].expected)
    requires outcomes[i].Returned? ==> Carriable(JUnitMarkers, outcomes[i].result, outcomes[i].elapsed)
    requires Readable(JUnitMarkers, lead, JUnitBlocks(tcs, outcomes, order, marks, s), closing, s)
    ensures ParseCase(JUnitMarkers, Output(JUnitMarkers, lead, JUnitBlocks(tcs, outcomes, order, marks, s), closing, s), i + 1) ==
      JUnitRecord(tcs[i], outcomes[i])
  {
    JUnitRunBlock(tcs, outcomes, order, marks, s, j, i);
    ReadBackAs(JUnitMarkers, lead, JUnitBlocks(tcs, outcomes, order, marks, s), closing, s, j,
               i + 1, JUnitRecord(tcs[i], outcomes[i]));
  }

  /** The block of the `j`-th method run reports its case with its record. */
  lemma JUnitRunBlock(tcs: seq<TestCase>, outcomes: seq<Outcome>, order: seq<nat>, marks: seq<string>, s: string, j: nat, i: nat)
    requires |outcomes| == |tcs| && |marks| == |order| && j < |order| && i < |tcs| && order[j] == i
    requires forall a | 0 <= a < |order| :: order[a] < |tcs|
    requires !outcomes[i].Threw? && 'T' !in marks[j] && '\n' !in marks[j] && LineEnding(s)
    requires Plain(JUnitMarkers, tcs[i].expected)
    requires outcomes[i].Returned? ==> Carriable(JUnitMarkers, outcomes[i].result, outcomes[i].elapsed)
    ensures var b := JUnitBlocks(tcs, outcomes, order, marks, s)[j];
      b.Printed? && b.id == i + 1 && Fold(JUnitMarkers, Default, b.body) == JUnitRecord(tcs[i], outcomes[i])
  {
    assert JUnitBlocks(tcs, outcomes, order, marks, s)[j] == JUnitBlock(marks[j], i + 1, tcs[i], outcomes[i], s);
    JUnitBlockReads(marks[j], i + 1, tcs[i], outcomes[i], s);
  }

  /** A case not run, or whose call threw, reads back as the default record. */
  lemma JUnitCaseAbsent(lead: seq<string>, tcs: seq<TestCase>, outcomes: seq<Outcome>, order: seq<nat>,
                        marks: seq<string>, closing: seq<string>, s: string, i: nat)
    requires |outcomes| == |tcs| && |marks| == |order| && i < |tcs|
    requires forall a | 0 <= a < |order| :: order[a] < |tcs|
    requires i !in order || outcomes[i].Threw?
    requires Readable(JUnitMarkers, lead, JUnitBlocks(tcs, outcomes, order, marks, s), closing, s)
    ensures ParseCase(JUnitMarkers, Output(JUnitMarkers, lead, JUnitBlocks(tcs, outcomes, order, marks, s), closing, s), i + 1) == Default
  {
    OthersUnreported(tcs, outcomes, order, marks, s, i);
    ReadAbsent(JUnitMarkers, lead, JUnitBlocks(tcs, outcomes, order, marks, s), closing, s, i + 1);
  }

  /** No block but that of case `i` reports it, and that one only if its call did
      not throw. */
  lemma OthersUnreported(tcs: seq<TestCase>, outcomes: seq<Outcome>, order: seq<nat>, marks: seq<string>, s: string, i: nat)
    requires |outcomes| == |tcs| && |marks| == |order| && i < |tcs|
    requires forall j | 0 <= j < |order| :: order[j] < |tcs|
    requires i !in order || outcomes[i].Threw?
    ensures Unreported(JUnitBlocks(tcs, outcomes, order, marks, s), i + 1)
  {
    var bs := JUnitBlocks(tcs, outcomes, order, marks, s);
    forall j | 0 <= j < |bs| && bs[j].Printed? ensures bs[j].id != i + 1 {
      var k := order[j];
      assert k in order;
      JUnitBlockId(marks[j], k + 1, tcs[k], outcomes[k], s);
    }
  }

  /** A method's block reports its own case, and only if its call did not throw. */
  lemma JUnitBlockId(mark: string, k: nat, tc: TestCase, o: Outcome, s: string)
    ensures var b := JUnitBlock(mark, k, tc, o, s);
      (b.Printed? <==> !o.Threw?) && (b.Printed? ==> b.id == k)
  {
  }

  /** The printed text splits into lines the read-back lemmas apply to. */
  lemma JUnitReadable(lead: seq<string>, tcs: seq<TestCase>, outcomes: seq<Outcome>, order: seq<nat>,
                      marks: seq<string>, trail: seq<string>, s: string)
    requires JUnitRunFits(lead, tcs, outcomes, order, marks, trail, s)
    ensures var bs := JUnitBlocks(tcs, outcomes, order, marks, s);
      Readable(JUnitMarkers, lead, bs, trail + [""], s) &&
      Split(JUnitStdout(lead, tcs, outcomes, order, marks, trail, s), '\n') ==
        Output(JUnitMarkers, lead, bs, trail + [""], s)
  {
    var bs := JUnitBlocks(tcs, outcomes, order, marks, s);
    var closing := trail + [""];
    JUnitMarkersValid();
    forall j | 0 <= j < |bs| ensures WellFormed(JUnitMarkers, bs[j]) && Printable(bs[j]) &&
      (bs[j].Printed? ==> bs[j].id == order[j] + 1)
    {
      JUnitBlockReads(marks[j], order[j] + 1, tcs[order[j]], outcomes[order[j]], s);
    }
    forall a, b | 0 <= a < |bs| && 0 <= b < |bs| && a != b && bs[a].Printed? && bs[b].Printed?
      ensures bs[a].id != bs[b].id
    {
      if a < b {
        assert order[a] != order[b];
      } else {
        assert order[b] != order[a];
      }
    }
    EndLines(JUnitMarkers, trail);
    PrintedLines(JUnitMarkers, lead, bs, trail, s);
  }

  // ---------------------------------------------------------------------------
  // One test method

  /** A method's block: it ends at the next header (or the end), and its lines build
      the record of its case. */
  lemma JUnitBlockReads(mark: string, k: nat, tc: TestCase, o: Outcome, s: string)
    requires 'T' !in mark && '\n' !in mark && LineEnding(s)
    requires Plain(JUnitMarkers, tc.expected) && (o.Returned? ==> Carriable(JUnitMarkers, o.result, o.elapsed))
    ensures var b := JUnitBlock(mark, k, tc, o, s);
      WellFormed(JUnitMarkers, b) && Printable(b) && (b.Printed? <==> !o.Threw?) &&
      (b.Printed? ==> b.id == k && Fold(JUnitMarkers, Default, b.body) == JUnitRecord(tc, o))
  {
    var m := JUnitMarkers;
    var w := JUnitWording;
    JUnitFits();
    match o {
      case Returned(r, el) =>
        var ls := ReportLines(w, tc, r, el, s);
        ReportReads(m, w, tc, r, el, s);
        BlankLine(m, s);
        FoldSnoc(m, Default, ls, s);
        StepQuiet(m, Fold(m, Default, ls), s);
        CarriedSnoc(m, ls, s);
      case ReturnedNull(el, _) =>
        NullPlain();
        FirstFourRead(m, w, tc, "null", el, s);
      case Threw(_) =>
    }
  }

  lemma CarriedSnoc(m: Markers, ls: seq<string>, line: string)
    requires Carried(m, ls) && !IsStop(m, line) && '\n' !in line
    ensures Carried(m, ls + [line])
  {
    assert forall i | 0 <= i < |ls| :: (ls + [line])[i] == ls[i];
  }

  lemma NullPlain()
    ensures Plain(JUnitMarkers, "null")
  {
    JUnitSized();
    PlainByChars(JUnitMarkers, "null");
  }

  // ---------------------------------------------------------------------------
  // The wording of the JUnit class against the markers of `parseJUnitOutput`
  // One lemma per literal fact keeps each proof obligation about string
  // literals small.

  lemma JUnitFits()
    ensures Fits(JUnitMarkers, JUnitWording)
  {
    JUnitMarkersValid();
    JUnitSized();
    JUnitInputBlocked();
    JUnitExpectedBlocked();
    JUnitUnitBlocked();
    JUnitOutputBlocked();
    JUnitTimeBlocked();
    JUnitPassedBlocked();
    JUnitLabels();
    JUnitTimeTail();
  }

  lemma JUnitInputBlocked()
    requires Sized(JUnitMarkers)
    ensures Inert(JUnitMarkers, JUnitWording.input)
  {
    JUnitInputBeforeCase();
    JUnitInputBeforeSeparator();
    JUnitInputBeforeOutputWord();
    JUnitInputBeforeTimeWord();
    JUnitInputBeforePassedWord();
  }

  lemma JUnitExpectedBlocked()
    requires Sized(JUnitMarkers)
    ensures Inert(JUnitMarkers, JUnitWording.expected)
  {
    JUnitExpectedBeforeCase();
    JUnitExpectedBeforeSeparator();
    JUnitExpectedBeforeOutputWord();
    JUnitExpectedBeforeTimeWord();
    JUnitExpectedBeforePassedWord();
  }

  lemma JUnitUnitBlocked()
    requires Sized(JUnitMarkers)
    ensures Inert(JUnitMarkers, JUnitWording.unit)
  {
    JUnitUnitBeforeCase();
    JUnitUnitBeforeSeparator();
    JUnitUnitBeforeOutputWord();
    JUnitUnitBeforeTimeWord();
    JUnitUnitBeforePassedWord();
  }

  lemma JUnitOutputBlocked()
    ensures Blocked(JUnitWording.output, JUnitMarkers.caseToken) && Blocked(JUnitWording.output, JUnitMarkers.separator) && Blocked(JUnitWording.output, JUnitMarkers.timeLabel) && Blocked(JUnitWording.output, JUnitMarkers.passedLabel)
  {
    JUnitOutputBeforeCase();
    JUnitOutputBeforeSeparator();
    JUnitOutputBeforeTimeWord();
    JUnitOutputBeforePassedWord();
  }

  lemma JUnitTimeBlocked()
    ensures Blocked(JUnitWording.time, JUnitMarkers.caseToken) && Blocked(JUnitWording.time, JUnitMarkers.separator) && Blocked(JUnitWording.time, JUnitMarkers.outputLabel) && Blocked(JUnitWording.time, JUnitMarkers.passedLabel)
  {
    JUnitTimeBeforeCase();
    JUnitTimeBeforeSeparator();
    JUnitTimeBeforeOutputWord();
    JUnitTimeBeforePassedWord();
  }

  lemma JUnitPassedBlocked()
    ensures Blocked(JUnitWording.passed, JUnitMarkers.caseToken) && Blocked(JUnitWording.passed, JUnitMarkers.separator) && Blocked(JUnitWording.passed, JUnitMarkers.outputLabel) && Blocked(JUnitWording.passed, JUnitMarkers.timeLabel)
  {
    JUnitPassedBeforeCase();
    JUnitPassedBeforeSeparator();
    JUnitPassedBeforeOutputWord();
    JUnitPassedBeforeTimeWord();
  }

  lemma JUnitShapeCase()
    ensures WordShape(JUnitMarkers.caseToken)
  {
  }

  lemma JUnitShapeSeparator()
    ensures WordShape(JUnitMarkers.separator)
  {
  }

  lemma JUnitShapeOutputWord()
    ensures WordShape(JUnitMarkers.outputLabel)
  {
  }

  lemma JUnitShapeTimeWord()
    ensures WordShape(JUnitMarkers.timeLabel)
  {
  }

  lemma JUnitShapePassedWord()
    ensures WordShape(JUnitMarkers.passedLabel)
  {
  }

  lemma JUnitSized()
    ensures Sized(JUnitMarkers)
  {
    JUnitShapeCase();
    JUnitShapeSeparator();
    JUnitShapeOutputWord();
    JUnitShapeTimeWord();
    JUnitShapePassedWord();
  }

  lemma JUnitInputBeforeCase()
    ensures Blocked(JUnitWording.input, JUnitMarkers.caseToken)
  {
    BlockedFromChar(JUnitWording.input, JUnitMarkers.caseToken);
  }

  lemma JUnitInputBeforeSeparator()
    ensures Blocked(JUnitWording.input, JUnitMarkers.separator)
  {
    BlockedFromChar(JUnitWording.input, JUnitMarkers.separator);
  }

  lemma JUnitInputBeforeOutputWord()
    ensures Blocked(JUnitWording.input, JUnitMarkers.outputLabel)
  {
    BlockedFromChar(JUnitWording.input, JUnitMarkers.outputLabel);
  }

  lemma JUnitInputBeforeTimeWord()
    ensures Blocked(JUnitWording.input, JUnitMarkers.timeLabel)
  {
    BlockedFromChar(JUnitWording.input, JUnitMarkers.timeLabel);
  }

  lemma JUnitInputBeforePassedWord()
    ensures Blocked(JUnitWording.input, JUnitMarkers.passedLabel)
  {
    BlockedFromChar(JUnitWording.input, JUnitMarkers.passedLabel);
  }

  lemma JUnitExpectedBeforeCase()
    ensures Blocked(JUnitWording.expected, JUnitMarkers.caseToken)
  {
    BlockedFromChar(JUnitWording.expected, JUnitMarkers.caseToken);
  }

  lemma JUnitExpectedBeforeSeparator()
    ensures Blocked(JUnitWording.expected, JUnitMarkers.separator)
  {
    BlockedFromChar(JUnitWording.expected, JUnitMarkers.separator);
  }

  lemma JUnitExpectedBeforeOutputWord()
    ensures Blocked(JUnitWording.expected, JUnitMarkers.outputLabel)
  {
    BlockedFromChar(JUnitWording.expected, JUnitMarkers.outputLabel);
  }

  lemma JUnitExpectedBeforeTimeWord()
    ensures Blocked(JUnitWording.expected, JUnitMarkers.timeLabel)
  {
    assert JUnitWording.expected == "Expected: " && JUnitMarkers.timeLabel == "Execution Time:";
    assert Blocked("Expected: ", "Execution Time:");
  }

  lemma JUnitExpectedBeforePassedWord()
    ensures Blocked(JUnitWording.expected, JUnitMarkers.passedLabel)
  {
    BlockedFromChar(JUnitWording.expected, JUnitMarkers.passedLabel);
  }

  lemma JUnitUnitBeforeCase()
    ensures Blocked(JUnitWording.unit, JUnitMarkers.caseToken)
  {
    BlockedFromChar(JUnitWording.unit, JUnitMarkers.caseToken);
  }

  lemma JUnitUnitBeforeSeparator()
    ensures Blocked(JUnitWording.unit, JUnitMarkers.separator)
  {
    BlockedFromChar(JUnitWording.unit, JUnitMarkers.separator);
  }

  lemma JUnitUnitBeforeOutputWord()
    ensures Blocked(JUnitWording.unit, JUnitMarkers.outputLabel)
  {
    BlockedFromChar(JUnitWording.unit, JUnitMarkers.outputLabel);
  }

  lemma JUnitUnitBeforeTimeWord()
    ensures Blocked(JUnitWording.unit, JUnitMarkers.timeLabel)
  {
    BlockedFromChar(JUnitWording.unit, JUnitMarkers.timeLabel);
  }

  lemma JUnitUnitBeforePassedWord()
    ensures Blocked(JUnitWording.unit, JUnitMarkers.passedLabel)
  {
    BlockedFromChar(JUnitWording.unit, JUnitMarkers.passedLabel);
  }

  lemma JUnitOutputBeforeCase()
    ensures Blocked(JUnitWording.output, JUnitMarkers.caseToken)
  {
    BlockedFromChar(JUnitWording.output, JUnitMarkers.caseToken);
  }

  lemma JUnitOutputBeforeSeparator()
    ensures Blocked(JUnitWording.output, JUnitMarkers.separator)
  {
    BlockedFromChar(JUnitWording.output, JUnitMarkers.separator);
  }

  lemma JUnitOutputBeforeTimeWord()
    ensures Blocked(JUnitWording.output, JUnitMarkers.timeLabel)
  {
    BlockedFromChar(JUnitWording.output, JUnitMarkers.timeLabel);
  }

  lemma JUnitOutputBeforePassedWord()
    ensures Blocked(JUnitWording.output, JUnitMarkers.passedLabel)
  {
    BlockedFromChar(JUnitWording.output, JUnitMarkers.passedLabel);
  }

  lemma JUnitTimeBeforeCase()
    ensures Blocked(JUnitWording.time, JUnitMarkers.caseToken)
  {
    assert JUnitWording.time == "Execution Time: " && JUnitMarkers.caseToken == "Test Case";
    assert Blocked("Execution Time: ", "Test Case");
  }

  lemma JUnitTimeBeforeSeparator()
    ensures Blocked(JUnitWording.time, JUnitMarkers.separator)
  {
    BlockedFromChar(JUnitWording.time, JUnitMarkers.separator);
  }

  lemma JUnitTimeBeforeOutputWord()
    ensures Blocked(JUnitWording.time, JUnitMarkers.outputLabel)
  {
    BlockedFromChar(JUnitWording.time, JUnitMarkers.outputLabel);
  }

  lemma JUnitTimeBeforePassedWord()
    ensures Blocked(JUnitWording.time, JUnitMarkers.passedLabel)
  {
    BlockedFromChar(JUnitWording.time, JUnitMarkers.passedLabel);
  }

  lemma JUnitPassedBeforeCase()
    ensures Blocked(JUnitWording.passed, JUnitMarkers.caseToken)
  {
    BlockedFromChar(JUnitWording.passed, JUnitMarkers.caseToken);
  }

  lemma JUnitPassedBeforeSeparator()
    ensures Blocked(JUnitWording.passed, JUnitMarkers.separator)
  {
    BlockedFromChar(JUnitWording.passed, JUnitMarkers.separator);
  }

  lemma JUnitPassedBeforeOutputWord()
    ensures Blocked(JUnitWording.passed, JUnitMarkers.outputLabel)
  {
    BlockedFromChar(JUnitWording.passed, JUnitMarkers.outputLabel);
  }

  lemma JUnitPassedBeforeTimeWord()
    ensures Blocked(JUnitWording.passed, JUnitMarkers.timeLabel)
  {
    BlockedFromChar(JUnitWording.passed, JUnitMarkers.timeLabel);
  }

  lemma JUnitLabels()
    ensures JUnitWording.output == JUnitMarkers.outputLabel + " " && JUnitWording.time == JUnitMarkers.timeLabel + " "
    ensures JUnitWording.unit == JUnitMarkers.timeSuffix && JUnitWording.passed == JUnitMarkers.passedLabel + " "
    ensures 't' !in JUnitWording.passed && (JUnitWording.unit == [] || !IsDigit(JUnitWording.unit[0]))
    ensures '\n' !in JUnitWording.input && '\n' !in JUnitWording.expected && '\n' !in JUnitWording.output
    ensures '\n' !in JUnitWording.time && '\n' !in JUnitWording.unit && '\n' !in JUnitWording.passed
  {
    JUnitLabelsJoin();
    JUnitPassedWord();
    JUnitLinesIn();
    JUnitLinesOut();
  }

  lemma JUnitLabelsJoin()
    ensures JUnitWording.output == JUnitMarkers.outputLabel + " " && JUnitWording.time == JUnitMarkers.timeLabel + " "
    ensures JUnitWording.unit == JUnitMarkers.timeSuffix && JUnitWording.passed == JUnitMarkers.passedLabel + " "
  {
  }

  lemma JUnitPassedWord()
    ensures 't' !in JUnitWording.passed && (JUnitWording.unit == [] || !IsDigit(JUnitWording.unit[0]))
  {
  }

  lemma JUnitLinesIn()
    ensures '\n' !in JUnitWording.input && '\n' !in JUnitWording.expected && '\n' !in JUnitWording.output
  {
  }

  lemma JUnitLinesOut()
    ensures '\n' !in JUnitWording.time && '\n' !in JUnitWording.unit && '\n' !in JUnitWording.passed
  {
  }

  /** `Execution Time:` cannot start again inside its own label. */
  lemma JUnitTimeTail()
    ensures Blocked(JUnitWording.time[1..], JUnitWording.time)
  {
    assert JUnitWording.time[1..] == "xecution Time: ";
    JUnitTimeTailChars();
  }

  lemma JUnitTimeTailChars()
    ensures Blocked("xecution Time: ", "Execution Time: ")
  {
    BlockedFromChar("xecution Time: ", "Execution Time: ");
  }
}
