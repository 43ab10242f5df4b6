/** The seven Even-or-Odd test cases of the web client (public/leetcode.js lines
    45-81) run through both harnesses: a correct solution reads back as seven passed
    records with their outputs and times, and a case whose call throws reads back as
    the default record while the others are unaffected. */
module Scenarios {
  import opened Text
  import opened Records
  import opened OutputParser
  import opened ParserProperties
  import opened Transcript
  import opened Protocol
  import opened JUnitRun
  import opened SimpleRun

  /** The client's test-case table, in its order. */
  const LeetCodeCases: seq<TestCase> := [
    TestCase(Input(2), "Even"),
    TestCase(Input(3), "Odd"),
    TestCase(Input(0), "Even"),
    TestCase(Input(-4), "Even"),
    TestCase(Input(-7), "Odd"),
    TestCase(Input(100), "Even"),
    TestCase(Input(99), "Odd")]

  /** Every call returns the expected answer, case `i` after `els[i]` milliseconds. */
  function Correct(els: seq<int>): (os: seq<Outcome>)
    requires |els| == |LeetCodeCases|
    ensures |os| == |LeetCodeCases|
    ensures forall i | 0 <= i < |os| :: os[i] == Returned(LeetCodeCases[i].expected, els[i])
  {
    seq(|els|, i requires 0 <= i < |els| => Returned(LeetCodeCases[i].expected, els[i]))
  }

  /** The record of a passed case. */
  function PassedRecord(i: nat, els: seq<int>): ExecutionResult
    requires i < |LeetCodeCases| && |els| == |LeetCodeCases|
  {
    ExecutionResult(true, LeetCodeCases[i].expected, if els[i] >= 0 then els[i] else 0)
  }

  // ---------------------------------------------------------------------------
  // The fallback program

  /** With a correct solution every case passes with its answer and time. */
  lemma LeetCodeSimplePasses(els: seq<int>)
    requires |els| == |LeetCodeCases|
    ensures var rs := Parse(SimpleMarkers, SimpleStdout(LeetCodeCases, Correct(els), ""), |LeetCodeCases|);
      |rs| == 7 && forall i | 0 <= i < 7 :: rs[i] == PassedRecord(i, els)
  {
    AnswersPlain();
    CorrectSimpleFits(els);
    SimpleRoundTrip(LeetCodeCases, Correct(els), "");
  }

  /** With a correct solution the summary line reads `SUMMARY: 7/7 tests passed`,
      and the parser's records agree. */
  lemma LeetCodeSimpleSummary(els: seq<int>)
    requires |els| == |LeetCodeCases|
    ensures SimpleStdout(LeetCodeCases, Correct(els), "") ==
      JoinLines(Output(SimpleMarkers, [], SimpleBlocks(LeetCodeCases, Correct(els), ""),
                       ["SUMMARY: 7/7 tests passed"], ""))
    ensures CountPassed(Parse(SimpleMarkers, SimpleStdout(LeetCodeCases, Correct(els), ""), |LeetCodeCases|)) == 7
  {
    var rs := Parse(SimpleMarkers, SimpleStdout(LeetCodeCases, Correct(els), ""), |LeetCodeCases|);
    LeetCodeSimplePasses(els);
    AllPassedCount(rs);
    AnswersPlain();
    CorrectSimpleFits(els);
    SummaryAgrees(LeetCodeCases, Correct(els), "");
    SevenOfSeven();
  }

  lemma SevenOfSeven()
    ensures SummaryLine(7, 7, "") == "SUMMARY: 7/7 tests passed"
  {
    assert NatToString(7) == "7";
  }

  /** When the call for `-4` (the fourth case) throws, that case reads back as the
      default record and the other six still pass. */
  lemma LeetCodeSimpleThrows(els: seq<int>, message: string)
    requires |els| == |LeetCodeCases| && MessageFits(SimpleMarkers, message)
    ensures var os := Correct(els)[3 := Threw(message)];
      var rs := Parse(SimpleMarkers, SimpleStdout(LeetCodeCases, os, ""), |LeetCodeCases|);
      |rs| == 7 && rs[3] == Default &&
      forall i | 0 <= i < 7 && i != 3 :: rs[i] == PassedRecord(i, els)
  {
    var os := Correct(els)[3 := Threw(message)];
    AnswersPlain();
    CorrectSimpleFits(els);
    assert SimpleRunFits(LeetCodeCases, os, "");
    SimpleRoundTrip(LeetCodeCases, os, "");
  }

  lemma CorrectSimpleFits(els: seq<int>)
    requires |els| == |LeetCodeCases|
    requires Plain(SimpleMarkers, "Even") && Plain(SimpleMarkers, "Odd")
    ensures SimpleRunFits(LeetCodeCases, Correct(els), "")
  {
    TableAnswers();
    AnswersLiteral();
    forall i | 0 <= i < |LeetCodeCases| ensures OutcomeFits(Correct(els)[i]) {
      PlainCarriable(SimpleMarkers, LeetCodeCases[i].expected, els[i]);
    }
  }

  /** A record sequence whose entries all passed counts all of them. */
  lemma {:induction false} AllPassedCount(rs: seq<ExecutionResult>)
    requires forall i | 0 <= i < |rs| :: rs[i].passed
    ensures CountPassed(rs) == |rs|
    decreases |rs|
  {
    if rs != [] {
      AllPassedCount(rs[..|rs| - 1]);
    }
  }

  // ---------------------------------------------------------------------------
  // The JUnit class

  /** The lines JUnitCore writes around a successful run of the seven methods: its
      version line before the first test, a `.` before each test's own lines, and
      the time and the `OK` footer after the last one. */
  const JUnitLead := ["JUnit version 4.13.2"]
  const JUnitTrail := ["", "Time: 0.015", "", "OK (7 tests)", ""]

  /** With a correct solution, whatever order JUnit runs the seven methods in, every
      case passes with its answer and time. */
  lemma LeetCodeJUnitPasses(els: seq<int>, order: seq<nat>)
    requires |els| == |LeetCodeCases| && |order| == |LeetCodeCases|
    requires forall j | 0 <= j < |order| :: order[j] < |LeetCodeCases|
    requires forall a, b | 0 <= a < b < |order| :: order[a] != order[b]
    requires forall i | 0 <= i < |LeetCodeCases| :: i in order
    ensures var rs := Parse(JUnitMarkers, JUnitStdout(JUnitLead, LeetCodeCases, Correct(els), order,
                                                      seq(7, _ => "."), JUnitTrail, ""), |LeetCodeCases|);
      |rs| == 7 && forall i | 0 <= i < 7 :: rs[i] == PassedRecord(i, els)
  {
    AnswersPlain();
    JUnitAround();
    CorrectJUnitFits(els, order);
    JUnitRoundTrip(JUnitLead, LeetCodeCases, Correct(els), order, seq(7, _ => "."), JUnitTrail, "");
  }

  lemma CorrectJUnitFits(els: seq<int>, order: seq<nat>)
    requires |els| == |LeetCodeCases| && |order| == |LeetCodeCases|
    requires forall j | 0 <= j < |order| :: order[j] < |LeetCodeCases|
    requires forall a, b | 0 <= a < b < |order| :: order[a] != order[b]
    requires Plain(JUnitMarkers, "Even") && Plain(JUnitMarkers, "Odd")
    requires Unlabelled(JUnitMarkers, JUnitLead) && OneLineEach(JUnitLead)
    requires Unlabelled(JUnitMarkers, JUnitTrail) && OneLineEach(JUnitTrail)
    requires forall i | 0 <= i < |JUnitTrail| :: Quiet(JUnitMarkers, JUnitTrail[i])
    ensures JUnitRunFits(JUnitLead, LeetCodeCases, Correct(els), order, seq(7, _ => "."), JUnitTrail, "")
  {
    TableAnswers();
    AnswersLiteral();
    forall i | 0 <= i < |LeetCodeCases|
      ensures Carriable(JUnitMarkers, LeetCodeCases[i].expected, els[i])
    {
      PlainCarriable(JUnitMarkers, LeetCodeCases[i].expected, els[i]);
    }
    var marks: seq<string> := seq(7, _ => ".");
    assert forall j | 0 <= j < |marks| :: marks[j] == ".";
  }

  /** JUnitCore's own lines name no case and no field. */
  lemma JUnitAround()
    ensures Unlabelled(JUnitMarkers, JUnitLead) && OneLineEach(JUnitLead)
    ensures Unlabelled(JUnitMarkers, JUnitTrail) && OneLineEach(JUnitTrail)
    ensures forall i | 0 <= i < |JUnitTrail| :: Quiet(JUnitMarkers, JUnitTrail[i])
  {
    JUnitMarkersWords();
    NoCaseToken("JUnit version 4.13.2");
    TimeLineUnlabelled();
    TimeLineQuiet();
    NoCaseToken("OK (7 tests)");
    FooterLineQuiet();
    assert forall i | 0 <= i < |JUnitTrail| :: JUnitTrail[i] in {"", "Time: 0.015", "OK (7 tests)"};
  }

  lemma JUnitMarkersWords()
    ensures JUnitMarkers.caseToken == "Test Case" && JUnitMarkers.outputLabel == "Output:"
    ensures JUnitMarkers.timeLabel == "Execution Time:" && JUnitMarkers.passedLabel == "Passed:"
  {
  }

  /** A line without a capital `T` holds no case token. */
  lemma NoCaseToken(line: string)
    requires 'T' !in line
    ensures !Contains(line, "Test Case")
  {
    NotContainsChar(line, "Test Case");
  }

  lemma TimeLineUnlabelled()
    ensures !Contains("Time: 0.015", "Test Case") && '\n' !in "Time: 0.015"
  {
    TimeLineBlocked();
    SkipBlocked("Time: 0.015", "", "Test Case");
    assert "Time: 0.015" + "" == "Time: 0.015";
  }

  lemma TimeLineBlocked()
    ensures Blocked("Time: 0.015", "Test Case")
  {
  }

  lemma TimeLineQuiet()
    ensures !Contains("Time: 0.015", "Output:") && !Contains("Time: 0.015", "Execution Time:")
    ensures !Contains("Time: 0.015", "Passed:")
  {
    NotContainsChar("Time: 0.015", "Output:");
    NotContainsChar("Time: 0.015", "Execution Time:");
    NotContainsChar("Time: 0.015", "Passed:");
  }

  lemma FooterLineQuiet()
    ensures !Contains("OK (7 tests)", "Output:") && !Contains("OK (7 tests)", "Execution Time:")
    ensures !Contains("OK (7 tests)", "Passed:")
  {
    FooterLineBlocked();
    SkipBlocked("OK (7 tests)", "", "Output:");
    assert "OK (7 tests)" + "" == "OK (7 tests)";
    NotContainsChar("OK (7 tests)", "Execution Time:");
    NotContainsChar("OK (7 tests)", "Passed:");
  }

  lemma FooterLineBlocked()
    ensures Blocked("OK (7 tests)", "Output:")
  {
  }

  /** A result that holds a field label of its own still reads back as itself: on
      the output line `PASSED: true` sets the flag, but the passed line after it
      sets it again. */
  lemma LabelledResultReads(tc: TestCase, el: int)
    requires Plain(SimpleMarkers, tc.expected)
    ensures Carriable(SimpleMarkers, "PASSED: true", el)
    ensures Fold(SimpleMarkers, Default, ReportLines(SimpleWording, tc, "PASSED: true", el, "")) ==
      Reported(tc, "PASSED: true", el)
  {
    LabelledCarriable(el);
    SimpleFits();
    ReportReads(SimpleMarkers, SimpleWording, tc, "PASSED: true", el, "");
  }

  lemma LabelledCarriable(el: int)
    ensures Carriable(SimpleMarkers, "PASSED: true", el)
  {
    SimpleMarkersWords();
    LabelledNoCase();
    LabelledNoSeparator();
    LabelledNoTime();
  }

  lemma SimpleMarkersWords()
    ensures SimpleMarkers.caseToken == "TEST_CASE_" && SimpleMarkers.separator == "---"
    ensures SimpleMarkers.timeLabel == "EXECUTION_TIME:"
  {
  }

  lemma LabelledNoCase()
    ensures !Contains("PASSED: true", "TEST_CASE_")
  {
    NotContainsChar("PASSED: true", "TEST_CASE_");
  }

  lemma LabelledNoSeparator()
    ensures !Contains("PASSED: true", "---")
  {
    NotContainsChar("PASSED: true", "---");
  }

  lemma LabelledNoTime()
    ensures !Contains("PASSED: true", "EXECUTION_TIME:")
  {
    // the label is longer than the result
    forall p: nat | p <= |"PASSED: true"| ensures !OccursAt("PASSED: true", "EXECUTION_TIME:", p) {
    }
  }

  // ---------------------------------------------------------------------------
  // The table's values

  /** Every expected value of the table is `Even` or `Odd`. */
  lemma TableAnswers()
    ensures forall i | 0 <= i < |LeetCodeCases| :: LeetCodeCases[i].expected in {"Even", "Odd"}
  {
  }

  /** The two answers mean in a Java string literal what they say. */
  lemma AnswersLiteral()
    ensures JavaLiteral("Even") && JavaLiteral("Odd")
  {
  }

  /** The two answers stay on one line and hold no marker word of either dialect. */
  lemma AnswersPlain()
    ensures Plain(SimpleMarkers, "Even") && Plain(SimpleMarkers, "Odd")
    ensures Plain(JUnitMarkers, "Even") && Plain(JUnitMarkers, "Odd")
  {
    ShortPlain(SimpleMarkers, "Even");
    ShortPlain(SimpleMarkers, "Odd");
    ShortPlain(JUnitMarkers, "Even");
    ShortPlain(JUnitMarkers, "Odd");
  }

  /** A value shorter than every marker word but the separator, and without the
      separator's first character, is plain. */
  lemma ShortPlain(m: Markers, v: string)
    requires |v| < |m.caseToken| && |v| < |m.outputLabel| && |v| < |m.timeLabel| && |v| < |m.passedLabel|
    requires m.separator != [] && m.separator[0] !in v
    requires forall k | 0 <= k < |v| :: !IsLineTerminator(v[k])
    ensures Plain(m, v)
  {
    NotContainsChar(v, m.separator);
  }
}
