/** The Java test harnesses index.js writes for the Even-or-Odd problem:
    `generateJUnitTest`, a JUnit 4 class with one test method per case, and
    `generateSimpleTest`, a plain class whose `main` runs every case in turn. Each
    generator starts from a fixed prologue, appends one template per test case in
    the caller's order, and closes the class. Every template is a multi-line
    literal, modelled as the list of its lines. */
module Harness {
  import opened Text
  import opened Records
  import OutputParser
  import Protocol
  import JUnitRun
  import SimpleRun

  /** Line `i` of a template, with its newline, starts right after the lines before it. */
  lemma LineAt(lines: seq<string>, i: nat)
    requires i < |lines|
    ensures OccursAt(JoinLines(lines), lines[i] + "\n", |JoinLines(lines[..i])|)
  {
    assert lines == lines[..i] + ([lines[i]] + lines[i + 1..]);
    JoinLinesAppend(lines[..i], [lines[i]] + lines[i + 1..]);
    JoinLinesAppend([lines[i]], lines[i + 1..]);
    assert [lines[i]][..0] == [];
    assert JoinLines([lines[i]]) == lines[i] + "\n";
    var a := JoinLines(lines[..i]);
    var w := lines[i] + "\n";
    var t := JoinLines(lines);
    assert t == a + (w + JoinLines(lines[i + 1..]));
    assert t[|a|..|a| + |w|] == w;
  }

  /** A template holds the statement of each of its lines, after the indentation. */
  lemma LineHolds(lines: seq<string>, i: nat, indent: string, a: string, b: string, c: string)
    requires i < |lines| && lines[i] == indent + a + b + c
    ensures Contains(JoinLines(lines), a + b + c)
  {
    LineAt(lines, i);
    ContainsAt(JoinLines(lines), lines[i] + "\n", |JoinLines(lines[..i])|);
    StatementOfLine(indent, a, b, c);
    ContainsTrans(JoinLines(lines), lines[i] + "\n", a + b + c);
  }

  /** A template holds the statement of each of its lines, after the indentation. */
  lemma StatementHolds(lines: seq<string>, i: nat, indent: string, st: string)
    requires i < |lines| && lines[i] == indent + st
    ensures Contains(JoinLines(lines), st)
  {
    assert indent + st == indent + st + "" + "";
    LineHolds(lines, i, indent, st, "", "");
    assert st + "" + "" == st;
  }

  lemma StatementOfLine(indent: string, a: string, b: string, c: string)
    ensures Contains(indent + a + b + c + "\n", a + b + c)
  {
    assert indent + a + b + c + "\n" == indent + (a + b + c) + "\n";
    ContainsMiddle(indent, a + b + c, "\n");
  }

  /** Consecutive lines of a template, with their newlines, sit in it as one piece. */
  lemma SliceHolds(lines: seq<string>, i: nat, j: nat)
    requires i <= j <= |lines|
    ensures Contains(JoinLines(lines), JoinLines(lines[i..j]))
  {
    JoinLinesSlices(lines, i, j);
    ContainsMiddle(JoinLines(lines[..i]), JoinLines(lines[i..j]), JoinLines(lines[j..]));
  }

  /** The Java statement printing the literal `text` on a line of its own. */
  function PrintText(text: string): string
  {
    "System.out.println(\"" + text + "\");"
  }

  /** The Java statement printing the literal `caption` followed by the value of the
      Java expression `value`. */
  function PrintValue(caption: string, value: string): string
  {
    "System.out.println(\"" + caption + "\" + " + value + ");"
  }

  /** Text that follows a prefix sits right after it. */
  lemma AfterPrefix(a: string, b: string)
    ensures OccursAt(a + b, a, 0) && OccursAt(a + b, b, |a|)
  {
    assert (a + b)[..|a|] == a;
    assert (a + b)[|a|..|a| + |b|] == b;
  }

  /** What occurs in a text still occurs once more text is appended. */
  lemma OccursExtends(a: string, b: string, p: string, at: nat)
    requires OccursAt(a, p, at)
    ensures OccursAt(a + b, p, at)
  {
    assert (a + b)[at..at + |p|] == a[at..at + |p|];
  }

  /** A head followed by the first `n` parts: the text a generator has built after
      `n` rounds of its `forEach`. */
  function Assemble(head: string, parts: seq<string>, n: nat): string
    requires n <= |parts|
  {
    if n == 0 then head else Assemble(head, parts, n - 1) + parts[n - 1]
  }

  lemma SelfOccurs(x: string)
    ensures OccursAt(x, x, 0)
  {
    assert x[0..|x|] == x;
  }

  /** The text built so far is never rewritten, only extended. */
  lemma {:induction false} AssembleGrows(head: string, parts: seq<string>, j: nat, n: nat)
    requires j <= n <= |parts|
    ensures OccursAt(Assemble(head, parts, n), Assemble(head, parts, j), 0)
    decreases n - j
  {
    if j == n {
      SelfOccurs(Assemble(head, parts, n));
    } else {
      AssembleGrows(head, parts, j, n - 1);
      OccursExtends(Assemble(head, parts, n - 1), parts[n - 1], Assemble(head, parts, j), 0);
    }
  }

  /** Part `i` sits right after the head and the parts before it. */
  lemma {:induction false} AssemblePlaced(head: string, parts: seq<string>, i: nat, n: nat)
    requires i < n <= |parts|
    ensures OccursAt(Assemble(head, parts, n), parts[i], |Assemble(head, parts, i)|)
    decreases n - i
  {
    if n == i + 1 {
      AfterPrefix(Assemble(head, parts, i), parts[i]);
    } else {
      AssemblePlaced(head, parts, i, n - 1);
      OccursExtends(Assemble(head, parts, n - 1), parts[n - 1], parts[i], |Assemble(head, parts, i)|);
    }
  }

  /** The finished text: the head, every part in order, then the tail. */
  lemma AssembleLayout(head: string, parts: seq<string>, tail: string, i: nat)
    requires i < |parts|
    ensures var src := Assemble(head, parts, |parts|) + tail;
      OccursAt(src, head, 0) &&
      OccursAt(src, parts[i], |Assemble(head, parts, i)|) &&
      OccursAt(src, tail, |Assemble(head, parts, |parts|)|)
  {
    var whole := Assemble(head, parts, |parts|);
    AssembleGrows(head, parts, 0, |parts|);
    OccursExtends(whole, tail, head, 0);
    AssemblePlaced(head, parts, i, |parts|);
    OccursExtends(whole, tail, parts[i], |Assemble(head, parts, i)|);
    AfterPrefix(whole, tail);
  }

  /** The template instantiated for each case in the caller's order: entry `i` is
      the text for `testCases[i]`, numbered `i + 1`. */
  function Instances(template: (nat, TestCase) -> string, testCases: seq<TestCase>): (ts: seq<string>)
    ensures |ts| == |testCases|
  {
    seq(|testCases|, i requires 0 <= i < |testCases| => template(i + 1, testCases[i]))
  }

  /** The shape both generators share: start from a fixed head, append the template
      of every case inside `testCases.forEach((testCase, index) => ...)`, then
      append the closing text. */
  method Generate(head: string, template: (nat, TestCase) -> string, closer: string, testCases: seq<TestCase>)
    returns (testCode: string)
    ensures testCode == Assemble(head, Instances(template, testCases), |testCases|) + closer
  {
    testCode := head;
    for index := 0 to |testCases|
      invariant testCode == Assemble(head, Instances(template, testCases), index)
    {
      testCode := testCode + template(index + 1, testCases[index]);
    }
    testCode := testCode + closer;
  }

  // ---------------------------------------------------------------------------
  // generateJUnitTest (index.js lines 93-129)

  /** The text before the first test method (index.js lines 94-101). */
  function JUnitPrologue(): string
  {
    JoinLines(["",
      "import org.junit.Test;",
      "import org.junit.Assert;",
      "",
      "public class SolutionTest {",
      "    private Solution solution = new Solution();",
      "    "])
  }

  /** The lines of the test method for the case numbered `k` (index.js lines
      104-125); the case's input and expected value are spliced in as they are, and
      the report statements are those of `JUnitReportPrints`. */
  function JUnitMethodLines(k: nat, tc: TestCase): seq<string>
  {
    var n := NatToString(k);
    ["",
     "    @Test",
     "    " + "public void testCase" + n + "() {",
     "        " + "int num = " + IntToString(tc.input.num) + ";",
     "        " + "String expected = \"" + tc.expected + "\";",
     "        ",
     "        long startTime = System.currentTimeMillis();",
     "        String result = solution.isEvenOrOdd(num);",
     "        long endTime = System.currentTimeMillis();",
     "        "] +
    JUnitReportPrints("        ", k) +
    ["        ",
     "        Assert.assertEquals(\"Test case " + n + " failed\", expected, result);",
     "    }"]
  }

  function JUnitTestMethod(k: nat, tc: TestCase): string
  {
    JoinLines(JUnitMethodLines(k, tc))
  }

  function JUnitMethods(testCases: seq<TestCase>): (ms: seq<string>)
    ensures |ms| == |testCases|
  {
    Instances(JUnitTestMethod, testCases)
  }

  /** The whole JUnit source: the prologue, the method of every case, then the
      brace closing the class (index.js line 128). */
  function JUnitSource(testCases: seq<TestCase>): string
  {
    Assemble(JUnitPrologue(), JUnitMethods(testCases), |testCases|) + "}"
  }

  /** `generateJUnitTest(testCases)` */
  method GenerateJUnitTest(testCases: seq<TestCase>) returns (testCode: string)
    ensures testCode == JUnitSource(testCases)
  {
    testCode := Generate(JUnitPrologue(), JUnitTestMethod, "}", testCases);
  }

  /** The source opens with the prologue, holds the method of case `i + 1` right
      after the methods of the cases before it, and ends with the closing brace. */
  lemma JUnitLayout(testCases: seq<TestCase>, i: nat)
    requires i < |testCases|
    ensures var src := JUnitSource(testCases);
      OccursAt(src, JUnitPrologue(), 0) &&
      OccursAt(src, JUnitMethods(testCases)[i],
               |Assemble(JUnitPrologue(), JUnitMethods(testCases), i)|) &&
      src[|src| - 1] == '}'
  {
    AssembleLayout(JUnitPrologue(), JUnitMethods(testCases), "}", i);
  }

  /** The method for case `k` is named `testCase<k>`, declares the case's input and
      its expected value as written, prints the header the JUnit parser looks for,
      and then prints the case's report lines, one after the other, in the wording
      the run is read with. */
  lemma JUnitMethodEmbeds(k: nat, tc: TestCase)
    ensures var src := JUnitTestMethod(k, tc);
      Contains(src, "public void testCase" + NatToString(k) + "() {") &&
      Contains(src, "int num = " + IntToString(tc.input.num) + ";") &&
      Contains(src, "String expected = \"" + tc.expected + "\";") &&
      Contains(src, PrintText(OutputParser.HeaderMarker(OutputParser.JUnitMarkers, k))) &&
      Contains(src, JoinLines(JUnitReportPrints("        ", k)))
  {
    JUnitMethodName(k, tc);
    JUnitEmbedsNum(k, tc);
    JUnitEmbedsExpected(k, tc);
    JUnitEmbedsHeader(k, tc);
    JUnitMethodPrints(k, tc);
  }

  lemma JUnitEmbedsNum(k: nat, tc: TestCase)
    ensures Contains(JUnitTestMethod(k, tc), "int num = " + IntToString(tc.input.num) + ";")
  {
    LineHolds(JUnitMethodLines(k, tc), 3, "        ", "int num = ", IntToString(tc.input.num), ";");
  }

  lemma JUnitEmbedsExpected(k: nat, tc: TestCase)
    ensures Contains(JUnitTestMethod(k, tc), "String expected = \"" + tc.expected + "\";")
  {
    LineHolds(JUnitMethodLines(k, tc), 4, "        ", "String expected = \"", tc.expected, "\";");
  }

  lemma JUnitEmbedsHeader(k: nat, tc: TestCase)
    ensures Contains(JUnitTestMethod(k, tc), PrintText(OutputParser.HeaderMarker(OutputParser.JUnitMarkers, k)))
  {
    StatementHolds(JUnitMethodLines(k, tc), 10, "        ",
                   PrintText(OutputParser.HeaderMarker(OutputParser.JUnitMarkers, k)));
  }

  /** The method for case `k` is named `testCase<k>`. */
  lemma JUnitMethodName(k: nat, tc: TestCase)
    ensures Contains(JUnitTestMethod(k, tc), "public void testCase" + NatToString(k) + "() {")
  {
    LineHolds(JUnitMethodLines(k, tc), 2, "    ", "public void testCase", NatToString(k), "() {");
  }

  /** The statements with which the test method for case `k` reports it, in order:
      the header, one `println` per report line in the wording the run is read with,
      and the empty line. */
  function JUnitReportPrints(indent: string, k: nat): seq<string>
  {
    var w := JUnitRun.JUnitWording;
    [indent + PrintText(OutputParser.HeaderMarker(OutputParser.JUnitMarkers, k)),
     indent + PrintValue(w.input, "num"),
     indent + PrintValue(w.expected, "expected"),
     indent + PrintValue(w.output, "result"),
     indent + PrintValue(w.time, "(endTime - startTime) + \"" + w.unit + "\""),
     indent + PrintValue(w.passed, "result.equals(expected)"),
     indent + "System.out.println();"]
  }

  /** The method for case `k` holds its report statements one after the other. */
  lemma JUnitMethodPrints(k: nat, tc: TestCase)
    ensures Contains(JUnitTestMethod(k, tc), JoinLines(JUnitReportPrints("        ", k)))
  {
    var lines := JUnitMethodLines(k, tc);
    assert lines[10..17] == JUnitReportPrints("        ", k);
    SliceHolds(lines, 10, 17);
  }

  // ---------------------------------------------------------------------------
  // generateSimpleTest (index.js lines 132-177)

  /** The text before the first case (index.js lines 133-140): it records the
      number of cases. */
  function SimplePrologue(count: nat): string
  {
    JoinLines(["",
      "public class SimpleTest {",
      "    public static void main(String[] args) {",
      "        Solution solution = new Solution();",
      "        " + "int totalTests = " + NatToString(count) + ";",
      "        int passedTests = 0;",
      "        "])
  }

  /** The lines of the block for the case numbered `k` (index.js lines 143-169): a
      `try` that runs the case and reports it with `SimpleReportPrints`, and a `catch`
      that reports the exception with `SimpleErrorPrints`. */
  function SimpleBlockLines(k: nat, tc: TestCase): seq<string>
  {
    var n := NatToString(k);
    ["",
     "        // Test Case " + n,
     "        try {",
     "            " + "int num = " + IntToString(tc.input.num) + ";",
     "            " + "String expected = \"" + tc.expected + "\";",
     "            ",
     "            long startTime = System.currentTimeMillis();",
     "            String result = solution.isEvenOrOdd(num);",
     "            long endTime = System.currentTimeMillis();",
     "            ",
     "            boolean passed = result.equals(expected);",
     "            if (passed) passedTests++;",
     "            "] +
    SimpleReportPrints("            ", k) +
    ["        } catch (Exception e) {"] +
    SimpleErrorPrints("            ", k) +
    ["        }"]
  }

  function SimpleTestBlock(k: nat, tc: TestCase): string
  {
    JoinLines(SimpleBlockLines(k, tc))
  }

  /** The text after the last case (index.js lines 172-175): the summary line and
      the braces closing `main` and the class. */
  function SimpleEpilogue(): string
  {
    JoinLines(["",
      "        System.out.println(\"SUMMARY: \" + passedTests + \"/\" + totalTests + \" tests passed\");",
      "    }"]) + "}"
  }

  function SimpleBlockTexts(testCases: seq<TestCase>): (bs: seq<string>)
    ensures |bs| == |testCases|
  {
    Instances(SimpleTestBlock, testCases)
  }

  /** The whole fallback source. */
  function SimpleSource(testCases: seq<TestCase>): string
  {
    Assemble(SimplePrologue(|testCases|), SimpleBlockTexts(testCases), |testCases|) + SimpleEpilogue()
  }

  /** `generateSimpleTest(testCases)` */
  method GenerateSimpleTest(testCases: seq<TestCase>) returns (testCode: string)
    ensures testCode == SimpleSource(testCases)
  {
    testCode := Generate(SimplePrologue(|testCases|), SimpleTestBlock, SimpleEpilogue(), testCases);
  }

  /** The source opens with the prologue, which records how many cases there are,
      holds the block of case `i + 1` right after the blocks of the cases before it,
      and ends with the summary. */
  lemma SimpleLayout(testCases: seq<TestCase>, i: nat)
    requires i < |testCases|
    ensures var src := SimpleSource(testCases);
      OccursAt(src, SimplePrologue(|testCases|), 0) &&
      OccursAt(src, SimpleBlockTexts(testCases)[i],
               |Assemble(SimplePrologue(|testCases|), SimpleBlockTexts(testCases), i)|) &&
      OccursAt(src, SimpleEpilogue(), |Assemble(SimplePrologue(|testCases|), SimpleBlockTexts(testCases), |testCases|)|)
  {
    AssembleLayout(SimplePrologue(|testCases|), SimpleBlockTexts(testCases), SimpleEpilogue(), i);
  }

  /** The prologue declares `totalTests` as the number of cases (index.js line 137). */
  lemma SimpleTotal(count: nat)
    ensures Contains(SimplePrologue(count), "int totalTests = " + NatToString(count) + ";")
  {
    var pro := ["", "public class SimpleTest {", "    public static void main(String[] args) {",
      "        Solution solution = new Solution();",
      "        " + "int totalTests = " + NatToString(count) + ";",
      "        int passedTests = 0;", "        "];
    LineHolds(pro, 4, "        ", "int totalTests = ", NatToString(count), ";");
  }

  /** The block for case `k` declares the case's input and expected value as
      written, prints the header the fallback parser looks for, and holds both of
      its reports one after the other: the report lines and separator at the end of
      the `try`, and the error lines and separator right after the `catch`, in the
      wording the run is read with. */
  lemma SimpleBlockEmbeds(k: nat, tc: TestCase)
    ensures var src := SimpleTestBlock(k, tc);
      Contains(src, "int num = " + IntToString(tc.input.num) + ";") &&
      Contains(src, "String expected = \"" + tc.expected + "\";") &&
      Contains(src, PrintText(OutputParser.HeaderMarker(OutputParser.SimpleMarkers, k))) &&
      Contains(src, JoinLines(SimpleReportPrints("            ", k) + ["        } catch (Exception e) {"] +
                              SimpleErrorPrints("            ", k)))
  {
    SimpleEmbedsNum(k, tc);
    SimpleEmbedsExpected(k, tc);
    SimpleEmbedsHeader(k, tc);
    SimpleBlockPrints(k, tc);
  }

  lemma SimpleEmbedsHeader(k: nat, tc: TestCase)
    ensures Contains(SimpleTestBlock(k, tc), PrintText(OutputParser.HeaderMarker(OutputParser.SimpleMarkers, k)))
  {
    StatementHolds(SimpleBlockLines(k, tc), 13, "            ",
                   PrintText(OutputParser.HeaderMarker(OutputParser.SimpleMarkers, k)));
  }

  lemma SimpleEmbedsNum(k: nat, tc: TestCase)
    ensures Contains(SimpleTestBlock(k, tc), "int num = " + IntToString(tc.input.num) + ";")
  {
    LineHolds(SimpleBlockLines(k, tc), 3, "            ", "int num = ", IntToString(tc.input.num), ";");
  }

  lemma SimpleEmbedsExpected(k: nat, tc: TestCase)
    ensures Contains(SimpleTestBlock(k, tc), "String expected = \"" + tc.expected + "\";")
  {
    LineHolds(SimpleBlockLines(k, tc), 4, "            ", "String expected = \"", tc.expected, "\";");
  }

  /** The statements with which the block for case `k` reports it when the call
      returns: the header, one `println` per report line in the wording the run is
      read with, and the separator. */
  function SimpleReportPrints(indent: string, k: nat): seq<string>
  {
    var w := SimpleRun.SimpleWording;
    [indent + PrintText(OutputParser.HeaderMarker(OutputParser.SimpleMarkers, k)),
     indent + PrintValue(w.input, "num"),
     indent + PrintValue(w.expected, "expected"),
     indent + PrintValue(w.output, "result"),
     indent + PrintValue(w.time, "(endTime - startTime)"),
     indent + PrintValue(w.passed, "passed"),
     indent + PrintText(OutputParser.SimpleMarkers.separator)]
  }

  /** The statements with which the block for case `k` reports a caught exception:
      the header, the error line, the failed line and the separator. */
  function SimpleErrorPrints(indent: string, k: nat): seq<string>
  {
    [indent + PrintText(OutputParser.HeaderMarker(OutputParser.SimpleMarkers, k)),
     indent + PrintValue(SimpleRun.ErrorLabel, "e.getMessage()"),
     indent + PrintText(SimpleRun.SimpleWording.passed + Protocol.BoolText(false)),
     indent + PrintText(OutputParser.SimpleMarkers.separator)]
  }

  /** The block for case `k` holds its report statements one after the other at the
      end of the `try`, and its error statements right after the `catch`. */
  lemma SimpleBlockPrints(k: nat, tc: TestCase)
    ensures Contains(SimpleTestBlock(k, tc),
                     JoinLines(SimpleReportPrints("            ", k) + ["        } catch (Exception e) {"] +
                               SimpleErrorPrints("            ", k)))
  {
    var lines := SimpleBlockLines(k, tc);
    assert lines[13..25] == SimpleReportPrints("            ", k) + ["        } catch (Exception e) {"] +
                            SimpleErrorPrints("            ", k);
    SliceHolds(lines, 13, 25);
  }
}
