/** The lines a generated test program prints for one test case, and what the
    parser makes of them. Both generators print the same five report lines (the
    input, the expected value, the result, the elapsed time and whether the case
    passed) in their own wording; a `Wording` value holds the literal text before
    each printed value, and `Fits` is the condition under which a wording and the
    parser's markers work together. Under it every report line is read as intended:
    no line ends the block early, and each one sets exactly its own field. */
module Protocol {
  import opened Text
  import opened Patterns
  import opened Records
  import opened OutputParser
  import opened ParserProperties

  /** How the call `solution.isEvenOrOdd(num)` ended for one test case: it returned
      a string (`elapsed` is the printed `endTime - startTime`), it returned `null`,
      or it threw an exception with the given message. */
  datatype Outcome =
    | Returned(result: string, elapsed: int)
    | ReturnedNull(elapsed: int, message: string)
    | Threw(message: string)

  /** Java's rendering of a boolean in string concatenation. */
  function BoolText(b: bool): string
  {
    if b then "true" else "false"
  }

  /** The record the report lines of a returned result are meant to produce. A
      negative elapsed time is not read, so the record keeps its 0. */
  function Reported(tc: TestCase, r: string, elapsed: int): ExecutionResult
  {
    ExecutionResult(r == tc.expected, r, if elapsed >= 0 then elapsed else 0)
  }

  /** The text the generated program prints before each value of a report line. */
  datatype Wording = Wording(
    input: string,
    expected: string,
    output: string,
    time: string,
    unit: string,
    passed: string)

  // ---------------------------------------------------------------------------
  // Conditions on words and values

  /** A marker word that cannot meet a number, a boolean or a line ending by accident. */
  predicate WordShape(p: string)
  {
    |p| >= 3 && !IsDigit(p[0]) && !IsDigit(p[1]) && p[|p| - 1] != '\r' &&
    p[0] !in "true" && p[0] !in "false"
  }

  predicate Sized(m: Markers)
  {
    WordShape(m.caseToken) && WordShape(m.separator) && WordShape(m.outputLabel) &&
    WordShape(m.timeLabel) && WordShape(m.passedLabel)
  }

  /** `v` holds none of the parser's five marker words. */
  predicate Lacks(m: Markers, v: string)
  {
    !Contains(v, m.caseToken) && !Contains(v, m.separator) && !Contains(v, m.outputLabel) &&
    !Contains(v, m.timeLabel) && !Contains(v, m.passedLabel)
  }

  /** A printed value the parser can carry: it stays on one line and holds no marker word. */
  predicate Plain(m: Markers, v: string)
  {
    (forall k | 0 <= k < |v| :: !IsLineTerminator(v[k])) && Lacks(m, v)
  }

  /** A returned result the report lines carry back: it stays on one line and names
      no case and no separator. It may hold a field label, since a later report line
      sets that field again, except the time label when the elapsed time is
      negative: then the time line matches nothing, and a time inside `r` would
      stand. */
  predicate Carriable(m: Markers, r: string, el: int)
  {
    (forall k | 0 <= k < |r| :: !IsLineTerminator(r[k])) &&
    !Contains(r, m.caseToken) && !Contains(r, m.separator) &&
    (el < 0 ==> !Contains(r, m.timeLabel))
  }

  /** A plain result is carriable, whatever the elapsed time. */
  lemma PlainCarriable(m: Markers, r: string, el: int)
    requires Plain(m, r)
    ensures Carriable(m, r, el)
  {
  }

  /** The message of a caught exception that the error lines carry: it stays on one
      line and names no case, no separator, no output and no time. It may hold the
      passed label, since the failed line after it sets the flag again. */
  predicate MessageFits(m: Markers, message: string)
  {
    (forall k | 0 <= k < |message| :: !IsLineTerminator(message[k])) &&
    !Contains(message, m.caseToken) && !Contains(message, m.separator) &&
    !Contains(message, m.outputLabel) && !Contains(message, m.timeLabel)
  }

  /** `v` written between double quotes is a Java string literal whose value is `v`
      itself: it has no backslash, which would start an escape, and no quote, which
      would end the literal. */
  predicate JavaLiteral(v: string)
  {
    '\\' !in v && '"' !in v
  }

  /** No marker word can start inside `u`, whatever follows it. */
  predicate Inert(m: Markers, u: string)
  {
    Sized(m) &&
    Blocked(u, m.caseToken) && Blocked(u, m.separator) && Blocked(u, m.outputLabel) &&
    Blocked(u, m.timeLabel) && Blocked(u, m.passedLabel)
  }

  /** The wording prints each field behind its parser label, and no literal of it can
      start a marker word other than its own label. */
  predicate Fits(m: Markers, w: Wording)
  {
    ValidMarkers(m) && Sized(m) &&
    w.output == m.outputLabel + " " && w.time == m.timeLabel + " " &&
    w.unit == m.timeSuffix && w.passed == m.passedLabel + " " &&
    Inert(m, w.input) && Inert(m, w.expected) && Inert(m, w.unit) &&
    Blocked(w.output, m.caseToken) && Blocked(w.output, m.separator) &&
    Blocked(w.output, m.timeLabel) && Blocked(w.output, m.passedLabel) &&
    Blocked(w.time, m.caseToken) && Blocked(w.time, m.separator) &&
    Blocked(w.time, m.outputLabel) && Blocked(w.time, m.passedLabel) &&
    Blocked(w.passed, m.caseToken) && Blocked(w.passed, m.separator) &&
    Blocked(w.passed, m.outputLabel) && Blocked(w.passed, m.timeLabel) &&
    Blocked(w.time[1..], w.time) && 't' !in w.passed &&
    (w.unit == [] || !IsDigit(w.unit[0])) &&
    '\n' !in w.input && '\n' !in w.expected && '\n' !in w.output &&
    '\n' !in w.time && '\n' !in w.unit && '\n' !in w.passed
  }

  // ---------------------------------------------------------------------------
  // Absence of marker words

  /** A line ending after a value adds no occurrence of a word that does not end in `\r`. */
  lemma EndingLacks(v: string, s: string, p: string)
    requires |p| >= 1 && p[|p| - 1] != '\r' && !Contains(v, p) && LineEnding(s)
    ensures !Contains(v + s, p)
  {
    if s == "\r" {
      forall q: nat | q <= |v + s| ensures !OccursAt(v + s, p, q) {
        if q + |p| <= |v| {
          assert (v + s)[q..q + |p|] == v[q..q + |p|];
          assert !OccursAt(v, p, q);
        } else if q + |p| == |v| + 1 {
          assert (v + s)[q..q + |p|][|p| - 1] == '\r';
        }
      }
    } else {
      assert v + s == v;
    }
  }

  lemma LineLacks(u: string, v: string, s: string, p: string)
    requires WordShape(p) && Blocked(u, p) && !Contains(v, p) && LineEnding(s)
    ensures !Contains(u + v + s, p)
  {
    EndingLacks(v, s, p);
    assert u + v + s == u + (v + s);
    NotContainsAfterBlocked(u, v + s, p);
  }

  /** A rendered integer holds no word whose second character is not a digit. */
  lemma IntLacks(i: int, p: string)
    requires |p| >= 2 && !IsDigit(p[1])
    ensures !Contains(IntToString(i), p)
  {
    var t := IntToString(i);
    IntToStringShape(i);
    forall q: nat | q <= |t| ensures !OccursAt(t, p, q) {
      if q + |p| <= |t| {
        assert t[q..q + |p|][1] == t[q + 1];
      }
    }
  }

  /** No word starting with two non-digits can start inside a rendered integer. */
  lemma IntBlocked(i: int, p: string)
    requires |p| >= 3 && !IsDigit(p[0]) && !IsDigit(p[1])
    ensures Blocked(IntToString(i), p)
  {
    IntToStringShape(i);
  }

  lemma IntLacksAll(m: Markers, i: int)
    requires Sized(m)
    ensures Lacks(m, IntToString(i))
  {
    IntLacks(i, m.caseToken);
    IntLacks(i, m.separator);
    IntLacks(i, m.outputLabel);
    IntLacks(i, m.timeLabel);
    IntLacks(i, m.passedLabel);
  }

  /** The time value and its unit hold no marker word. */
  lemma TimeValueLacks(m: Markers, unit: string, el: int)
    requires Inert(m, unit)
    ensures Lacks(m, IntToString(el) + unit)
  {
    SkipValue(el, unit, m.caseToken);
    SkipValue(el, unit, m.separator);
    SkipValue(el, unit, m.outputLabel);
    SkipValue(el, unit, m.timeLabel);
    SkipValue(el, unit, m.passedLabel);
  }

  lemma SkipValue(i: int, unit: string, p: string)
    requires WordShape(p) && Blocked(unit, p)
    ensures !Contains(IntToString(i) + unit, p)
  {
    IntBlocked(i, p);
    SkipBlocked(unit, [], p);
    assert unit + [] == unit;
    NotContainsAfterBlocked(IntToString(i), unit, p);
  }

  lemma BoolLacksAll(m: Markers, b: bool)
    requires Sized(m)
    ensures Lacks(m, BoolText(b))
  {
    var t := BoolText(b);
    NotContainsChar(t, m.caseToken);
    NotContainsChar(t, m.separator);
    NotContainsChar(t, m.outputLabel);
    NotContainsChar(t, m.timeLabel);
    NotContainsChar(t, m.passedLabel);
  }

  lemma NoNewline(u: string, v: string, s: string)
    requires '\n' !in u && (forall k | 0 <= k < |v| :: !IsLineTerminator(v[k])) && LineEnding(s)
    ensures '\n' !in u + v + s
  {
    assert forall k | 0 <= k < |v| :: v[k] != '\n';
  }

  // ---------------------------------------------------------------------------
  // One report line

  /** A line of a literal and a value holding no marker word: it neither ends the
      block nor sets any field. */
  lemma QuietLine(m: Markers, u: string, v: string, s: string)
    requires Inert(m, u) && Lacks(m, v) && LineEnding(s)
    ensures !IsStop(m, u + v + s) && Quiet(m, u + v + s)
  {
    LineLacks(u, v, s, m.caseToken);
    LineLacks(u, v, s, m.separator);
    LineLacks(u, v, s, m.outputLabel);
    LineLacks(u, v, s, m.timeLabel);
    LineLacks(u, v, s, m.passedLabel);
  }

  /** `INPUT: <num>` */
  lemma InputLine(m: Markers, w: Wording, num: int, s: string)
    requires Fits(m, w) && LineEnding(s)
    ensures var line := w.input + IntToString(num) + s;
      !IsStop(m, line) && Quiet(m, line) && '\n' !in line
  {
    IntLacksAll(m, num);
    QuietLine(m, w.input, IntToString(num), s);
    IntToStringShape(num);
    NoNewline(w.input, IntToString(num), s);
  }

  /** `EXPECTED: <expected>`, and likewise any literal and plain value. */
  lemma PlainLine(m: Markers, u: string, v: string, s: string)
    requires Inert(m, u) && '\n' !in u && Plain(m, v) && LineEnding(s)
    ensures !IsStop(m, u + v + s) && Quiet(m, u + v + s) && '\n' !in u + v + s
  {
    QuietLine(m, u, v, s);
    NoNewline(u, v, s);
  }

  /** `OUTPUT: <result>` captures the whole result, since the label at the start of
      the line is the leftmost match, whatever labels `r` holds; an empty result
      captures nothing, since `(.+)` needs a character. */
  lemma ResultLine(m: Markers, w: Wording, r: string, s: string)
    requires Fits(m, w) && LineEnding(s)
    requires (forall k | 0 <= k < |r| :: !IsLineTerminator(r[k]))
    requires !Contains(r, m.caseToken) && !Contains(r, m.separator)
    ensures var line := w.output + r + s;
      !IsStop(m, line) && '\n' !in line &&
      (!Contains(r, m.timeLabel) ==> !Contains(line, m.timeLabel)) &&
      MatchCapture(line, m.outputLabel + " ") == if r == [] then None else Some(r)
  {
    var line := w.output + r + s;
    LineLacks(w.output, r, s, m.caseToken);
    LineLacks(w.output, r, s, m.separator);
    if !Contains(r, m.timeLabel) {
      LineLacks(w.output, r, s, m.timeLabel);
    }
    NoNewline(w.output, r, s);
    if r == [] {
      assert line == w.output + s;
      CaptureOfBareLabel(w.output, s);
    } else {
      CaptureOfLine(w.output, r, s);
    }
  }

  /** The output line of a plain result sets the output and nothing else. */
  lemma OutputLine(m: Markers, w: Wording, r: string, s: string)
    requires Fits(m, w) && Plain(m, r) && LineEnding(s)
    ensures var line := w.output + r + s;
      !IsStop(m, line) && '\n' !in line &&
      !Contains(line, m.timeLabel) && !Contains(line, m.passedLabel) &&
      MatchCapture(line, m.outputLabel + " ") == if r == [] then None else Some(r)
  {
    ResultLine(m, w, r, s);
    LineLacks(w.output, r, s, m.passedLabel);
  }

  /** `EXECUTION_TIME: <elapsed>` yields the elapsed time when it is not negative; a
      minus sign after the label defeats `(\d+)`. */
  lemma TimeLine(m: Markers, w: Wording, el: int, s: string)
    requires Fits(m, w) && LineEnding(s)
    ensures var line := w.time + IntToString(el) + w.unit + s;
      !IsStop(m, line) && '\n' !in line &&
      !Contains(line, m.outputLabel) && !Contains(line, m.passedLabel) &&
      MatchTime(line, m.timeLabel + " ", m.timeSuffix) == if el >= 0 then Some(el) else None
  {
    var v := IntToString(el) + w.unit;
    var line := w.time + IntToString(el) + w.unit + s;
    assert line == w.time + v + s;
    TimeValueLacks(m, w.unit, el);
    LineLacks(w.time, v, s, m.caseToken);
    LineLacks(w.time, v, s, m.separator);
    LineLacks(w.time, v, s, m.outputLabel);
    LineLacks(w.time, v, s, m.passedLabel);
    TimeNoNewline(w, el, s);
    if el >= 0 {
      TimeOfLine(w.time, el, w.unit, s);
    } else {
      NegativeTime(m, w, el, s);
    }
  }

  lemma TimeNoNewline(w: Wording, el: int, s: string)
    requires '\n' !in w.time && '\n' !in w.unit && LineEnding(s)
    ensures '\n' !in w.time + IntToString(el) + w.unit + s
  {
    IntToStringShape(el);
    assert forall k | 0 <= k < |IntToString(el)| :: IntToString(el)[k] != '\n';
  }

  lemma NegativeTime(m: Markers, w: Wording, el: int, s: string)
    requires LineEnding(s) && el < 0
    requires WordShape(m.timeLabel) && w.time == m.timeLabel + " " && w.unit == m.timeSuffix
    requires Blocked(w.time[1..], w.time) && !Contains(IntToString(el) + w.unit, m.timeLabel)
    ensures MatchTime(w.time + IntToString(el) + w.unit + s, m.timeLabel + " ", m.timeSuffix) == None
  {
    var v := IntToString(el) + w.unit;
    EndingLacks(v, s, m.timeLabel);
    if Contains(v + s, w.time) {
      ContainsPrefixPart(v + s, m.timeLabel, " ");
    }
    NotAfterHead(w.time, v + s, w.time);
    assert w.time + IntToString(el) + w.unit + s == w.time + (v + s);
    assert w.time + IntToString(el) + w.unit + s == w.time + "-" + NatToString(-el) + w.unit + s;
    TimeOfNegative(w.time, -el, w.unit, s);
  }

  /** `PASSED: <passed>` holds the label, and the word `true` exactly when the printed
      boolean is true. */
  lemma PassedLine(m: Markers, w: Wording, b: bool, s: string)
    requires Fits(m, w) && LineEnding(s)
    ensures var line := w.passed + BoolText(b) + s;
      !IsStop(m, line) && '\n' !in line &&
      !Contains(line, m.outputLabel) && !Contains(line, m.timeLabel) &&
      Contains(line, m.passedLabel) && (Contains(line, TrueToken) <==> b)
  {
    var t := BoolText(b);
    BoolLacksAll(m, b);
    LineLacks(w.passed, t, s, m.caseToken);
    LineLacks(w.passed, t, s, m.separator);
    LineLacks(w.passed, t, s, m.outputLabel);
    LineLacks(w.passed, t, s, m.timeLabel);
    PassedWords(m.passedLabel, w.passed, b, s);
  }

  lemma PassedWords(word: string, u: string, b: bool, s: string)
    requires u == word + " " && 't' !in u && '\n' !in u && LineEnding(s)
    ensures var line := u + BoolText(b) + s;
      '\n' !in line && Contains(line, word) && (Contains(line, TrueToken) <==> b)
  {
    var line := u + BoolText(b) + s;
    assert line == [] + word + (" " + BoolText(b) + s);
    ContainsMiddle([], word, " " + BoolText(b) + s);
    if b {
      ContainsMiddle(u, "true", s);
    } else {
      assert BoolText(b) == "false";
      assert 't' !in "false";
      NotContainsChar(line, TrueToken);
    }
  }

  // ---------------------------------------------------------------------------
  // What one line does to the record

  lemma StepOutput(m: Markers, x: ExecutionResult, line: string, r: string)
    requires !Contains(line, m.timeLabel) && !Contains(line, m.passedLabel)
    requires MatchCapture(line, m.outputLabel + " ") == if r == [] then None else Some(r)
    ensures Step(m, x, line) == ExecutionResult(x.passed, if r == [] then x.output else r, x.executionTime)
  {
    StepOutputByMatch(m, x, line);
  }

  lemma StepTime(m: Markers, x: ExecutionResult, line: string, t: Option<nat>)
    requires !Contains(line, m.outputLabel) && !Contains(line, m.passedLabel)
    requires MatchTime(line, m.timeLabel + " ", m.timeSuffix) == t
    ensures Step(m, x, line) == ExecutionResult(x.passed, x.output, if t.Some? then t.value else x.executionTime)
  {
    StepTimeByMatch(m, x, line);
  }

  lemma StepPassed(m: Markers, x: ExecutionResult, line: string, b: bool)
    requires !Contains(line, m.outputLabel) && !Contains(line, m.timeLabel)
    requires Contains(line, m.passedLabel) && (Contains(line, TrueToken) <==> b)
    ensures Step(m, x, line) == ExecutionResult(b, x.output, x.executionTime)
  {
  }

  lemma FoldSnoc(m: Markers, x: ExecutionResult, a: seq<string>, line: string)
    ensures Fold(m, x, a + [line]) == Step(m, Fold(m, x, a), line)
  {
    assert (a + [line])[..|a|] == a;
  }

  /** The empty line `System.out.println()` prints. */
  lemma BlankLine(m: Markers, s: string)
    requires Sized(m) && LineEnding(s)
    ensures !IsStop(m, s) && Quiet(m, s) && '\n' !in s
  {
  }

  // ---------------------------------------------------------------------------
  // The five report lines

  /** The report lines of a test case whose call returned `r` after `el` milliseconds. */
  function ReportLines(w: Wording, tc: TestCase, r: string, el: int, s: string): seq<string>
  {
    [w.input + IntToString(tc.input.num) + s,
     w.expected + tc.expected + s,
     w.output + r + s,
     w.time + IntToString(el) + w.unit + s,
     w.passed + BoolText(r == tc.expected) + s]
  }

  /** Lines on which the parser's scan goes on, and which a `println` writes as they are. */
  predicate Carried(m: Markers, lines: seq<string>)
  {
    forall i | 0 <= i < |lines| :: !IsStop(m, lines[i]) && '\n' !in lines[i]
  }

  /** The report lines of a returned result read back as the record they describe:
      passed exactly when the result equals the expected value, the result as the
      output, and the elapsed time when it is not negative. A field label inside the
      result may set a field on the output line, but the time line and the passed
      line after it set those fields again. */
  lemma ReportReads(m: Markers, w: Wording, tc: TestCase, r: string, el: int, s: string)
    requires Fits(m, w) && Plain(m, tc.expected) && Carriable(m, r, el) && LineEnding(s)
    ensures Carried(m, ReportLines(w, tc, r, el, s))
    ensures Fold(m, Default, ReportLines(w, tc, r, el, s)) == Reported(tc, r, el)
  {
    var l0, l1, l2 := w.input + IntToString(tc.input.num) + s, w.expected + tc.expected + s, w.output + r + s;
    var l3, l4 := w.time + IntToString(el) + w.unit + s, w.passed + BoolText(r == tc.expected) + s;
    FiveLines(m, w, tc, r, el, s);
    ReportFold(m, l0, l1, l2, l3, l4, r, el, r == tc.expected);
    assert ReportLines(w, tc, r, el, s) == [l0, l1, l2, l3, l4];
  }

  /** What the parser sees in each report line of a returned result. */
  lemma FiveLines(m: Markers, w: Wording, tc: TestCase, r: string, el: int, s: string)
    requires Fits(m, w) && Plain(m, tc.expected) && Carriable(m, r, el) && LineEnding(s)
    ensures var l0, l1 := w.input + IntToString(tc.input.num) + s, w.expected + tc.expected + s;
      var l2, l3 := w.output + r + s, w.time + IntToString(el) + w.unit + s;
      var l4 := w.passed + BoolText(r == tc.expected) + s;
      !IsStop(m, l0) && '\n' !in l0 && Quiet(m, l0) && !IsStop(m, l1) && '\n' !in l1 && Quiet(m, l1) &&
      !IsStop(m, l2) && '\n' !in l2 && !IsStop(m, l3) && '\n' !in l3 && !IsStop(m, l4) && '\n' !in l4 &&
      MatchCapture(l2, m.outputLabel + " ") == (if r == [] then None else Some(r)) &&
      (el < 0 ==> !Contains(l2, m.timeLabel)) &&
      !Contains(l3, m.outputLabel) && !Contains(l3, m.passedLabel) &&
      MatchTime(l3, m.timeLabel + " ", m.timeSuffix) == (if el >= 0 then Some(el) else None) &&
      !Contains(l4, m.outputLabel) && !Contains(l4, m.timeLabel) &&
      Contains(l4, m.passedLabel) && (Contains(l4, TrueToken) <==> r == tc.expected)
  {
    InputLine(m, w, tc.input.num, s);
    PlainLine(m, w.expected, tc.expected, s);
    ResultLine(m, w, r, s);
    TimeLine(m, w, el, s);
    PassedLine(m, w, r == tc.expected, s);
  }

  /** Five report lines, of which the first two are quiet, read back as the record
      the output, time and passed lines describe. */
  lemma ReportFold(m: Markers, l0: string, l1: string, l2: string, l3: string, l4: string,
                   r: string, el: int, b: bool)
    requires !IsStop(m, l0) && '\n' !in l0 && Quiet(m, l0) && !IsStop(m, l1) && '\n' !in l1 && Quiet(m, l1)
    requires !IsStop(m, l2) && '\n' !in l2 && !IsStop(m, l3) && '\n' !in l3 && !IsStop(m, l4) && '\n' !in l4
    requires MatchCapture(l2, m.outputLabel + " ") == (if r == [] then None else Some(r))
    requires el < 0 ==> !Contains(l2, m.timeLabel)
    requires !Contains(l3, m.outputLabel) && !Contains(l3, m.passedLabel)
    requires MatchTime(l3, m.timeLabel + " ", m.timeSuffix) == (if el >= 0 then Some(el) else None)
    requires !Contains(l4, m.outputLabel) && !Contains(l4, m.timeLabel)
    requires Contains(l4, m.passedLabel) && (Contains(l4, TrueToken) <==> b)
    ensures Carried(m, [l0, l1, l2, l3, l4])
    ensures Fold(m, Default, [l0, l1, l2, l3, l4]) == ExecutionResult(b, r, if el >= 0 then el else 0)
  {
    FoldFive(m, [l0, l1, l2, l3, l4]);
    ReportSteps(m, l2, l3, l4, r, el, b);
  }

  /** The output line, the time line and the passed line, read in that order. */
  lemma ReportSteps(m: Markers, l2: string, l3: string, l4: string, r: string, el: int, b: bool)
    requires MatchCapture(l2, m.outputLabel + " ") == (if r == [] then None else Some(r))
    requires el < 0 ==> !Contains(l2, m.timeLabel)
    requires !Contains(l3, m.outputLabel) && !Contains(l3, m.passedLabel)
    requires MatchTime(l3, m.timeLabel + " ", m.timeSuffix) == if el >= 0 then Some(el) else None
    requires !Contains(l4, m.outputLabel) && !Contains(l4, m.timeLabel)
    requires Contains(l4, m.passedLabel) && (Contains(l4, TrueToken) <==> b)
    ensures Step(m, Step(m, Step(m, Default, l2), l3), l4) == ExecutionResult(b, r, if el >= 0 then el else 0)
  {
    var x := Step(m, Default, l2);
    StepOutputByMatch(m, Default, l2);
    StepTime(m, x, l3, if el >= 0 then Some(el) else None);
    StepPassed(m, Step(m, x, l3), l4, b);
  }

  /** Reading five lines from the default record, of which the first two are quiet. */
  lemma FoldFive(m: Markers, ls: seq<string>)
    requires |ls| == 5 && Quiet(m, ls[0]) && Quiet(m, ls[1])
    ensures Fold(m, Default, ls) == Step(m, Step(m, Step(m, Default, ls[2]), ls[3]), ls[4])
  {
    FoldQuiet(m, Default, ls[..2]);
    assert ls[..3] == ls[..2] + [ls[2]];
    FoldSnoc(m, Default, ls[..2], ls[2]);
    assert ls[..4] == ls[..3] + [ls[3]];
    FoldSnoc(m, Default, ls[..3], ls[3]);
    assert ls == ls[..4] + [ls[4]];
    FoldSnoc(m, Default, ls[..4], ls[4]);
  }

  /** The first four report lines, without the passed line: all a JUnit test prints
      when `result.equals(expected)` throws on a `null` result. */
  lemma FirstFourRead(m: Markers, w: Wording, tc: TestCase, r: string, el: int, s: string)
    requires Fits(m, w) && Plain(m, tc.expected) && Plain(m, r) && LineEnding(s)
    ensures Carried(m, ReportLines(w, tc, r, el, s)[..4])
    ensures Fold(m, Default, ReportLines(w, tc, r, el, s)[..4]) ==
      ExecutionResult(false, r, if el >= 0 then el else 0)
  {
    var ls := ReportLines(w, tc, r, el, s)[..4];
    assert ls == [w.input + IntToString(tc.input.num) + s, w.expected + tc.expected + s, w.output + r + s,
                  w.time + IntToString(el) + w.unit + s];
    FourLines(m, w, tc, r, el, s);
    FoldFour(m, ls, r, if el >= 0 then Some(el) else None);
  }

  /** What the parser sees in each of the first four report lines. */
  lemma FourLines(m: Markers, w: Wording, tc: TestCase, r: string, el: int, s: string)
    requires Fits(m, w) && Plain(m, tc.expected) && Plain(m, r) && LineEnding(s)
    ensures var l0 := w.input + IntToString(tc.input.num) + s;
      var l1 := w.expected + tc.expected + s;
      var l2 := w.output + r + s;
      var l3 := w.time + IntToString(el) + w.unit + s;
      Carried(m, [l0, l1, l2, l3]) && Quiet(m, l0) && Quiet(m, l1) &&
      !Contains(l2, m.timeLabel) && !Contains(l2, m.passedLabel) &&
      MatchCapture(l2, m.outputLabel + " ") == (if r == [] then None else Some(r)) &&
      !Contains(l3, m.outputLabel) && !Contains(l3, m.passedLabel) &&
      MatchTime(l3, m.timeLabel + " ", m.timeSuffix) == if el >= 0 then Some(el) else None
  {
    InputLine(m, w, tc.input.num, s);
    PlainLine(m, w.expected, tc.expected, s);
    OutputLine(m, w, r, s);
    TimeLine(m, w, el, s);
  }

  /** Two quiet lines, a line capturing `r` and a line yielding time `t`. */
  lemma FoldFour(m: Markers, ls: seq<string>, r: string, t: Option<nat>)
    requires |ls| == 4 && Quiet(m, ls[0]) && Quiet(m, ls[1])
    requires !Contains(ls[2], m.timeLabel) && !Contains(ls[2], m.passedLabel)
    requires MatchCapture(ls[2], m.outputLabel + " ") == if r == [] then None else Some(r)
    requires !Contains(ls[3], m.outputLabel) && !Contains(ls[3], m.passedLabel)
    requires MatchTime(ls[3], m.timeLabel + " ", m.timeSuffix) == t
    ensures Fold(m, Default, ls) == ExecutionResult(false, r, if t.Some? then t.value else 0)
  {
    FoldQuiet(m, Default, ls[..2]);
    assert ls[..3] == ls[..2] + [ls[2]];
    FoldSnoc(m, Default, ls[..2], ls[2]);
    StepOutput(m, Default, ls[2], r);
    assert ls == ls[..3] + [ls[3]];
    FoldSnoc(m, Default, ls[..3], ls[3]);
    StepTime(m, Fold(m, Default, ls[..3]), ls[3], t);
  }

  /** A value holding none of the words' first characters is plain. */
  lemma PlainByChars(m: Markers, v: string)
    requires Sized(m) && (forall k | 0 <= k < |v| :: !IsLineTerminator(v[k]))
    requires m.caseToken[0] !in v && m.separator[0] !in v && m.outputLabel[0] !in v
    requires m.timeLabel[0] !in v && m.passedLabel[0] !in v
    ensures Plain(m, v)
  {
    NotContainsChar(v, m.caseToken);
    NotContainsChar(v, m.separator);
    NotContainsChar(v, m.outputLabel);
    NotContainsChar(v, m.timeLabel);
    NotContainsChar(v, m.passedLabel);
  }
}
