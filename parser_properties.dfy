/** Properties of the shared output parser: how a block of lines is read (the
    last line that sets a field wins, lines without labels change nothing, the
    `includes` guards add nothing to the regular expressions), where a block ends,
    and how the header markers of different test cases are kept apart. */
module ParserProperties {
  import opened Text
  import opened Patterns
  import opened Records
  import opened OutputParser

  // ---------------------------------------------------------------------------
  // Reading a block

  /** Reading a block in two parts is reading it whole. */
  lemma {:induction false} FoldConcat(m: Markers, r: ExecutionResult, a: seq<string>, b: seq<string>)
    ensures Fold(m, r, a + b) == Fold(m, Fold(m, r, a), b)
    decreases |b|
  {
    if b == [] {
      assert a + b == a;
    } else {
      var b' := b[..|b| - 1];
      assert (a + b)[..|a + b| - 1] == a + b';
      assert (a + b)[|a + b| - 1] == b[|b| - 1];
      FoldConcat(m, r, a, b');
    }
  }

  /** A line with none of the three labels leaves the record as it is. */
  lemma StepQuiet(m: Markers, r: ExecutionResult, line: string)
    requires Quiet(m, line)
    ensures Step(m, r, line) == r
  {
  }

  /** Lines with none of the three labels leave the record as it is. */
  lemma {:induction false} FoldQuiet(m: Markers, r: ExecutionResult, b: seq<string>)
    requires forall i | 0 <= i < |b| :: Quiet(m, b[i])
    ensures Fold(m, r, b) == r
    decreases |b|
  {
    if b != [] {
      FoldQuiet(m, r, b[..|b| - 1]);
    }
  }

  /** The `includes` guard before `/Output: (.+)/` never rejects a line the
      expression matches: the output changes exactly when the expression matches,
      to its capture. */
  lemma StepOutputByMatch(m: Markers, r: ExecutionResult, line: string)
    ensures var c := MatchCapture(line, m.outputLabel + " ");
      Step(m, r, line).output == if c.Some? then c.value else r.output
  {
    var c := MatchCapture(line, m.outputLabel + " ");
    if c.Some? {
      MatchCaptureFails(line, m.outputLabel + " ");
      var p: nat :| CaptureMatchesAt(line, m.outputLabel + " ", p);
      ContainsAt(line, m.outputLabel + " ", p);
      ContainsPrefixPart(line, m.outputLabel, " ");
    }
  }

  /** Likewise the guard before `/Execution Time: (\d+)ms/`: the time changes
      exactly when the expression matches, to the value of its digits. */
  lemma StepTimeByMatch(m: Markers, r: ExecutionResult, line: string)
    ensures var t := MatchTime(line, m.timeLabel + " ", m.timeSuffix);
      Step(m, r, line).executionTime == if t.Some? then t.value else r.executionTime
  {
    var t := MatchTime(line, m.timeLabel + " ", m.timeSuffix);
    if t.Some? {
      MatchTimeFails(line, m.timeLabel + " ", m.timeSuffix);
      var p: nat :| TimeMatchesAt(line, m.timeLabel + " ", m.timeSuffix, p);
      ContainsAt(line, m.timeLabel + " ", p);
      ContainsPrefixPart(line, m.timeLabel, " ");
    }
  }

  /** A line that is only the output label and its space (and perhaps the `\r` of a
      CRLF line) leaves the output as it was. */
  lemma BareOutputLabel(m: Markers, r: ExecutionResult, s: string)
    requires s == [] || (|s| == 1 && IsLineTerminator(s[0]))
    ensures Step(m, r, m.outputLabel + " " + s).output == r.output
  {
    CaptureOfBareLabel(m.outputLabel + " ", s);
    StepOutputByMatch(m, r, m.outputLabel + " " + s);
  }

  lemma {:induction false} FoldKeepsPassed(m: Markers, r: ExecutionResult, b: seq<string>)
    requires forall i | 0 <= i < |b| :: !SetsPassed(m, b[i])
    ensures Fold(m, r, b).passed == r.passed
    decreases |b|
  {
    if b != [] {
      FoldKeepsPassed(m, r, b[..|b| - 1]);
    }
  }

  lemma {:induction false} FoldKeepsOutput(m: Markers, r: ExecutionResult, b: seq<string>)
    requires forall i | 0 <= i < |b| :: !SetsOutput(m, b[i])
    ensures Fold(m, r, b).output == r.output
    decreases |b|
  {
    if b != [] {
      FoldKeepsOutput(m, r, b[..|b| - 1]);
    }
  }

  lemma {:induction false} FoldKeepsTime(m: Markers, r: ExecutionResult, b: seq<string>)
    requires forall i | 0 <= i < |b| :: !SetsTime(m, b[i])
    ensures Fold(m, r, b).executionTime == r.executionTime
    decreases |b|
  {
    if b != [] {
      FoldKeepsTime(m, r, b[..|b| - 1]);
    }
  }

  /** The block read up to and including line `i`, then the rest. */
  lemma FoldAt(m: Markers, r: ExecutionResult, b: seq<string>, i: nat)
    requires i < |b|
    ensures Fold(m, r, b) == Fold(m, Step(m, Fold(m, r, b[..i]), b[i]), b[i + 1..])
  {
    assert b == b[..i + 1] + b[i + 1..];
    FoldConcat(m, r, b[..i + 1], b[i + 1..]);
    assert b[..i + 1][..i] == b[..i];
  }

  /** The last "passed" line of a block decides `passed`, whatever the lines before it set. */
  lemma LastPassedWins(m: Markers, r: ExecutionResult, b: seq<string>, i: nat)
    requires i < |b| && SetsPassed(m, b[i])
    requires forall j | i < j < |b| :: !SetsPassed(m, b[j])
    ensures Fold(m, r, b).passed == Contains(b[i], TrueToken)
  {
    FoldAt(m, r, b, i);
    FoldKeepsPassed(m, Step(m, Fold(m, r, b[..i]), b[i]), b[i + 1..]);
  }

  /** The last line on which the output expression matches decides the output. */
  lemma LastOutputWins(m: Markers, r: ExecutionResult, b: seq<string>, i: nat)
    requires i < |b| && SetsOutput(m, b[i])
    requires forall j | i < j < |b| :: !SetsOutput(m, b[j])
    ensures Fold(m, r, b).output == MatchCapture(b[i], m.outputLabel + " ").value
  {
    FoldAt(m, r, b, i);
    FoldKeepsOutput(m, Step(m, Fold(m, r, b[..i]), b[i]), b[i + 1..]);
  }

  /** The last line on which the time expression matches decides the time. */
  lemma LastTimeWins(m: Markers, r: ExecutionResult, b: seq<string>, i: nat)
    requires i < |b| && SetsTime(m, b[i])
    requires forall j | i < j < |b| :: !SetsTime(m, b[j])
    ensures Fold(m, r, b).executionTime == MatchTime(b[i], m.timeLabel + " ", m.timeSuffix).value
  {
    FoldAt(m, r, b, i);
    FoldKeepsTime(m, Step(m, Fold(m, r, b[..i]), b[i]), b[i + 1..]);
  }

  // ---------------------------------------------------------------------------
  // Where a block ends

  /** The scan over lines placed after others ends where it ends over them alone. */
  lemma {:induction false} BlockEndShift(m: Markers, pre: seq<string>, rest: seq<string>, j: nat)
    requires j <= |rest|
    ensures BlockEnd(m, pre + rest, |pre| + j) == |pre| + BlockEnd(m, rest, j)
    decreases |rest| - j
  {
    if j < |rest| {
      assert (pre + rest)[|pre| + j] == rest[j];
      if !IsStop(m, rest[j]) {
        BlockEndShift(m, pre, rest, j + 1);
      }
    }
  }

  /** The scan stops at the first stop line after a stop-free body. */
  lemma {:induction false} BlockEndAfterBody(m: Markers, body: seq<string>, rest: seq<string>, j: nat)
    requires j <= |body|
    requires forall i | 0 <= i < |body| :: !IsStop(m, body[i])
    requires rest == [] || IsStop(m, rest[0])
    ensures BlockEnd(m, body + rest, j) == |body|
    decreases |body| - j
  {
    if j < |body| {
      assert (body + rest)[j] == body[j];
      BlockEndAfterBody(m, body, rest, j + 1);
    } else if rest != [] {
      assert (body + rest)[|body|] == rest[0];
    }
  }

  /** The first line holding a pattern, when all lines before it lack it. */
  lemma FindIndexAt(lines: seq<string>, pat: string, h: nat)
    requires h < |lines| && Contains(lines[h], pat)
    requires forall i | 0 <= i < h :: !Contains(lines[i], pat)
    ensures FindIndex(lines, pat) == h
  {
  }

  /** Only the window between a case's first header line and the next stop line
      matters: a case whose header first appears on the line after `before` gets
      the record read from the lines after that header, up to the next stop line. */
  lemma WindowLocality(m: Markers, before: seq<string>, hdr: string, rest: seq<string>, k: nat)
    requires forall i | 0 <= i < |before| :: !Contains(before[i], HeaderMarker(m, k))
    requires Contains(hdr, HeaderMarker(m, k))
    ensures ParseCase(m, before + [hdr] + rest, k) == Fold(m, Default, rest[..BlockEnd(m, rest, 0)])
  {
    FirstHeaderAt(before, hdr, rest, HeaderMarker(m, k));
    ScanAfter(m, before + [hdr], rest);
  }

  lemma FirstHeaderAt(before: seq<string>, hdr: string, rest: seq<string>, pat: string)
    requires forall i | 0 <= i < |before| :: !Contains(before[i], pat)
    requires Contains(hdr, pat)
    ensures FindIndex(before + [hdr] + rest, pat) == |before|
  {
    var lines := before + [hdr] + rest;
    assert lines[|before|] == hdr;
    forall i | 0 <= i < |before| ensures !Contains(lines[i], pat) {
      assert lines[i] == before[i];
    }
    FindIndexAt(lines, pat, |before|);
  }

  lemma ScanAfter(m: Markers, pre: seq<string>, rest: seq<string>)
    ensures ScanSpec(m, pre + rest, |pre|) == Fold(m, Default, rest[..BlockEnd(m, rest, 0)])
  {
    BlockEndShift(m, pre, rest, 0);
    assert (pre + rest)[|pre|..|pre| + BlockEnd(m, rest, 0)] == rest[..BlockEnd(m, rest, 0)];
  }

  /** The block boundary as the source writes it: a case whose header line is
      followed by stop-free lines and then a stop line (or the end of the text)
      gets the record of exactly those lines, whatever comes after. */
  lemma BlockBoundary(m: Markers, before: seq<string>, hdr: string, body: seq<string>,
                      stop: seq<string>, after: seq<string>, k: nat)
    requires forall i | 0 <= i < |before| :: !Contains(before[i], HeaderMarker(m, k))
    requires Contains(hdr, HeaderMarker(m, k))
    requires forall i | 0 <= i < |body| :: !IsStop(m, body[i])
    requires (stop == [] && after == []) || (|stop| == 1 && IsStop(m, stop[0]))
    ensures ParseCase(m, before + [hdr] + (body + stop + after), k) == Fold(m, Default, body)
  {
    var rest := body + stop + after;
    assert rest == body + (stop + after);
    BlockEndAfterBody(m, body, stop + after, 0);
    WindowLocality(m, before, hdr, rest, k);
    assert rest[..|body|] == body;
  }

  /** A case whose header no line holds gets the default record (index.js lines
      186-188 and 240-242): the result is never missing. */
  lemma MissingHeader(m: Markers, text: string, count: nat, i: nat)
    requires i < count
    requires forall l | l in Split(text, '\n') :: !Contains(l, HeaderMarker(m, i + 1))
    ensures Parse(m, text, count)[i] == Default
  {
    var lines := Split(text, '\n');
    assert forall j | 0 <= j < |lines| :: lines[j] in lines;
  }

  /** The parser's result lists the cases in the caller's order: entry `i` depends
      only on the header numbered `i + 1`, not on `count` or on other cases. */
  lemma ParseEntry(m: Markers, text: string, count: nat, i: nat)
    requires i < count
    ensures Parse(m, text, count)[i] == ParseCase(m, Split(text, '\n'), i + 1)
    ensures forall n | i < n :: Parse(m, text, n)[i] == Parse(m, text, count)[i]
  {
  }

  // ---------------------------------------------------------------------------
  // Header markers

  /** A header line starts with the case token, so it also ends the block before it. */
  lemma HeaderIsStop(m: Markers, k: nat, s: string)
    requires ValidMarkers(m)
    ensures IsStop(m, HeaderMarker(m, k) + s)
  {
    var line := HeaderMarker(m, k) + s;
    assert line[..|m.caseToken|] == m.caseToken;
    ContainsAt(line, m.caseToken, 0);
  }

  /** A line without the case token holds no header. */
  lemma NoTokenNoHeader(m: Markers, line: string, k: nat)
    requires ValidMarkers(m) && !Contains(line, m.caseToken)
    ensures !Contains(line, HeaderMarker(m, k))
  {
    var h := HeaderMarker(m, k);
    assert h == m.caseToken + h[|m.caseToken|..];
    if Contains(line, h) {
      ContainsPrefixPart(line, m.caseToken, h[|m.caseToken|..]);
    }
  }

  /** The line ending a harness puts after a line: nothing, or the `\r` of CRLF. */
  predicate LineEnding(s: string)
  {
    s == "" || s == "\r"
  }

  /** The header line of one case never holds the header of another: the colon
      after the number keeps "1:" out of "10:", and no copy can start later in the
      line. */
  lemma HeaderDistinct(m: Markers, a: nat, b: nat, s: string)
    requires ValidMarkers(m) && a != b && LineEnding(s)
    ensures !Contains(HeaderMarker(m, a) + s, HeaderMarker(m, b))
  {
    var line := HeaderMarker(m, a) + s;
    var hb := HeaderMarker(m, b);
    HeaderNotAtStart(m, a, b, s);
    HeaderNotLater(m, a, b, s);
    forall p: nat | p <= |line| ensures !OccursAt(line, hb, p) {
    }
  }

  lemma HeaderNotAtStart(m: Markers, a: nat, b: nat, s: string)
    requires ValidMarkers(m) && a != b
    ensures !OccursAt(HeaderMarker(m, a) + s, HeaderMarker(m, b), 0)
  {
    var P := m.headerPrefix;
    var na, nb := NatToString(a), NatToString(b);
    var line := HeaderMarker(m, a) + s;
    var hb := HeaderMarker(m, b);
    assert line == P + na + ":" + s;
    assert hb == P + nb + ":";
    if |hb| <= |line| {
      var w := line[..|hb|];
      if |nb| == |na| {
        if na == nb {
          NatToStringInjective(a, b);
        }
        assert w[|P|..|P| + |na|] == na;
        assert hb[|P|..|P| + |nb|] == nb;
      } else if |nb| < |na| {
        assert w[|P| + |nb|] == na[|nb|];
        assert hb[|P| + |nb|] == ':';
      } else {
        assert w[|P| + |na|] == ':';
        assert hb[|P| + |na|] == nb[|na|];
      }
      assert w != hb;
    }
  }

  /** What follows the prefix of a header line holds no character that starts a header. */
  lemma HeaderTailForeign(m: Markers, a: nat, b: nat, s: string)
    requires ValidMarkers(m) && LineEnding(s)
    ensures !Contains(NatToString(a) + ":" + s, HeaderMarker(m, b))
  {
    var na := NatToString(a);
    var hb := HeaderMarker(m, b);
    var w := na + ":" + s;
    assert hb[0] == m.headerPrefix[0];
    forall c | c in w ensures c != hb[0] {
      var i :| 0 <= i < |w| && w[i] == c;
      if i < |na| {
        assert w[i] == na[i];
      } else if i > |na| {
        assert w[i] == s[i - |na| - 1];
      }
    }
    NotContainsChar(w, hb);
  }

  lemma HeaderNotLater(m: Markers, a: nat, b: nat, s: string)
    requires ValidMarkers(m) && LineEnding(s)
    ensures forall p: nat | 1 <= p :: !OccursAt(HeaderMarker(m, a) + s, HeaderMarker(m, b), p)
  {
    var P := m.headerPrefix;
    var hb := HeaderMarker(m, b);
    var w := NatToString(a) + ":" + s;
    HeaderTailForeign(m, a, b, s);
    BlockedExtend(P[1..], P, NatToString(b) + ":");
    assert P + (NatToString(b) + ":") == hb;
    assert HeaderMarker(m, a) + s == P + w;
    NotAfterHead(P, w, hb);
  }

  /** A pattern that cannot start inside a head past its first character, and that
      the rest of the line lacks, occurs nowhere after the first character. */
  lemma NotAfterHead(P: string, w: string, pat: string)
    requires |P| >= 1 && |pat| >= 3 && Blocked(P[1..], pat) && !Contains(w, pat)
    ensures forall p: nat | 1 <= p :: !OccursAt(P + w, pat, p)
  {
    var line := P + w;
    var t := line[1..];
    assert t == P[1..] + w;
    NotContainsAfterBlocked(P[1..], w, pat);
    forall p: nat | 1 <= p ensures !OccursAt(line, pat, p) {
      if p + |pat| <= |line| {
        assert !OccursAt(t, pat, p - 1);
        assert line[p..p + |pat|] == t[p - 1..p - 1 + |pat|];
      }
    }
  }

  /** Both dialects satisfy the conditions. */
  lemma MarkersValid()
    ensures ValidMarkers(JUnitMarkers) && ValidMarkers(SimpleMarkers)
  {
    JUnitMarkersValid();
    SimpleMarkersValid();
  }

  lemma JUnitMarkersValid()
    ensures ValidMarkers(JUnitMarkers)
  {
    assert JUnitMarkers.headerPrefix[1..] == "est Case ";
    BlockedFromChar("est Case ", "Test Case ");
  }

  lemma SimpleMarkersValid()
    ensures ValidMarkers(SimpleMarkers)
  {
    assert SimpleMarkers.headerPrefix[1..] == "EST_CASE_";
    assert Blocked("EST_CASE_", "TEST_CASE_");
  }
}
