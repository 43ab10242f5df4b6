/** The regular expressions the output parsers of index.js apply to one line:
    `/Output: (.+)/` and `/OUTPUT: (.+)/` (a label followed by the rest of the line),
    `/Execution Time: (\d+)ms/` and `/EXECUTION_TIME: (\d+)/` (a label, a run of
    digits, and an optional fixed suffix). Each is hand-coded as the leftmost match
    a JavaScript regular expression finds, and the captured group is returned. */
module Patterns {
  import opened Text

  datatype Option<T> = None | Some(value: T)

  /** The end of the run of characters from `i` that `.` matches: the first line
      terminator at or after `i`, or the end of the string. */
  function CaptureEnd(s: string, i: nat): (e: nat)
    requires i <= |s|
    ensures i <= e <= |s|
    ensures forall k | i <= k < e :: !IsLineTerminator(s[k])
    ensures e == |s| || IsLineTerminator(s[e])
    decreases |s| - i
  {
    if i == |s| || IsLineTerminator(s[i]) then i else CaptureEnd(s, i + 1)
  }

  /** The end of the run of digits from `i`. */
  function DigitsEnd(s: string, i: nat): (e: nat)
    requires i <= |s|
    ensures i <= e <= |s|
    ensures forall k | i <= k < e :: IsDigit(s[k])
    ensures e == |s| || !IsDigit(s[e])
    decreases |s| - i
  {
    if i == |s| || !IsDigit(s[i]) then i else DigitsEnd(s, i + 1)
  }

  // ---------------------------------------------------------------------------
  // `/<label>(.+)/`

  /** `/<pat>(.+)/` matches at `p`: `pat` is there and at least one character
      that `.` accepts follows it. */
  predicate CaptureMatchesAt(s: string, pat: string, p: nat)
  {
    OccursAt(s, pat, p) && p + |pat| < |s| && !IsLineTerminator(s[p + |pat|])
  }

  /** What `(.+)` captures once `pat` has matched at `p`: greedily, up to the next
      line terminator. */
  function CaptureAt(s: string, pat: string, p: nat): string
    requires CaptureMatchesAt(s, pat, p)
  {
    s[p + |pat|..CaptureEnd(s, p + |pat|)]
  }

  function MatchCaptureFrom(s: string, pat: string, p: nat): Option<string>
    decreases |s| - p
  {
    if p + |pat| >= |s| then None
    else if CaptureMatchesAt(s, pat, p) then Some(CaptureAt(s, pat, p))
    else MatchCaptureFrom(s, pat, p + 1)
  }

  /** `s.match(/<pat>(.+)/)`, reduced to its captured group. */
  function MatchCapture(s: string, pat: string): Option<string>
  {
    MatchCaptureFrom(s, pat, 0)
  }

  lemma {:induction false} MatchCaptureFromLeftmost(s: string, pat: string, p0: nat, p: nat)
    requires p0 <= p && CaptureMatchesAt(s, pat, p)
    requires forall q: nat | p0 <= q < p :: !CaptureMatchesAt(s, pat, q)
    ensures MatchCaptureFrom(s, pat, p0) == Some(CaptureAt(s, pat, p))
    decreases p - p0
  {
    if p0 < p {
      MatchCaptureFromLeftmost(s, pat, p0 + 1, p);
    }
  }

  lemma {:induction false} MatchCaptureFromNone(s: string, pat: string, p0: nat)
    requires forall q: nat | p0 <= q :: !CaptureMatchesAt(s, pat, q)
    ensures MatchCaptureFrom(s, pat, p0) == None
    decreases |s| - p0
  {
    if p0 + |pat| < |s| {
      MatchCaptureFromNone(s, pat, p0 + 1);
    }
  }

  lemma {:induction false} MatchCaptureFromFinds(s: string, pat: string, p0: nat, p: nat)
    requires p0 <= p && CaptureMatchesAt(s, pat, p)
    ensures MatchCaptureFrom(s, pat, p0).Some?
    decreases p - p0
  {
    if !CaptureMatchesAt(s, pat, p0) {
      MatchCaptureFromFinds(s, pat, p0 + 1, p);
    }
  }

  /** The leftmost match decides the capture: when `/<pat>(.+)/` first matches at
      `p`, the group is the rest of the line after `pat` at `p`, a non-empty run of
      non-terminators ending at a terminator or at the end of `s`. */
  lemma MatchCaptureIsLeftmost(s: string, pat: string, p: nat)
    requires CaptureMatchesAt(s, pat, p)
    requires forall q: nat | q < p :: !CaptureMatchesAt(s, pat, q)
    ensures MatchCapture(s, pat) == Some(CaptureAt(s, pat, p))
    ensures var c := CaptureAt(s, pat, p);
      c != [] && OccursAt(s, c, p + |pat|) &&
      (forall k | 0 <= k < |c| :: !IsLineTerminator(c[k])) &&
      (p + |pat| + |c| == |s| || IsLineTerminator(s[p + |pat| + |c|]))
  {
    MatchCaptureFromLeftmost(s, pat, 0, p);
  }

  /** `match` fails exactly when `/<pat>(.+)/` matches nowhere. */
  lemma MatchCaptureFails(s: string, pat: string)
    ensures MatchCapture(s, pat).None? <==> forall p: nat :: !CaptureMatchesAt(s, pat, p)
  {
    if forall p: nat :: !CaptureMatchesAt(s, pat, p) {
      MatchCaptureFromNone(s, pat, 0);
    } else {
      var p: nat :| CaptureMatchesAt(s, pat, p);
      MatchCaptureFromFinds(s, pat, 0, p);
    }
  }

  /** A line made of the label, a non-empty terminator-free text and then nothing
      or a line terminator (the `\r` of a CRLF line) yields that text. */
  lemma CaptureOfLine(pat: string, c: string, tail: string)
    requires c != [] && forall k | 0 <= k < |c| :: !IsLineTerminator(c[k])
    requires tail == [] || IsLineTerminator(tail[0])
    ensures MatchCapture(pat + c + tail, pat) == Some(c)
  {
    var s := pat + c + tail;
    assert s[..|pat|] == pat && s[|pat|] == c[0];
    assert CaptureMatchesAt(s, pat, 0);
    assert CaptureEnd(s, |pat|) == |pat| + |c| by {
      TerminatorFreeRun(s, |pat|, |pat| + |c|);
    }
    assert s[|pat|..|pat| + |c|] == c;
    MatchCaptureFromLeftmost(s, pat, 0, 0);
  }

  lemma {:induction false} TerminatorFreeRun(s: string, i: nat, e: nat)
    requires i <= e <= |s|
    requires forall k | i <= k < e :: !IsLineTerminator(s[k])
    requires e == |s| || IsLineTerminator(s[e])
    ensures CaptureEnd(s, i) == e
    decreases e - i
  {
    if i < e {
      TerminatorFreeRun(s, i + 1, e);
    }
  }

  /** A label with nothing after it on the line (or only the `\r` of a CRLF line)
      captures nothing. */
  lemma CaptureOfBareLabel(pat: string, tail: string)
    requires tail == [] || (|tail| == 1 && IsLineTerminator(tail[0]))
    ensures MatchCapture(pat + tail, pat) == None
  {
    var s := pat + tail;
    if tail != [] {
      assert s[|pat|] == tail[0];
    }
    assert !CaptureMatchesAt(s, pat, 0);
    forall q: nat ensures !CaptureMatchesAt(s, pat, q) {
    }
    MatchCaptureFromNone(s, pat, 0);
  }

  // ---------------------------------------------------------------------------
  // `/<label>(\d+)<suffix>/`

  /** `/<pat>(\d+)<suffix>/` matches at `p`. The greedy `\d+` takes the whole run
      of digits first; giving a digit back leaves a digit where the suffix would
      have to start, so with a suffix that does not start with a digit the match
      at `p` exists exactly when the whole run is non-empty and the suffix follows it. */
  predicate TimeMatchesAt(s: string, pat: string, suffix: string, p: nat)
  {
    OccursAt(s, pat, p) && DigitsEnd(s, p + |pat|) > p + |pat| &&
    OccursAt(s, suffix, DigitsEnd(s, p + |pat|))
  }

  /** The value `parseInt` gives the captured digit run. */
  function TimeAt(s: string, pat: string, suffix: string, p: nat): nat
    requires TimeMatchesAt(s, pat, suffix, p)
  {
    DecimalValue(s[p + |pat|..DigitsEnd(s, p + |pat|)])
  }

  function MatchTimeFrom(s: string, pat: string, suffix: string, p: nat): Option<nat>
    decreases |s| - p
  {
    if p + |pat| >= |s| then None
    else if TimeMatchesAt(s, pat, suffix, p) then Some(TimeAt(s, pat, suffix, p))
    else MatchTimeFrom(s, pat, suffix, p + 1)
  }

  /** `parseInt(s.match(/<pat>(\d+)<suffix>/)[1])`, or None when it does not match. */
  function MatchTime(s: string, pat: string, suffix: string): Option<nat>
  {
    MatchTimeFrom(s, pat, suffix, 0)
  }

  lemma {:induction false} MatchTimeFromLeftmost(s: string, pat: string, suffix: string, p0: nat, p: nat)
    requires p0 <= p && TimeMatchesAt(s, pat, suffix, p)
    requires forall q: nat | p0 <= q < p :: !TimeMatchesAt(s, pat, suffix, q)
    ensures MatchTimeFrom(s, pat, suffix, p0) == Some(TimeAt(s, pat, suffix, p))
    decreases p - p0
  {
    if p0 < p {
      MatchTimeFromLeftmost(s, pat, suffix, p0 + 1, p);
    }
  }

  lemma {:induction false} MatchTimeFromNone(s: string, pat: string, suffix: string, p0: nat)
    requires forall q: nat | p0 <= q :: !TimeMatchesAt(s, pat, suffix, q)
    ensures MatchTimeFrom(s, pat, suffix, p0) == None
    decreases |s| - p0
  {
    if p0 + |pat| < |s| {
      MatchTimeFromNone(s, pat, suffix, p0 + 1);
    }
  }

  lemma {:induction false} MatchTimeFromFinds(s: string, pat: string, suffix: string, p0: nat, p: nat)
    requires p0 <= p && TimeMatchesAt(s, pat, suffix, p)
    ensures MatchTimeFrom(s, pat, suffix, p0).Some?
    decreases p - p0
  {
    if !TimeMatchesAt(s, pat, suffix, p0) {
      MatchTimeFromFinds(s, pat, suffix, p0 + 1, p);
    }
  }

  /** The leftmost match decides the time: the decimal value of the whole digit
      run after the label, which the suffix immediately follows. */
  lemma MatchTimeIsLeftmost(s: string, pat: string, suffix: string, p: nat)
    requires TimeMatchesAt(s, pat, suffix, p)
    requires forall q: nat | q < p :: !TimeMatchesAt(s, pat, suffix, q)
    ensures MatchTime(s, pat, suffix) == Some(TimeAt(s, pat, suffix, p))
  {
    MatchTimeFromLeftmost(s, pat, suffix, 0, p);
  }

  /** `match` fails exactly when the pattern matches nowhere. */
  lemma MatchTimeFails(s: string, pat: string, suffix: string)
    ensures MatchTime(s, pat, suffix).None? <==> forall p: nat :: !TimeMatchesAt(s, pat, suffix, p)
  {
    if forall p: nat :: !TimeMatchesAt(s, pat, suffix, p) {
      MatchTimeFromNone(s, pat, suffix, 0);
    } else {
      var p: nat :| TimeMatchesAt(s, pat, suffix, p);
      MatchTimeFromFinds(s, pat, suffix, 0, p);
    }
  }

  lemma {:induction false} DigitRun(s: string, i: nat, e: nat)
    requires i <= e <= |s|
    requires forall k | i <= k < e :: IsDigit(s[k])
    requires e == |s| || !IsDigit(s[e])
    ensures DigitsEnd(s, i) == e
    decreases e - i
  {
    if i < e {
      DigitRun(s, i + 1, e);
    }
  }

  /** A label at the head of a line, then a run of digits, then the suffix, yields
      the value of the digits. */
  lemma TimeOfParts(pat: string, d: string, rest: string, suffix: string)
    requires |d| >= 1 && AllDigits(d)
    requires OccursAt(rest, suffix, 0) && (rest == [] || !IsDigit(rest[0]))
    ensures MatchTime(pat + d + rest, pat, suffix) == Some(DecimalValue(d))
  {
    var s := pat + d + rest;
    assert s[..|pat|] == pat;
    assert s[|pat|..|pat| + |d|] == d;
    forall k | |pat| <= k < |pat| + |d| ensures IsDigit(s[k]) {
      assert s[k] == d[k - |pat|];
    }
    assert |pat| + |d| == |s| || s[|pat| + |d|] == rest[0];
    DigitRun(s, |pat|, |pat| + |d|);
    assert s[|pat| + |d|..|pat| + |d| + |suffix|] == rest[..|suffix|];
    assert TimeMatchesAt(s, pat, suffix, 0);
    MatchTimeFromLeftmost(s, pat, suffix, 0, 0);
  }

  /** A line made of the label, the decimal rendering of `n`, the suffix and then
      anything not starting with a digit yields `n`. */
  lemma TimeOfLine(pat: string, n: nat, suffix: string, tail: string)
    requires suffix + tail == [] || !IsDigit((suffix + tail)[0])
    ensures MatchTime(pat + NatToString(n) + suffix + tail, pat, suffix) == Some(n)
  {
    var d := NatToString(n);
    assert (suffix + tail)[..|suffix|] == suffix;
    TimeOfParts(pat, d, suffix + tail, suffix);
    assert pat + d + suffix + tail == pat + d + (suffix + tail);
    DecimalOfNatToString(n);
  }

  /** A label followed by a minus sign does not match when the label occurs
      nowhere else on the line: a negative elapsed time is not read. */
  lemma TimeOfNegative(pat: string, n: nat, suffix: string, tail: string)
    requires forall p: nat | 0 < p :: !OccursAt(pat + "-" + NatToString(n) + suffix + tail, pat, p)
    ensures MatchTime(pat + "-" + NatToString(n) + suffix + tail, pat, suffix) == None
  {
    var s := pat + "-" + NatToString(n) + suffix + tail;
    assert s[|pat|] == '-';
    DigitRun(s, |pat|, |pat|);
    forall q: nat ensures !TimeMatchesAt(s, pat, suffix, q) {
    }
    MatchTimeFromNone(s, pat, suffix, 0);
  }
}
