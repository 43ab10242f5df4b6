/** The JavaScript string operations the output parsers and harness generators of
    index.js rely on: `includes`, `split`, decimal rendering of numbers in template
    literals and `parseInt` of a digit run. Strings are sequences of characters. */
module Text {

  /** An ASCII decimal digit: what `\d` matches in a JavaScript regular expression. */
  predicate IsDigit(c: char) { '0' <= c <= '9' }

  predicate AllDigits(s: string) { forall i | 0 <= i < |s| :: IsDigit(s[i]) }

  /** The characters that `.` refuses to match in a JavaScript regular expression. */
  predicate IsLineTerminator(c: char)
  {
    c == '\n' || c == '\r' || c == '\U{2028}' || c == '\U{2029}'
  }

  predicate OccursAt(s: string, pat: string, p: nat)
  {
    p + |pat| <= |s| && s[p..p + |pat|] == pat
  }

  /** `s.includes(pat)` */
  predicate Contains(s: string, pat: string)
  {
    exists p: nat | p <= |s| :: OccursAt(s, pat, p)
  }

  // ---------------------------------------------------------------------------
  // Reasoning about `includes`

  lemma ContainsAt(s: string, pat: string, p: nat)
    requires OccursAt(s, pat, p)
    ensures Contains(s, pat)
  {
  }

  /** A pattern sits inside any string built around it. */
  lemma ContainsMiddle(a: string, pat: string, c: string)
    ensures Contains(a + pat + c, pat)
  {
    assert (a + pat + c)[|a|..|a| + |pat|] == pat;
    ContainsAt(a + pat + c, pat, |a|);
  }

  /** Whatever contains `a + b` contains `a`. */
  lemma ContainsPrefixPart(s: string, a: string, b: string)
    requires Contains(s, a + b)
    ensures Contains(s, a)
  {
    var p: nat :| p <= |s| && OccursAt(s, a + b, p);
    assert s[p..p + |a|] == (a + b)[..|a|];
    ContainsAt(s, a, p);
  }

  /** `includes` is transitive. */
  lemma ContainsTrans(s: string, t: string, pat: string)
    requires Contains(s, t) && Contains(t, pat)
    ensures Contains(s, pat)
  {
    var p: nat :| p <= |s| && OccursAt(s, t, p);
    var q: nat :| q <= |t| && OccursAt(t, pat, q);
    forall i | 0 <= i < |pat| ensures s[p + q + i] == pat[i] {
      assert s[p..p + |t|][q + i] == t[q + i];
      assert t[q..q + |pat|][i] == pat[i];
    }
    assert s[p + q..p + q + |pat|] == pat;
    ContainsAt(s, pat, p + q);
  }

  /** A pattern whose first character does not occur in `s` is not in `s`. */
  lemma NotContainsChar(s: string, pat: string)
    requires pat != [] && pat[0] !in s
    ensures !Contains(s, pat)
  {
    forall p: nat | p <= |s| ensures !OccursAt(s, pat, p) {
      if p + |pat| <= |s| {
        assert s[p..p + |pat|][0] == s[p] && s[p] in s;
      }
    }
  }

  /** At position `i` of `u`, `u` disagrees with `pat` on the character after
      the first or the one after that, still inside `u`. */
  predicate BlockedAt(u: string, pat: string, i: nat)
    requires i < |u| && |pat| >= 3
  {
    (i + 1 < |u| && u[i + 1] != pat[1]) || (i + 2 < |u| && u[i + 2] != pat[2])
  }

  /** No occurrence of `pat` can start inside `u`, whatever follows `u`. */
  predicate Blocked(u: string, pat: string)
    requires |pat| >= 3
  {
    forall i: nat | i < |u| && u[i] == pat[0] :: BlockedAt(u, pat, i)
  }

  /** Past a blocked prefix, `includes` only sees the rest of the string. */
  lemma SkipBlocked(u: string, w: string, pat: string)
    requires |pat| >= 3 && Blocked(u, pat)
    ensures Contains(u + w, pat) <==> Contains(w, pat)
  {
    forall p: nat | p < |u| && p + |pat| <= |u + w| ensures !OccursAt(u + w, pat, p) {
      var t := (u + w)[p..p + |pat|];
      assert t[0] == u[p];
      if u[p] == pat[0] {
        assert BlockedAt(u, pat, p);
        if p + 1 < |u| && u[p + 1] != pat[1] {
          assert t[1] == u[p + 1];
        } else {
          assert t[2] == u[p + 2];
        }
      }
    }
    forall p: nat | p <= |w| && OccursAt(w, pat, p) ensures OccursAt(u + w, pat, |u| + p) {
      assert (u + w)[|u| + p..|u| + p + |pat|] == w[p..p + |pat|];
    }
    forall p: nat | |u| <= p <= |u + w| && OccursAt(u + w, pat, p) ensures OccursAt(w, pat, p - |u|) {
      assert w[p - |u|..p - |u| + |pat|] == (u + w)[p..p + |pat|];
    }
  }

  /** Splitting the search at a blocked prefix: `u + w` misses `pat` when `w` does. */
  lemma NotContainsAfterBlocked(u: string, w: string, pat: string)
    requires |pat| >= 3 && Blocked(u, pat) && !Contains(w, pat)
    ensures !Contains(u + w, pat)
  {
    SkipBlocked(u, w, pat);
  }

  lemma BlockedFromChar(u: string, pat: string)
    requires |pat| >= 3 && pat[0] !in u
    ensures Blocked(u, pat)
  {
    forall i | 0 <= i < |u| ensures u[i] != pat[0] {
      assert u[i] in u;
    }
  }

  /** Only the first three characters of a pattern matter to `Blocked`. */
  lemma BlockedExtend(u: string, pat: string, more: string)
    requires |pat| >= 3 && Blocked(u, pat)
    ensures Blocked(u, pat + more)
  {
    var q := pat + more;
    assert q[0] == pat[0] && q[1] == pat[1] && q[2] == pat[2];
    forall i: nat | i < |u| && u[i] == q[0] ensures BlockedAt(u, q, i) {
      assert BlockedAt(u, pat, i);
    }
  }

  // ---------------------------------------------------------------------------
  // Decimal numbers: `${n}` in a template literal, Java's printing of int/long,
  // and `parseInt` of a run of digits

  function DigitChar(d: nat): (c: char)
    requires d < 10
    ensures IsDigit(c)
  {
    ('0' as int + d) as char
  }

  function DigitValue(c: char): (d: nat)
    requires IsDigit(c)
    ensures d < 10 && DigitChar(d) == c
  {
    (c as int - '0' as int) as nat
  }

  /** The decimal rendering of a natural number, without leading zeros. */
  function NatToString(n: nat): (s: string)
    ensures |s| >= 1 && AllDigits(s)
    decreases n
  {
    if n < 10 then [DigitChar(n)] else NatToString(n / 10) + [DigitChar(n % 10)]
  }

  /** The decimal rendering of an integer: a minus sign before the digits when negative. */
  function IntToString(i: int): (s: string)
    ensures i >= 0 ==> s == NatToString(i)
    ensures i < 0 ==> s == "-" + NatToString(-i)
  {
    if i < 0 then "-" + NatToString(-i) else NatToString(i)
  }

  /** The value of a run of decimal digits, as `parseInt` gives it. */
  function DecimalValue(s: string): nat
    requires AllDigits(s)
    decreases |s|
  {
    if s == [] then 0 else DecimalValue(s[..|s| - 1]) * 10 + DigitValue(s[|s| - 1])
  }

  /** Reading back a rendered number gives the number. */
  lemma {:induction false} DecimalOfNatToString(n: nat)
    ensures DecimalValue(NatToString(n)) == n
    decreases n
  {
    var s := NatToString(n);
    if n >= 10 {
      DecimalOfNatToString(n / 10);
      assert s[..|s| - 1] == NatToString(n / 10);
      assert DigitValue(s[|s| - 1]) == n % 10;
    }
  }

  lemma NatToStringInjective(a: nat, b: nat)
    requires NatToString(a) == NatToString(b)
    ensures a == b
  {
    DecimalOfNatToString(a);
    DecimalOfNatToString(b);
  }

  /** A rendered integer holds at most one minus sign, at its head. */
  lemma IntToStringShape(i: int)
    ensures forall k | 0 < k < |IntToString(i)| :: IsDigit(IntToString(i)[k])
    ensures |IntToString(i)| >= 1 && (IsDigit(IntToString(i)[0]) || IntToString(i)[0] == '-')
  {
  }

  // ---------------------------------------------------------------------------
  // `s.split(sep)` and its inverse `parts.join(sep)`

  /** `s.split(sep)` for a one-character separator: the maximal separator-free
      pieces, in order; the empty string splits into one empty piece. */
  function Split(s: string, sep: char): (parts: seq<string>)
    ensures |parts| >= 1
    ensures forall i | 0 <= i < |parts| :: sep !in parts[i]
    decreases |s|
  {
    if s == [] then [""]
    else
      var rest := Split(s[1..], sep);
      if s[0] == sep then [""] + rest else [[s[0]] + rest[0]] + rest[1..]
  }

  /** `parts.join(sep)` */
  function Join(parts: seq<string>, sep: char): string
    decreases |parts|
  {
    if |parts| == 0 then ""
    else if |parts| == 1 then parts[0]
    else parts[0] + [sep] + Join(parts[1..], sep)
  }

  /** Joining the pieces of a split restores the string. */
  lemma {:induction false} JoinSplit(s: string, sep: char)
    ensures Join(Split(s, sep), sep) == s
    decreases |s|
  {
    if s != [] {
      JoinSplit(s[1..], sep);
      var rest := Split(s[1..], sep);
      if s[0] == sep {
        assert [""] + rest == [""] + rest[..];
        assert Join([""] + rest, sep) == "" + [sep] + Join(rest, sep);
      } else if |rest| == 1 {
        assert Split(s, sep) == [[s[0]] + rest[0]];
      } else {
        var parts := Split(s, sep);
        assert parts[1..] == rest[1..];
        assert Join(rest, sep) == rest[0] + [sep] + Join(rest[1..], sep);
      }
    }
  }

  /** Splitting a separator-free string gives it back whole. */
  lemma {:induction false} SplitNoSeparator(l: string, sep: char)
    requires sep !in l
    ensures Split(l, sep) == [l]
    decreases |l|
  {
    if l != [] {
      assert l[0] in l;
      assert forall c | c in l[1..] :: c in l;
      SplitNoSeparator(l[1..], sep);
      assert [l[0]] + l[1..] == l;
    }
  }

  /** A separator-free piece followed by the separator splits off as one piece. */
  lemma {:induction false} SplitCons(l: string, sep: char, rest: string)
    requires sep !in l
    ensures Split(l + [sep] + rest, sep) == [l] + Split(rest, sep)
    decreases |l|
  {
    var s := l + [sep] + rest;
    if l == [] {
      assert s[1..] == rest;
    } else {
      assert l[0] in l;
      assert forall c | c in l[1..] :: c in l;
      assert s[1..] == l[1..] + [sep] + rest;
      SplitCons(l[1..], sep, rest);
      assert [l[0]] + l[1..] == l;
    }
  }

  /** Splitting a join of separator-free pieces gives the pieces back. */
  lemma {:induction false} SplitJoin(parts: seq<string>, sep: char)
    requires |parts| >= 1
    requires forall i | 0 <= i < |parts| :: sep !in parts[i]
    ensures Split(Join(parts, sep), sep) == parts
    decreases |parts|
  {
    if |parts| == 1 {
      SplitNoSeparator(parts[0], sep);
    } else {
      SplitJoin(parts[1..], sep);
      SplitCons(parts[0], sep, Join(parts[1..], sep));
      assert [parts[0]] + parts[1..] == parts;
    }
  }

  // ---------------------------------------------------------------------------
  // Text written line by line

  /** Lines, each followed by a newline: the text of a multi-line template literal,
      and what a run of `println` calls writes. */
  function JoinLines(lines: seq<string>): string
    decreases |lines|
  {
    if lines == [] then "" else JoinLines(lines[..|lines| - 1]) + lines[|lines| - 1] + "\n"
  }

  lemma {:induction false} JoinLinesAppend(a: seq<string>, b: seq<string>)
    ensures JoinLines(a + b) == JoinLines(a) + JoinLines(b)
    decreases |b|
  {
    if b == [] {
      assert a + b == a;
    } else {
      var b' := b[..|b| - 1];
      assert (a + b)[..|a + b| - 1] == a + b';
      assert (a + b)[|a + b| - 1] == b[|b| - 1];
      JoinLinesAppend(a, b');
    }
  }

  /** The text of some lines is the text of those before `i`, those from `i` to `j`,
      and those from `j` on. */
  lemma JoinLinesSlices(lines: seq<string>, i: nat, j: nat)
    requires i <= j <= |lines|
    ensures JoinLines(lines) == JoinLines(lines[..i]) + JoinLines(lines[i..j]) + JoinLines(lines[j..])
  {
    SlicesCover(lines, i, j);
    JoinLinesAppend(lines[..i] + lines[i..j], lines[j..]);
    JoinLinesAppend(lines[..i], lines[i..j]);
  }

  lemma SlicesCover<T>(xs: seq<T>, i: nat, j: nat)
    requires i <= j <= |xs|
    ensures xs == xs[..i] + xs[i..j] + xs[j..]
  {
  }

  /** Writing lines and splitting the text at newlines gives the lines back, and the
      empty piece after the last newline. */
  lemma {:induction false} SplitJoinLines(lines: seq<string>)
    requires forall i | 0 <= i < |lines| :: '\n' !in lines[i]
    ensures Split(JoinLines(lines), '\n') == lines + [""]
  {
    JoinLinesAsJoin(lines);
    SplitJoin(lines + [""], '\n');
  }

  lemma {:induction false} JoinLinesAsJoin(lines: seq<string>)
    ensures JoinLines(lines) == Join(lines + [""], '\n')
    decreases |lines|
  {
    if lines != [] {
      var rest := lines[1..];
      JoinLinesAsJoin(rest);
      assert lines == [lines[0]] + rest;
      JoinLinesAppend([lines[0]], rest);
      assert [lines[0]][..0] == [];
      assert JoinLines([lines[0]]) == lines[0] + "\n";
      assert (lines + [""])[1..] == rest + [""];
    }
  }
}
