/** The standard output of a harness run, seen from the parser: some opening lines,
    then one block per test case that printed anything, then some closing lines.
    A block is a header line (possibly preceded on the same line by progress marks),
    the lines reporting the case, and optionally a closing line that ends the block.
    Whatever the order of the blocks, the parser reads each case's record from that
    case's own block, and the default record for a case that printed nothing. */
module Transcript {
  import opened Text
  import opened Records
  import opened OutputParser
  import opened ParserProperties

  /** What one test case contributed to the output. */
  datatype Block =
    | Printed(mark: string, id: nat, body: seq<string>, closer: seq<string>)
    | Silent

  /** The lines of a block; the header line carries the line ending `s`. */
  function BlockLines(m: Markers, b: Block, s: string): seq<string>
  {
    match b
    case Printed(mark, id, body, closer) => [mark + HeaderMarker(m, id) + s] + body + closer
    case Silent => []
  }

  function Flat(m: Markers, bs: seq<Block>, s: string): seq<string>
    decreases |bs|
  {
    if bs == [] then [] else BlockLines(m, bs[0], s) + Flat(m, bs[1..], s)
  }

  /** The progress marks before a header cannot start a header; no report line
      ends the block early; the closing lines hold no case token, and the first of
      them ends the block. */
  predicate WellFormed(m: Markers, b: Block)
  {
    b.Printed? ==>
      m.headerPrefix != [] && m.headerPrefix[0] !in b.mark &&
      (forall i | 0 <= i < |b.body| :: !IsStop(m, b.body[i])) &&
      (forall i | 0 <= i < |b.closer| :: !Contains(b.closer[i], m.caseToken)) &&
      (b.closer == [] || IsStop(m, b.closer[0]))
  }

  /** No two blocks report the same case. */
  predicate DistinctIds(bs: seq<Block>)
  {
    forall i, j | 0 <= i < |bs| && 0 <= j < |bs| && i != j && bs[i].Printed? && bs[j].Printed? ::
      bs[i].id != bs[j].id
  }

  /** No block reports case `k`. */
  predicate Unreported(bs: seq<Block>, k: nat)
  {
    forall i | 0 <= i < |bs| :: bs[i].Printed? ==> bs[i].id != k
  }

  /** Lines that are not part of any block. */
  predicate Unlabelled(m: Markers, ls: seq<string>)
  {
    forall i | 0 <= i < |ls| :: !Contains(ls[i], m.caseToken)
  }

  /** The output the parser sees, as its lines. */
  function Output(m: Markers, lead: seq<string>, bs: seq<Block>, trail: seq<string>, s: string): seq<string>
  {
    lead + Flat(m, bs, s) + trail
  }

  /** The conditions under which every case reads back from its own block. */
  predicate Readable(m: Markers, lead: seq<string>, bs: seq<Block>, trail: seq<string>, s: string)
  {
    ValidMarkers(m) && LineEnding(s) && Unlabelled(m, lead) && Unlabelled(m, trail) &&
    (forall i | 0 <= i < |trail| :: Quiet(m, trail[i])) &&
    (forall i | 0 <= i < |bs| :: WellFormed(m, bs[i])) &&
    DistinctIds(bs)
  }

  // ---------------------------------------------------------------------------
  // Reading back

  /** Each case that printed a block gets the record its report lines build. */
  lemma ReadBack(m: Markers, lead: seq<string>, bs: seq<Block>, trail: seq<string>, s: string, j: nat)
    requires Readable(m, lead, bs, trail, s)
    requires j < |bs| && bs[j].Printed?
    ensures ParseCase(m, Output(m, lead, bs, trail, s), bs[j].id) == Fold(m, Default, bs[j].body)
  {
    var next := Flat(m, bs[j + 1..], s);
    var before := lead + Flat(m, bs[..j], s);
    BeforeLacks(m, lead, bs, s, j);
    var after := bs[j + 1..];
    assert forall i | 0 <= i < |after| :: after[i] == bs[j + 1 + i];
    FlatHead(m, after, s);
    ReadBlock(m, before, bs[j], next, trail, s);
    OutputAt(m, lead, bs, trail, s, j);
  }

  /** `ReadBack` for a block already known to report case `k` with record `x`. */
  lemma ReadBackAs(m: Markers, lead: seq<string>, bs: seq<Block>, trail: seq<string>, s: string, j: nat,
                   k: nat, x: ExecutionResult)
    requires Readable(m, lead, bs, trail, s)
    requires j < |bs| && bs[j].Printed? && bs[j].id == k && Fold(m, Default, bs[j].body) == x
    ensures ParseCase(m, Output(m, lead, bs, trail, s), k) == x
  {
    ReadBack(m, lead, bs, trail, s, j);
  }

  /** A block between lines without its header and a stop line, or lines without
      labels, reads back as its report lines. */
  lemma ReadBlock(m: Markers, before: seq<string>, b: Block, next: seq<string>, trail: seq<string>, s: string)
    requires ValidMarkers(m) && LineEnding(s) && WellFormed(m, b) && b.Printed?
    requires forall i | 0 <= i < |before| :: !Contains(before[i], HeaderMarker(m, b.id))
    requires next == [] || IsStop(m, next[0])
    requires forall i | 0 <= i < |trail| :: Quiet(m, trail[i])
    ensures ParseCase(m, before + BlockLines(m, b, s) + (next + trail), b.id) == Fold(m, Default, b.body)
  {
    var hdr := b.mark + HeaderMarker(m, b.id) + s;
    HeaderLine(m, b.mark, b.id, b.id, s);
    assert BlockLines(m, b, s) == [hdr] + b.body + b.closer;
    if b.closer != [] {
      assert before + BlockLines(m, b, s) + (next + trail) == before + [hdr] + (b.body + (b.closer + (next + trail)));
      EndsAfterBody(m, before, hdr, b.body, b.closer + (next + trail), b.id);
    } else if next != [] {
      assert before + BlockLines(m, b, s) + (next + trail) == before + [hdr] + (b.body + (next + trail));
      EndsAfterBody(m, before, hdr, b.body, next + trail, b.id);
    } else {
      assert before + BlockLines(m, b, s) + (next + trail) == before + [hdr] + (b.body + trail);
      EndsInQuiet(m, before, hdr, b.body, trail, b.id);
    }
  }

  /** A case that printed nothing gets the default record. */
  lemma ReadAbsent(m: Markers, lead: seq<string>, bs: seq<Block>, trail: seq<string>, s: string, k: nat)
    requires Readable(m, lead, bs, trail, s) && Unreported(bs, k)
    ensures ParseCase(m, Output(m, lead, bs, trail, s), k) == Default
  {
    var lines := Output(m, lead, bs, trail, s);
    var flat := Flat(m, bs, s);
    FlatLacks(m, bs, s, k);
    forall i | 0 <= i < |lines| ensures !Contains(lines[i], HeaderMarker(m, k)) {
      if i < |lead| {
        assert lines[i] == lead[i];
        NoTokenNoHeader(m, lead[i], k);
      } else if i < |lead| + |flat| {
        assert lines[i] == flat[i - |lead|];
      } else {
        assert lines[i] == trail[i - |lead| - |flat|];
        NoTokenNoHeader(m, trail[i - |lead| - |flat|], k);
      }
    }
  }

  /** The scan after a header stops right after stop-free report lines when a stop
      line (or the end of the text) follows them. */
  lemma EndsAfterBody(m: Markers, before: seq<string>, hdr: string, body: seq<string>, rest: seq<string>, k: nat)
    requires forall i | 0 <= i < |before| :: !Contains(before[i], HeaderMarker(m, k))
    requires Contains(hdr, HeaderMarker(m, k))
    requires forall i | 0 <= i < |body| :: !IsStop(m, body[i])
    requires rest == [] || IsStop(m, rest[0])
    ensures ParseCase(m, before + [hdr] + (body + rest), k) == Fold(m, Default, body)
  {
    WindowLocality(m, before, hdr, body + rest, k);
    BlockEndAfterBody(m, body, rest, 0);
    assert (body + rest)[..|body|] == body;
  }

  /** Lines without labels after the report lines change nothing. */
  lemma EndsInQuiet(m: Markers, before: seq<string>, hdr: string, body: seq<string>, trail: seq<string>, k: nat)
    requires forall i | 0 <= i < |before| :: !Contains(before[i], HeaderMarker(m, k))
    requires Contains(hdr, HeaderMarker(m, k))
    requires forall i | 0 <= i < |body| :: !IsStop(m, body[i])
    requires forall i | 0 <= i < |trail| :: Quiet(m, trail[i])
    ensures ParseCase(m, before + [hdr] + (body + trail), k) == Fold(m, Default, body)
  {
    WindowLocality(m, before, hdr, body + trail, k);
    QuietTail(m, body, trail);
  }

  lemma QuietTail(m: Markers, body: seq<string>, trail: seq<string>)
    requires forall i | 0 <= i < |body| :: !IsStop(m, body[i])
    requires forall i | 0 <= i < |trail| :: Quiet(m, trail[i])
    ensures Fold(m, Default, (body + trail)[..BlockEnd(m, body + trail, 0)]) == Fold(m, Default, body)
  {
    var e := BlockEnd(m, trail, 0);
    BlockEndPastBody(m, body, trail, 0);
    var quiet := trail[..e];
    assert (body + trail)[..|body| + e] == body + quiet;
    FoldConcat(m, Default, body, quiet);
    assert forall i | 0 <= i < |quiet| :: quiet[i] == trail[i];
    FoldQuiet(m, Fold(m, Default, body), quiet);
  }

  lemma {:induction false} BlockEndPastBody(m: Markers, body: seq<string>, rest: seq<string>, j: nat)
    requires j <= |body|
    requires forall i | 0 <= i < |body| :: !IsStop(m, body[i])
    ensures BlockEnd(m, body + rest, j) == |body| + BlockEnd(m, rest, 0)
    decreases |body| - j
  {
    if j < |body| {
      assert (body + rest)[j] == body[j];
      BlockEndPastBody(m, body, rest, j + 1);
    } else {
      BlockEndShift(m, body, rest, 0);
    }
  }

  // ---------------------------------------------------------------------------
  // Header lines

  /** A header line, with progress marks before it, holds the header of its own
      case and of no other, and ends the block before it. */
  lemma HeaderLine(m: Markers, mark: string, id: nat, k: nat, s: string)
    requires ValidMarkers(m) && LineEnding(s) && m.headerPrefix[0] !in mark
    ensures Contains(mark + HeaderMarker(m, id) + s, HeaderMarker(m, k)) <==> id == k
    ensures IsStop(m, mark + HeaderMarker(m, id) + s)
  {
    var h := HeaderMarker(m, id);
    var line := mark + h + s;
    assert line == mark + (h + s);
    if id == k {
      ContainsMiddle(mark, h, s);
    } else {
      var hk := HeaderMarker(m, k);
      assert hk[0] == m.headerPrefix[0];
      HeaderDistinct(m, id, k, s);
      BlockedFromChar(mark, hk);
      NotContainsAfterBlocked(mark, h + s, hk);
    }
    HeaderIsStop(m, id, s);
    assert (h + s)[..|m.caseToken|] == m.caseToken;
    assert line[|mark|..|mark| + |m.caseToken|] == m.caseToken;
    ContainsAt(line, m.caseToken, |mark|);
  }

  /** The lines before block `j` hold no header of its case. */
  lemma BeforeLacks(m: Markers, lead: seq<string>, bs: seq<Block>, s: string, j: nat)
    requires ValidMarkers(m) && LineEnding(s) && Unlabelled(m, lead)
    requires forall i | 0 <= i < |bs| :: WellFormed(m, bs[i])
    requires DistinctIds(bs) && j < |bs| && bs[j].Printed?
    ensures forall i | 0 <= i < |lead + Flat(m, bs[..j], s)| ::
      !Contains((lead + Flat(m, bs[..j], s))[i], HeaderMarker(m, bs[j].id))
  {
    var k := bs[j].id;
    var pre := bs[..j];
    var flat := Flat(m, pre, s);
    var before := lead + flat;
    assert forall i | 0 <= i < |pre| :: pre[i] == bs[i];
    FlatLacks(m, pre, s, k);
    forall i | 0 <= i < |before| ensures !Contains(before[i], HeaderMarker(m, k)) {
      if i < |lead| {
        assert before[i] == lead[i];
        NoTokenNoHeader(m, lead[i], k);
      } else {
        assert before[i] == flat[i - |lead|];
      }
    }
  }

  /** Blocks that do not report case `k` hold no header of it. */
  lemma {:induction false} FlatLacks(m: Markers, bs: seq<Block>, s: string, k: nat)
    requires ValidMarkers(m) && LineEnding(s)
    requires forall i | 0 <= i < |bs| :: WellFormed(m, bs[i])
    requires Unreported(bs, k)
    ensures forall i | 0 <= i < |Flat(m, bs, s)| :: !Contains(Flat(m, bs, s)[i], HeaderMarker(m, k))
    decreases |bs|
  {
    if bs != [] {
      var tail := bs[1..];
      assert forall i | 0 <= i < |tail| :: tail[i] == bs[i + 1];
      FlatLacks(m, tail, s, k);
      BlockLacks(m, bs[0], s, k);
      LacksJoin(BlockLines(m, bs[0], s), Flat(m, tail, s), HeaderMarker(m, k));
    }
  }

  lemma LacksJoin(a: seq<string>, b: seq<string>, h: string)
    requires forall i | 0 <= i < |a| :: !Contains(a[i], h)
    requires forall i | 0 <= i < |b| :: !Contains(b[i], h)
    ensures forall i | 0 <= i < |a + b| :: !Contains((a + b)[i], h)
  {
    forall i | 0 <= i < |a + b| ensures !Contains((a + b)[i], h) {
      if i >= |a| {
        assert (a + b)[i] == b[i - |a|];
      }
    }
  }

  lemma BlockLacks(m: Markers, b: Block, s: string, k: nat)
    requires ValidMarkers(m) && LineEnding(s) && WellFormed(m, b)
    requires b.Printed? ==> b.id != k
    ensures forall i | 0 <= i < |BlockLines(m, b, s)| :: !Contains(BlockLines(m, b, s)[i], HeaderMarker(m, k))
  {
    if b.Printed? {
      var lines := BlockLines(m, b, s);
      HeaderLine(m, b.mark, b.id, k, s);
      forall i | 0 <= i < |lines| ensures !Contains(lines[i], HeaderMarker(m, k)) {
        if 0 < i <= |b.body| {
          assert lines[i] == b.body[i - 1];
          NoTokenNoHeader(m, b.body[i - 1], k);
        } else if i > |b.body| {
          assert lines[i] == b.closer[i - 1 - |b.body|];
          NoTokenNoHeader(m, b.closer[i - 1 - |b.body|], k);
        }
      }
    }
  }

  /** Printed blocks start with their header line, which ends any block before. */
  lemma {:induction false} FlatHead(m: Markers, bs: seq<Block>, s: string)
    requires ValidMarkers(m) && LineEnding(s)
    requires forall i | 0 <= i < |bs| :: WellFormed(m, bs[i])
    ensures Flat(m, bs, s) == [] || IsStop(m, Flat(m, bs, s)[0])
    decreases |bs|
  {
    if bs != [] {
      var tail := bs[1..];
      assert forall i | 0 <= i < |tail| :: tail[i] == bs[i + 1];
      FlatHead(m, tail, s);
      var b := bs[0];
      if b.Printed? {
        HeaderLine(m, b.mark, b.id, b.id, s);
      }
    }
  }

  // ---------------------------------------------------------------------------
  // The shape of the output

  lemma DropFirst<T>(a: seq<T>, b: seq<T>)
    requires a != []
    ensures (a + b)[0] == a[0] && (a + b)[1..] == a[1..] + b
  {
  }

  lemma {:induction false} FlatAppend(m: Markers, a: seq<Block>, b: seq<Block>, s: string)
    ensures Flat(m, a + b, s) == Flat(m, a, s) + Flat(m, b, s)
    decreases |a|
  {
    if a == [] {
      assert a + b == b;
    } else {
      DropFirst(a, b);
      FlatAppend(m, a[1..], b, s);
    }
  }

  lemma OutputAt(m: Markers, lead: seq<string>, bs: seq<Block>, trail: seq<string>, s: string, j: nat)
    requires j < |bs|
    ensures Output(m, lead, bs, trail, s) ==
      lead + Flat(m, bs[..j], s) + BlockLines(m, bs[j], s) + (Flat(m, bs[j + 1..], s) + trail)
  {
    SplitAt(m, bs, j, s);
  }

  /** The lines of block `j` sit between those of the blocks before and after it. */
  lemma SplitAt(m: Markers, bs: seq<Block>, j: nat, s: string)
    requires j < |bs|
    ensures Flat(m, bs, s) == Flat(m, bs[..j], s) + BlockLines(m, bs[j], s) + Flat(m, bs[j + 1..], s)
  {
    var rest := [bs[j]] + bs[j + 1..];
    assert bs == bs[..j] + rest;
    FlatAppend(m, bs[..j], rest, s);
    DropFirst([bs[j]], bs[j + 1..]);
    var mid := BlockLines(m, bs[j], s);
    assert Flat(m, rest, s) == mid + Flat(m, bs[j + 1..], s);
    Associate(Flat(m, bs[..j], s), mid, Flat(m, bs[j + 1..], s));
  }

  lemma Associate<T>(a: seq<T>, b: seq<T>, c: seq<T>)
    ensures a + (b + c) == a + b + c
  {
  }

  /** The empty piece after the last newline holds nothing. */
  lemma EndLines(m: Markers, trail: seq<string>)
    requires |m.caseToken| >= 1 && |m.outputLabel| >= 1 && |m.timeLabel| >= 1 && |m.passedLabel| >= 1
    requires Unlabelled(m, trail) && forall i | 0 <= i < |trail| :: Quiet(m, trail[i])
    ensures Unlabelled(m, trail + [""]) && forall i | 0 <= i < |trail + [""]| :: Quiet(m, (trail + [""])[i])
  {
    var closing := trail + [""];
    forall i | 0 <= i < |closing| ensures !Contains(closing[i], m.caseToken) && Quiet(m, closing[i]) {
      if i < |trail| {
        assert closing[i] == trail[i];
      }
    }
  }

  // ---------------------------------------------------------------------------
  // The text written by `println`

  /** No line of the block holds a newline of its own. */
  predicate Printable(b: Block)
  {
    b.Printed? ==>
      '\n' !in b.mark &&
      (forall i | 0 <= i < |b.body| :: '\n' !in b.body[i]) &&
      (forall i | 0 <= i < |b.closer| :: '\n' !in b.closer[i])
  }

  predicate OneLineEach(ls: seq<string>)
  {
    forall i | 0 <= i < |ls| :: '\n' !in ls[i]
  }

  lemma {:induction false} FlatOneLineEach(m: Markers, bs: seq<Block>, s: string)
    requires '\n' !in m.headerPrefix && LineEnding(s)
    requires forall i | 0 <= i < |bs| :: Printable(bs[i])
    ensures OneLineEach(Flat(m, bs, s))
    decreases |bs|
  {
    if bs != [] {
      var tail := bs[1..];
      assert forall i | 0 <= i < |tail| :: tail[i] == bs[i + 1];
      FlatOneLineEach(m, tail, s);
      BlockOneLineEach(m, bs[0], s);
    }
  }

  lemma BlockOneLineEach(m: Markers, b: Block, s: string)
    requires '\n' !in m.headerPrefix && LineEnding(s) && Printable(b)
    ensures OneLineEach(BlockLines(m, b, s))
  {
    if b.Printed? {
      var d := NatToString(b.id);
      assert forall i | 0 <= i < |d| :: d[i] != '\n';
      var lines := BlockLines(m, b, s);
      forall i | 0 <= i < |lines| ensures '\n' !in lines[i] {
        if 0 < i <= |b.body| {
          assert lines[i] == b.body[i - 1];
        } else if i > |b.body| {
          assert lines[i] == b.closer[i - 1 - |b.body|];
        }
      }
    }
  }

  /** What the parser splits the printed text into: the printed lines, and the empty
      piece after the last newline, which joins the closing lines. */
  lemma PrintedLines(m: Markers, lead: seq<string>, bs: seq<Block>, trail: seq<string>, s: string)
    requires '\n' !in m.headerPrefix && LineEnding(s) && OneLineEach(lead) && OneLineEach(trail)
    requires forall i | 0 <= i < |bs| :: Printable(bs[i])
    ensures Split(JoinLines(Output(m, lead, bs, trail, s)), '\n') == Output(m, lead, bs, trail + [""], s)
  {
    var flat := Flat(m, bs, s);
    var lines := lead + flat + trail;
    FlatOneLineEach(m, bs, s);
    forall i | 0 <= i < |lines| ensures '\n' !in lines[i] {
      if i < |lead| {
        assert lines[i] == lead[i];
      } else if i < |lead| + |flat| {
        assert lines[i] == flat[i - |lead|];
      } else {
        assert lines[i] == trail[i - |lead| - |flat|];
      }
    }
    SplitJoinLines(lines);
    assert lines + [""] == lead + flat + (trail + [""]);
  }
}
