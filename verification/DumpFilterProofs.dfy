/** What the dump filter does to every stream, however it is cut into reads. */
module DumpFilterProofs {
  import opened Common
  import opened DumpFilter

  // Lines.

  /** A line feed can only be the last byte. */
  predicate Clean(segment: Bytes) {
    forall i :: 0 <= i < |segment| - 1 ==> segment[i] != '\n'
  }

  lemma {:induction false} SplitAppend(stream: Bytes, segment: Bytes)
    requires Clean(segment)
    ensures var (lines, tail) := Split(stream);
      Split(stream + segment) ==
      if Complete(segment) then (lines + [tail + segment], "") else (lines, tail + segment)
    decreases |segment|
  {
    var (lines, tail) := Split(stream);
    if segment == "" {
      assert stream + segment == stream && tail + segment == tail;
    } else {
      var front, last := segment[..|segment| - 1], segment[|segment| - 1];
      SplitAppend(stream, front);
      assert (stream + segment)[..|stream + segment| - 1] == stream + front;
      assert tail + segment == (tail + front) + [last];
    }
  }

  lemma {:induction false} SplitIsClean(stream: Bytes)
    ensures Clean(Split(stream).1) && !Complete(Split(stream).1)
    ensures forall l :: l in Split(stream).0 ==> Clean(l) && Complete(l)
  {
    if stream != "" {
      var front, b := stream[..|stream| - 1], stream[|stream| - 1];
      var lines, tail := Split(front).0, Split(front).1;
      SplitIsClean(front);
      assert forall i :: 0 <= i < |tail| ==> tail[i] != '\n';
      if b == '\n' {
        assert Clean(tail + [b]) && Complete(tail + [b]);
        assert Split(stream).0 == lines + [tail + [b]];
        assert forall l :: l in lines + [tail + [b]] ==> l in lines || l == tail + [b];
      }
    }
  }

  lemma {:induction false} SplitKeepsBytes(stream: Bytes)
    ensures Concat(Split(stream).0) + Split(stream).1 == stream
  {
    if stream != "" {
      var front, b := stream[..|stream| - 1], stream[|stream| - 1];
      var lines, tail := Split(front).0, Split(front).1;
      SplitKeepsBytes(front);
      Associate(Concat(lines), tail, [b]);
      if b == '\n' {
        assert (lines + [tail + [b]])[..|lines|] == lines;
      }
    }
  }

  lemma {:induction false} ConcatAppend(a: seq<Bytes>, b: seq<Bytes>)
    ensures Concat(a + b) == Concat(a) + Concat(b)
    decreases |b|
  {
    if b == [] {
      assert a + b == a;
    } else {
      var front, last := b[..|b| - 1], b[|b| - 1];
      ConcatAppend(a, front);
      assert (a + b)[..|a + b| - 1] == a + front;
    }
  }

  lemma {:induction false} SegmentsAreClean(chunks: seq<Bytes>)
    ensures Concat(AllSegments(chunks)) == Concat(chunks)
    ensures forall s :: s in AllSegments(chunks) ==> Clean(s)
  {
    if chunks != [] {
      var front, last := chunks[..|chunks| - 1], chunks[|chunks| - 1];
      SegmentsAreClean(front);
      SplitIsClean(last);
      SplitKeepsBytes(last);
      var (lines, tail) := Split(last);
      ConcatAppend(AllSegments(front), Segments(last));
      assert (lines + [tail])[..|lines|] == lines;
    }
  }

  // Filtering the first lines only.

  /** Drop the droppable lines among the first n. */
  function FilterFirst(lines: seq<Bytes>, n: nat): Bytes {
    if lines == [] then ""
    else
      var k := |lines| - 1;
      FilterFirst(lines[..k], n) + if k < n && Droppable(lines[k]) then "" else lines[k]
  }

  function Leading(lines: seq<Bytes>): (h: nat)
    ensures h <= |lines|
    ensures forall i :: 0 <= i < h ==> Preamble(lines[i])
    ensures h < |lines| ==> !Preamble(lines[h])
  {
    if lines == [] || !Preamble(lines[0]) then 0 else 1 + Leading(lines[1..])
  }

  lemma DroppableIsPreamble(line: Bytes)
    ensures Droppable(line) ==> Preamble(line)
  {
    if Droppable(line) {
      assert SETTING <= REJECTED;
    }
  }

  lemma {:induction false} FilterFirstAppend(lines: seq<Bytes>, line: Bytes, n: nat)
    ensures FilterFirst(lines + [line], n) ==
            FilterFirst(lines, n) + if |lines| < n && Droppable(line) then "" else line
  {
    assert (lines + [line])[..|lines|] == lines;
  }

  /** Filtering past the end is filtering everything. */
  lemma {:induction false} FilterFirstAll(lines: seq<Bytes>, n: nat, m: nat)
    requires |lines| <= n && |lines| <= m
    ensures FilterFirst(lines, n) == FilterFirst(lines, m)
  {
    if lines != [] {
      FilterFirstAll(lines[..|lines| - 1], n, m);
    }
  }

  /** Only the droppable lines between two bounds make a difference. */
  lemma {:induction false} FilterFirstSame(lines: seq<Bytes>, n: nat, m: nat)
    requires n <= m
    requires forall j :: n <= j < m && j < |lines| ==> !Droppable(lines[j])
    ensures FilterFirst(lines, n) == FilterFirst(lines, m)
  {
    if lines != [] {
      FilterFirstSame(lines[..|lines| - 1], n, m);
    }
  }

  lemma {:induction false} FilterFirstShrinks(lines: seq<Bytes>, n: nat, m: nat)
    requires n <= m
    ensures |FilterFirst(lines, m)| <= |FilterFirst(lines, n)|
  {
    if lines != [] {
      FilterFirstShrinks(lines[..|lines| - 1], n, m);
    }
  }

  /** One droppable line between the bounds makes the outputs differ. */
  lemma {:induction false} FilterFirstDrops(lines: seq<Bytes>, n: nat, m: nat, j: nat)
    requires n <= j < m && j < |lines| && Droppable(lines[j])
    ensures |FilterFirst(lines, m)| < |FilterFirst(lines, n)|
  {
    var front := lines[..|lines| - 1];
    if j < |front| {
      FilterFirstDrops(front, n, m, j);
    } else {
      FilterFirstShrinks(front, n, m);
      DroppableIsNotEmpty(lines[j]);
    }
  }

  lemma DroppableIsNotEmpty(line: Bytes)
    requires Droppable(line)
    ensures line != ""
  {
    assert Strip("") == "" && |REJECTED| > 0;
  }

  /** Once outside the preamble nothing is dropped. */
  lemma {:induction false} FilterLinesIsConcat(lines: seq<Bytes>)
    ensures FilterLines(lines, false) == Concat(lines)
  {
    if lines != [] {
      FilterLinesIsConcat(lines[1..]);
      ConcatAppend([lines[0]], lines[1..]);
      assert [lines[0]] + lines[1..] == lines;
      assert Concat([lines[0]]) == Concat([lines[0]][..0]) + lines[0];
    }
  }

  lemma {:induction false} FilterFirstSplit(a: seq<Bytes>, b: seq<Bytes>, n: nat)
    requires n >= |a|
    ensures FilterFirst(a + b, n) == FilterFirst(a, n) + FilterFirst(b, n - |a|)
    decreases |b|
  {
    if b == [] {
      assert a + b == a;
    } else {
      var front, last := b[..|b| - 1], b[|b| - 1];
      FilterFirstSplit(a, front, n);
      FilterFirstAppend(a + front, last, n);
      FilterFirstAppend(front, last, n - |a|);
      assert a + b == (a + front) + [last] && b == front + [last];
      Associate(FilterFirst(a, n), FilterFirst(front, n - |a|),
                if |front| < n - |a| && Droppable(last) then "" else last);
    }
  }

  lemma {:induction false} FilterFirstNone(lines: seq<Bytes>)
    ensures FilterFirst(lines, 0) == Concat(lines)
  {
    if lines != [] {
      FilterFirstNone(lines[..|lines| - 1]);
    }
  }

  /** The line-by-line reference drops exactly within the leading preamble. */
  lemma {:induction false} ReferenceFiltersLeading(lines: seq<Bytes>)
    ensures FilterLines(lines, true) == FilterFirst(lines, Leading(lines))
  {
    if lines == [] {
    } else if !Preamble(lines[0]) {
      FilterLinesIsConcat(lines[1..]);
      FilterLinesIsConcat(lines);
      FilterFirstNone(lines);
    } else {
      var first, rest := [lines[0]], lines[1..];
      ReferenceFiltersLeading(rest);
      FilterFirstSplit(first, rest, Leading(lines));
      assert first + rest == lines;
      assert first[..0] == [];
      assert FilterFirst(first, Leading(lines)) == if Droppable(lines[0]) then "" else lines[0];
    }
  }

  // The running filter.

  /** n lines were filtered; the filter then met the end of the preamble or a
      line too long to hold back, or it is still inside the preamble. */
  predicate Tracks(f: Filter, lines: seq<Bytes>, tail: Bytes, n: nat) {
    && n <= |lines|
    && (forall i :: 0 <= i < n ==> Preamble(lines[i]))
    && (f.header ==> n == |lines| && !f.passthrough)
    && (!f.header && n < |lines| ==> !Preamble(lines[n]) || Long(lines[n]))
    && (!f.header && n == |lines| ==> f.passthrough)
    && (if f.passthrough then f.pending == "" && |tail| > LIMIT && !f.header
        else f.pending == tail && |tail| <= LIMIT)
    && f.out == (if f.passthrough then FilterFirst(lines, n) + tail else FilterFirst(lines, n))
  }

  /** The tracked lines stay tracked when another one follows. */
  lemma AppendLine(lines: seq<Bytes>, line: Bytes, n: nat)
    requires n <= |lines| && forall i :: 0 <= i < n ==> Preamble(lines[i])
    ensures forall i :: 0 <= i < n ==> Preamble((lines + [line])[i])
    ensures n < |lines| ==> (lines + [line])[n] == lines[n]
    ensures (lines + [line])[|lines|] == line
    ensures FilterFirst(lines + [line], n) == FilterFirst(lines, n) + line
  {
    FilterFirstAppend(lines, line, n);
  }

  /** The rest of a line too long to hold back. */
  lemma FeedPassing(f: Filter, lines: seq<Bytes>, tail: Bytes, n: nat, segment: Bytes)
    requires Tracks(f, lines, tail, n) && f.passthrough
    ensures if Complete(segment) then Tracks(Feed(f, segment), lines + [tail + segment], "", n)
            else Tracks(Feed(f, segment), lines, tail + segment, n)
  {
    AppendLine(lines, tail + segment, n);
    assert FilterFirst(lines, n) + tail + segment == FilterFirst(lines, n) + (tail + segment);
  }

  /** A held line completed, possibly inside the preamble. */
  lemma FeedLine(f: Filter, lines: seq<Bytes>, tail: Bytes, n: nat, segment: Bytes) returns (m: nat)
    requires Tracks(f, lines, tail, n) && !f.passthrough && Complete(segment)
    ensures Tracks(Feed(f, segment), lines + [tail + segment], "", m)
    ensures m == n || m == n + 1 == |lines| + 1
  {
    var line := tail + segment;
    AppendLine(lines, line, n);
    m := n;
    if f.header && Preamble(line) {
      m := n + 1;
      FilterFirstAppend(lines, line, m);
      FilterFirstAll(lines, n, m);
    }
  }

  /** A line still incomplete: held, or given up when it grows too long. */
  lemma FeedPart(f: Filter, lines: seq<Bytes>, tail: Bytes, n: nat, segment: Bytes)
    requires Tracks(f, lines, tail, n) && !f.passthrough && !Complete(segment)
    ensures Tracks(Feed(f, segment), lines, tail + segment, n)
  {
  }

  lemma FeedTracks(f: Filter, lines: seq<Bytes>, tail: Bytes, n: nat, segment: Bytes) returns (m: nat)
    requires Tracks(f, lines, tail, n)
    ensures Complete(segment) ==> Tracks(Feed(f, segment), lines + [tail + segment], "", m)
    ensures !Complete(segment) ==> Tracks(Feed(f, segment), lines, tail + segment, m)
    ensures m == n || (m == n + 1 == |lines| + 1 && Complete(segment) && |tail| <= LIMIT)
  {
    m := n;
    if f.passthrough {
      FeedPassing(f, lines, tail, n, segment);
    } else if Complete(segment) {
      m := FeedLine(f, lines, tail, n, segment);
    } else {
      FeedPart(f, lines, tail, n, segment);
    }
  }

  predicate NoneLong(lines: seq<Bytes>, n: nat) {
    forall i :: 0 <= i < n && i < |lines| ==> !Long(lines[i])
  }

  /** One more segment, at most one byte long, keeps long lines unfiltered. */
  lemma ShortSegmentKeepsNoneLong(lines: seq<Bytes>, tail: Bytes, n: nat, segment: Bytes, m: nat)
    requires NoneLong(lines, n) && |segment| <= 1 && Complete(segment) && n <= |lines|
    requires m == n || (m == n + 1 == |lines| + 1 && |tail| <= LIMIT)
    ensures NoneLong(lines + [tail + segment], m)
  {
    var longer := lines + [tail + segment];
    forall i | 0 <= i < m ensures !Long(longer[i]) {
      if i < |lines| {
        assert longer[i] == lines[i];
      } else {
        assert longer[i] == tail + segment;
      }
    }
  }

  /** After any segments the filter tracks the stream read so far; fed byte by
      byte it never filters a long line. */
  lemma {:induction false} RunTracks(segments: seq<Bytes>) returns (n: nat)
    requires forall s :: s in segments ==> Clean(s)
    ensures Tracks(Run(segments), Split(Concat(segments)).0, Split(Concat(segments)).1, n)
    ensures (forall s :: s in segments ==> |s| <= 1) ==> NoneLong(Split(Concat(segments)).0, n)
  {
    if segments == [] {
      n := 0;
    } else {
      var front, last := segments[..|segments| - 1], segments[|segments| - 1];
      var k := RunTracks(front);
      var lines, tail := Split(Concat(front)).0, Split(Concat(front)).1;
      SplitIsClean(Concat(front));
      SplitAppend(Concat(front), last);
      n := FeedTracks(Run(front), lines, tail, k, last);
      if forall s :: s in segments ==> |s| <= 1 {
        assert forall s :: s in front ==> s in segments;
        assert last in segments;
        if Complete(last) {
          ShortSegmentKeepsNoneLong(lines, tail, k, last, n);
        }
      }
    }
  }

  lemma LeadingIs(lines: seq<Bytes>, n: nat)
    requires n <= |lines| && (forall i :: 0 <= i < n ==> Preamble(lines[i])) && (n < |lines| ==> !Preamble(lines[n]))
    ensures Leading(lines) == n
  {
  }

  /** What is left when the stream ends is one more line. */
  lemma EndTracks(f: Filter, lines: seq<Bytes>, tail: Bytes, k: nat) returns (n: nat)
    requires Tracks(f, lines, tail, k) && !Complete(tail)
    ensures var all := if tail == "" then lines else lines + [tail];
      && End(f) == FilterFirst(all, n)
      && n <= Leading(all)
      && (n < Leading(all) ==> Long(all[n]))
      && (NoneLong(lines, k) ==> NoneLong(all, n))
  {
    n := k;
    if tail == "" {
      if f.header {
        LeadingIs(lines, k);
      }
    } else {
      var all := lines + [tail];
      AppendLine(lines, tail, k);
      if f.header {
        EndInHeader(f, lines, tail, k);
        n := Leading(all);
      }
      assert forall i :: 0 <= i < |lines| ==> all[i] == lines[i];
    }
    LeadingBounds(lines, tail, k);
  }

  lemma EndInHeader(f: Filter, lines: seq<Bytes>, tail: Bytes, k: nat)
    requires Tracks(f, lines, tail, k) && f.header && tail != ""
    ensures End(f) == FilterFirst(lines + [tail], Leading(lines + [tail]))
    ensures Leading(lines + [tail]) >= |lines|
  {
    var all := lines + [tail];
    AppendLine(lines, tail, k);
    var h := if Preamble(tail) then |all| else |lines|;
    LeadingIs(all, h);
    FilterFirstAppend(lines, tail, h);
    FilterFirstAll(lines, k, h);
    DroppableIsPreamble(tail);
  }

  lemma LeadingBounds(lines: seq<Bytes>, tail: Bytes, k: nat)
    requires k <= |lines| && forall i :: 0 <= i < k ==> Preamble(lines[i])
    ensures k <= Leading(lines) && k <= Leading(lines + [tail])
  {
    assert forall i :: 0 <= i < |lines| ==> (lines + [tail])[i] == lines[i];
  }

  /** For every stream and every way of cutting it: only droppable lines of the
      leading preamble are missing from the output, and all of them up to the
      end of the preamble or to some long line in it. */
  lemma OutputFiltersFirst(chunks: seq<Bytes>) returns (n: nat)
    ensures Output(chunks) == FilterFirst(Lines(Concat(chunks)), n)
    ensures n <= Leading(Lines(Concat(chunks)))
    ensures n < Leading(Lines(Concat(chunks))) ==> Long(Lines(Concat(chunks))[n])
    ensures (forall c :: c in chunks ==> |c| == 1) ==> NoneLong(Lines(Concat(chunks)), n)
  {
    SegmentsAreClean(chunks);
    SplitIsClean(Concat(chunks));
    var k := RunTracks(AllSegments(chunks));
    n := EndTracks(Run(AllSegments(chunks)), Split(Concat(chunks)).0, Split(Concat(chunks)).1, k);
    if forall c :: c in chunks ==> |c| == 1 {
      BytesGiveShortSegments(chunks);
    }
  }

  lemma {:induction false} BytesGiveShortSegments(chunks: seq<Bytes>)
    requires forall c :: c in chunks ==> |c| == 1
    ensures forall s :: s in AllSegments(chunks) ==> |s| <= 1
  {
    if chunks != [] {
      BytesGiveShortSegments(chunks[..|chunks| - 1]);
      var last := chunks[|chunks| - 1];
      assert last[..0] == "";
      assert Split(last[..0]) == ([], "");
      assert forall s :: s in Segments(last) ==> |s| <= 1;
    }
  }

  /** Without a long line in the leading preamble the output is the reference,
      so it does not depend on the cutting. */
  lemma ShortPreambleIsLineByLine(chunks: seq<Bytes>)
    requires var lines := Lines(Concat(chunks));
      forall i :: 0 <= i < Leading(lines) ==> !Long(lines[i])
    ensures Output(chunks) == LineByLine(Concat(chunks))
  {
    var lines := Lines(Concat(chunks));
    var n := OutputFiltersFirst(chunks);
    assert n == Leading(lines);
    ReferenceFiltersLeading(lines);
  }

  /** The guard under which cutting cannot matter: nothing droppable at or
      after a long line of the leading preamble. */
  predicate CutProof(stream: Bytes) {
    var lines := Lines(stream);
    forall i, j :: 0 <= i <= j < Leading(lines) && Long(lines[i]) ==> !Droppable(lines[j])
  }

  function ByteByByte(stream: Bytes): seq<Bytes> {
    if stream == "" then [] else ByteByByte(stream[..|stream| - 1]) + [[stream[|stream| - 1]]]
  }

  lemma {:induction false} ByteByByteIsTheStream(stream: Bytes)
    ensures Concat(ByteByByte(stream)) == stream
  {
    if stream != "" {
      var front, last := stream[..|stream| - 1], stream[|stream| - 1];
      ByteByByteIsTheStream(front);
      ConcatAppend(ByteByByte(front), [[last]]);
      assert [[last]][..0] == [] && Concat([[last]]) == [last];
    }
  }

  lemma {:induction false} BytesAreSingle(stream: Bytes)
    ensures forall c :: c in ByteByByte(stream) ==> |c| == 1
  {
    if stream != "" {
      BytesAreSingle(stream[..|stream| - 1]);
    }
  }

  lemma CutProofSuffices(chunks: seq<Bytes>)
    requires CutProof(Concat(chunks))
    ensures Output(chunks) == LineByLine(Concat(chunks))
  {
    var lines := Lines(Concat(chunks));
    var n := OutputFiltersFirst(chunks);
    ReferenceFiltersLeading(lines);
    FilterFirstSame(lines, n, Leading(lines));
  }

  /** Reading byte by byte keeps a droppable line that follows a long one. */
  lemma CutProofIsNeeded(stream: Bytes)
    requires !CutProof(stream)
    ensures Output(ByteByByte(stream)) != LineByLine(stream)
  {
    var lines := Lines(stream);
    var i, j :| 0 <= i <= j < Leading(lines) && Long(lines[i]) && Droppable(lines[j]);
    ByteByByteIsTheStream(stream);
    BytesAreSingle(stream);
    var n := OutputFiltersFirst(ByteByByte(stream));
    assert n <= i;
    ReferenceFiltersLeading(lines);
    FilterFirstDrops(lines, n, Leading(lines), j);
  }

  /** Exactly when the output of every cutting is the reference. */
  lemma ChunkingIsIrrelevantExactly(stream: Bytes)
    ensures CutProof(stream) <==>
      forall chunks: seq<Bytes> :: Concat(chunks) == stream ==> Output(chunks) == LineByLine(stream)
  {
    if CutProof(stream) {
      forall chunks: seq<Bytes> | Concat(chunks) == stream ensures Output(chunks) == LineByLine(stream) {
        CutProofSuffices(chunks);
      }
    } else {
      CutProofIsNeeded(stream);
      ByteByByteIsTheStream(stream);
      assert Concat(ByteByByte(stream)) == stream;
    }
  }

  const FEED := "\n"

  lemma RejectedIsDroppable()
    ensures Clean(REJECTED + FEED) && Complete(REJECTED + FEED) && Droppable(REJECTED + FEED) && Preamble(REJECTED + FEED)
  {
    var line := REJECTED + FEED;
    assert line[0] == 'S' && line[|line| - 1] == '\n' && line[..|line| - 1] == REJECTED;
    assert REJECTED[|REJECTED| - 1] == ';' && StripRight(REJECTED) == REJECTED;
    assert StripLeft(line) == line && StripRight(line) == REJECTED;
    DroppableIsPreamble(line);
  }

  lemma TwoLines(first: Bytes, second: Bytes)
    requires Clean(first) && Complete(first) && Clean(second) && Complete(second)
    ensures Lines(first + second) == [first, second]
  {
    assert "" + first == first && [] + [first] == [first];
    assert "" + second == second && [first] + [second] == [first, second];
    SplitAppend("", first);
    SplitAppend(first, second);
  }

  lemma LeadingPair(first: Bytes, second: Bytes)
    requires Preamble(first) && Preamble(second)
    ensures Leading([first, second]) == 2
  {
    assert [first, second][1..] == [second] && [second][1..] == [];
  }

  /** Witnesses: after any over-long preamble line, such as a long comment, the
      line that older servers reject is dropped by some ways of cutting only. */
  lemma LongCommentDefeats(comment: Bytes)
    requires Clean(comment) && Complete(comment) && Long(comment) && Preamble(comment)
    ensures !CutProof(comment + (REJECTED + FEED))
    ensures Output(ByteByByte(comment + (REJECTED + FEED))) != LineByLine(comment + (REJECTED + FEED))
  {
    RejectedIsDroppable();
    UnprotectedPair(comment, REJECTED + FEED);
    CutProofIsNeeded(comment + (REJECTED + FEED));
  }

  lemma UnprotectedPair(first: Bytes, second: Bytes)
    requires Clean(first) && Complete(first) && Clean(second) && Complete(second)
    requires Preamble(first) && Preamble(second) && Long(first) && Droppable(second)
    ensures !CutProof(first + second)
  {
    TwoLines(first, second);
    LeadingPair(first, second);
    var lines := Lines(first + second);
    assert Long(lines[0]) && Droppable(lines[1]);
  }

  /** Such comments exist. */
  lemma LongCommentsExist(dashes: Bytes)
    requires |dashes| > LIMIT && forall i :: 0 <= i < |dashes| ==> dashes[i] == '-'
    ensures var comment := dashes + FEED; Clean(comment) && Complete(comment) && Long(comment) && Preamble(comment)
  {
    var comment := dashes + FEED;
    assert comment[..|comment| - 1] == dashes;
    assert StripLeft(comment) == comment && StripRight(dashes) == dashes && StripRight(comment) == dashes;
    assert COMMENT <= dashes;
  }

  // The lines that are dropped.

  predicate AllSpace(s: Bytes) {
    forall i :: 0 <= i < |s| ==> IsSpace(s[i])
  }

  lemma {:induction false} StripLeftSkips(spaces: Bytes, line: Bytes)
    requires AllSpace(spaces) && (line != "" ==> !IsSpace(line[0]))
    ensures StripLeft(spaces + line) == line
  {
    if spaces == "" {
      assert spaces + line == line;
    } else {
      assert (spaces + line)[1..] == spaces[1..] + line;
      StripLeftSkips(spaces[1..], line);
    }
  }

  lemma {:induction false} StripRightSkips(line: Bytes, spaces: Bytes)
    requires AllSpace(spaces) && (line != "" ==> !IsSpace(line[|line| - 1]))
    ensures StripRight(line + spaces) == line
  {
    if spaces == "" {
      assert line + spaces == line;
    } else {
      var n := |spaces| - 1;
      assert (line + spaces)[..|line + spaces| - 1] == line + spaces[..n];
      StripRightSkips(line, spaces[..n]);
    }
  }

  lemma {:induction false} StripLeftRemoves(line: Bytes) returns (spaces: Bytes)
    ensures AllSpace(spaces) && line == spaces + StripLeft(line)
    ensures StripLeft(line) != "" ==> !IsSpace(StripLeft(line)[0])
  {
    spaces := "";
    if line != "" && IsSpace(line[0]) {
      var later := StripLeftRemoves(line[1..]);
      spaces := [line[0]] + later;
    }
  }

  lemma {:induction false} StripRightRemoves(line: Bytes) returns (spaces: Bytes)
    ensures AllSpace(spaces) && line == StripRight(line) + spaces
  {
    spaces := "";
    if line != "" && IsSpace(line[|line| - 1]) {
      var earlier := StripRightRemoves(line[..|line| - 1]);
      spaces := earlier + [line[|line| - 1]];
      assert line == line[..|line| - 1] + [line[|line| - 1]];
    }
  }

  /** Dropped are exactly the lines that hold the rejected setting and, around it,
      nothing but white space. */
  lemma DroppableExactly(line: Bytes)
    ensures Droppable(line) <==>
      exists left, right :: AllSpace(left) && AllSpace(right) && line == left + REJECTED + right
  {
    if Droppable(line) {
      var left := StripLeftRemoves(line);
      var right := StripRightRemoves(StripLeft(line));
      assert left + (REJECTED + right) == left + REJECTED + right;
    }
    if left, right :| AllSpace(left) && AllSpace(right) && line == left + REJECTED + right {
      assert line == left + (REJECTED + right);
      StripLeftSkips(left, REJECTED + right);
      StripRightSkips(REJECTED, right);
    }
  }
}
