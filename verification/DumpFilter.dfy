/** The streaming filter over pg_dump output in bot/scheduler/backup.py. A byte
    is a character below 256. */
module DumpFilter {

  type Bytes = string
  const LIMIT := 256

  predicate IsSpace(b: char) {
    b == ' ' || b == '\t' || b == '\n' || b == '\r' || b == '\U{b}' || b == '\U{c}'
  }

  function StripLeft(line: Bytes): Bytes {
    if line != "" && IsSpace(line[0]) then StripLeft(line[1..]) else line
  }

  function StripRight(line: Bytes): Bytes {
    if line != "" && IsSpace(line[|line| - 1]) then StripRight(line[..|line| - 1]) else line
  }

  function Strip(line: Bytes): Bytes {
    StripRight(StripLeft(line))
  }

  const COMMENT := "--"
  const SETTING := "SET "
  const SET_CONFIG := "SELECT pg_catalog.set_config("
  const RESTRICT := "\\restrict "
  const REJECTED := "SET transaction_timeout = 0;"

  /** `_is_dump_preamble` */
  predicate Preamble(line: Bytes) {
    var value := Strip(line);
    value == "" || COMMENT <= value || SETTING <= value || SET_CONFIG <= value || RESTRICT <= value
  }

  /** The negation of `_is_portable_dump_line`. */
  predicate Droppable(line: Bytes) {
    Strip(line) == REJECTED
  }

  predicate Complete(line: Bytes) {
    line != "" && line[|line| - 1] == '\n'
  }

  /** More content than the filter is willing to hold back. */
  predicate Long(line: Bytes) {
    |line| > if Complete(line) then LIMIT + 1 else LIMIT
  }

  function Concat(parts: seq<Bytes>): Bytes {
    if parts == [] then "" else Concat(parts[..|parts| - 1]) + parts[|parts| - 1]
  }

  // The stream as lines.

  /** The complete lines of a stream and what follows them. */
  function Split(stream: Bytes): (seq<Bytes>, Bytes) {
    if stream == "" then ([], "")
    else
      var (lines, tail) := Split(stream[..|stream| - 1]);
      var b := stream[|stream| - 1];
      if b == '\n' then (lines + [tail + [b]], "") else (lines, tail + [b])
  }

  function Lines(stream: Bytes): seq<Bytes> {
    var (lines, tail) := Split(stream);
    if tail == "" then lines else lines + [tail]
  }

  /** The reference: inside the leading preamble drop the lines older servers
      reject, and copy everything from the first other line on. */
  function FilterLines(lines: seq<Bytes>, header: bool): Bytes {
    if lines == [] then ""
    else
      var stillHeader := header && Preamble(lines[0]);
      (if stillHeader && Droppable(lines[0]) then "" else lines[0]) + FilterLines(lines[1..], stillHeader)
  }

  function LineByLine(stream: Bytes): Bytes {
    FilterLines(Lines(stream), true)
  }

  // The filter itself.

  datatype Filter = Filter(pending: Bytes, passthrough: bool, header: bool, out: Bytes)

  const BEGIN := Filter("", false, true, "")

  /** One segment: the rest of a line, or as much of it as this read had. */
  function Feed(f: Filter, segment: Bytes): Filter {
    if f.passthrough then f.(out := f.out + segment, passthrough := !Complete(segment))
    else
      var pending := f.pending + segment;
      if Complete(segment) || |pending| > LIMIT then
        var header := f.header && Complete(segment) && Preamble(pending);
        Filter("", !Complete(segment), header,
               if header && Droppable(pending) then f.out else f.out + pending)
      else f.(pending := pending)
  }

  function Run(segments: seq<Bytes>): Filter {
    if segments == [] then BEGIN else Feed(Run(segments[..|segments| - 1]), segments[|segments| - 1])
  }

  function End(f: Filter): Bytes {
    if f.pending != "" && !(f.header && Droppable(f.pending)) then f.out + f.pending else f.out
  }

  /** `chunk.split(b"\n")` with the line feeds put back. */
  function Segments(chunk: Bytes): seq<Bytes> {
    var (lines, tail) := Split(chunk);
    lines + [tail]
  }

  function AllSegments(chunks: seq<Bytes>): seq<Bytes> {
    if chunks == [] then [] else AllSegments(chunks[..|chunks| - 1]) + Segments(chunks[|chunks| - 1])
  }

  function Output(chunks: seq<Bytes>): Bytes {
    End(Run(AllSegments(chunks)))
  }

  /** `_copy_portable_dump`: `held` is the most it kept between two reads. */
  method CopyPortableDump(chunks: seq<Bytes>) returns (written: Bytes, held: nat)
    ensures written == Output(chunks)
    ensures held <= LIMIT
  {
    var f := BEGIN;
    held := 0;
    for i := 0 to |chunks|
      invariant f == Run(AllSegments(chunks[..i]))
      invariant |f.pending| <= LIMIT && held <= LIMIT
    {
      var segments := Segments(chunks[i]);
      ghost var before := AllSegments(chunks[..i]);
      assert before + segments[..0] == before;
      for k := 0 to |segments|
        invariant f == Run(before + segments[..k])
        invariant |f.pending| <= LIMIT
      {
        assert before + segments[..k + 1] == (before + segments[..k]) + [segments[k]];
        RunStep(before + segments[..k], segments[k]);
        f := FeedInPlace(f, segments[k]);
      }
      assert segments[..|segments|] == segments;
      assert chunks[..i + 1][..i] == chunks[..i];
      if held < |f.pending| {
        held := |f.pending|;
      }
    }
    assert chunks[..|chunks|] == chunks;
    written := f.out;
    if f.pending != "" && (!f.header || !Droppable(f.pending)) {
      written := written + f.pending;
    }
  }

  /** The loop body over one segment. */
  method FeedInPlace(f: Filter, segment: Bytes) returns (g: Filter)
    ensures g == Feed(f, segment)
    ensures |f.pending| <= LIMIT ==> |g.pending| <= LIMIT
  {
    var complete := Complete(segment);
    var pending, passthrough, header, written := f.pending, f.passthrough, f.header, f.out;
    if passthrough {
      written := written + segment;
    } else {
      pending := pending + segment;
      if complete || |pending| > LIMIT {
        if !complete || !Preamble(pending) {
          header := false;
        }
        if !header || !Droppable(pending) {
          written := written + pending;
        }
        pending := "";
        passthrough := !complete;
      }
    }
    if complete {
      passthrough := false;
    }
    g := Filter(pending, passthrough, header, written);
  }

  lemma RunStep(segments: seq<Bytes>, segment: Bytes)
    ensures Run(segments + [segment]) == Feed(Run(segments), segment)
  {
    assert (segments + [segment])[..|segments|] == segments;
  }
}
