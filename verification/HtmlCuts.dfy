/** Where the HTML splitter ends a message: only when the next token does not
    fit, and inside a text as late as possible, at a space or line break. */
module HtmlCuts {
  import opened Outcomes
  import opened Formatters
  import opened FormatterProofs

  predicate IsBreak(c: char) {
    c == '\n' || c == ' '
  }

  lemma {:induction false} LastBreakIsLast(raw: string, cut: nat)
    requires cut <= |raw|
    ensures LastBreak(raw, cut) >= 0 ==> IsBreak(raw[LastBreak(raw, cut)])
    ensures forall i :: LastBreak(raw, cut) < i < cut ==> !IsBreak(raw[i])
  {
    if cut > 0 && !IsBreak(raw[cut - 1]) {
      LastBreakIsLast(raw, cut - 1);
    }
  }

  /** A token that fits joins the current message; one that does not fit ends it. */
  lemma MessageEndsExactly(c: Chunks, maxLen: int, t: Token)
    requires t.raw != "" && Add(c, maxLen, t).Some?
    ensures var after := Add(c, maxLen, t).value;
      && (|t.raw| <= Available(c, maxLen) ==> after.done == c.done && after.current == c.current + [t])
      && (|t.raw| > Available(c, maxLen) && c.current != [] ==> |after.done| > |c.done|)
  {
    if !(t.Open? || t.Close?) {
      AddTextGrows(c, maxLen, t, Indivisible(t.raw));
    }
  }

  lemma {:induction false} AddTextGrows(c: Chunks, maxLen: int, t: Token, whole: bool)
    requires t.raw != "" && AddText(c, maxLen, t, whole).Some?
    ensures |AddText(c, maxLen, t, whole).value.done| >= |c.done|
    ensures |t.raw| > Available(c, maxLen) && c.current != [] ==> |AddText(c, maxLen, t, whole).value.done| > |c.done|
    decreases |t.raw|, if Available(c, maxLen) <= 0 then 1 else 0
  {
    if |t.raw| > Available(c, maxLen) && !whole {
      if Available(c, maxLen) <= 0 {
        AddTextGrows(Flush(c), maxLen, t, whole);
      } else {
        var cut := Cut(t.raw, Available(c, maxLen));
        AddTextGrows(Flush(c.(current := c.current + [Text(t.raw[..cut])])), maxLen, Text(t.raw[cut..]), whole);
      }
    }
  }

  predicate Unbroken(text: string) {
    forall c :: c in text ==> !IsBreak(c)
  }

  /** A part of a text, with what follows it and the room left in its message, is
      cut as late as possible: right after a break, when the next one comes too
      late, or else, when it holds no break but at its start, at the limit. */
  predicate CutLate(part: string, rest: string, room: int) {
    && part != "" && 0 <= room < |rest| && Unbroken(rest[..room])
    && (IsBreak(part[|part| - 1]) || (room == 0 && Unbroken(part[1..])))
  }

  lemma CutIsLate(raw: string, available: int)
    requires 0 < available < |raw|
    ensures CutLate(raw[..Cut(raw, available)], raw[Cut(raw, available)..], available - Cut(raw, available))
  {
    LastBreakIsLast(raw, available);
  }

  /** A finished message that ends in a part of a text. */
  predicate EndsInText(chunk: Tokens, begin: Tokens, part: string, stack: Stack) {
    chunk == begin + [Text(part)] + ClosingTags(stack)
  }

  lemma SizeOfEnd(chunk: Tokens, begin: Tokens, part: string, stack: Stack)
    requires EndsInText(chunk, begin, part, stack)
    ensures Size(chunk) == Size(begin) + |part| + Size(ClosingTags(stack))
  {
    SizeAppend(begin + [Text(part)], ClosingTags(stack));
    SizeAppend(begin, [Text(part)]);
    SizeOfOne(Text(part));
  }

  /** How a message finished while a text was added divides the text. */
  datatype Division = Division(begin: Tokens, before: string, part: string, rest: string)

  /** A message finished while a text was added to `c`: it ends before the text,
      without room for it, or in a part of the text that is cut late; only the
      first of them begins as `c` did, the others with the open tags. */
  predicate EndsWell(c: Chunks, maxLen: int, raw: string, chunk: Tokens, d: Division) {
    || (Available(c, maxLen) <= 0 && chunk == c.current + ClosingTags(c.stack))
    || (&& raw == d.before + d.part + d.rest
        && (d.begin == OpeningTags(c.stack) || (d.begin == c.current && d.before == ""))
        && CutLate(d.part, d.rest, maxLen - Size(chunk))
        && EndsInText(chunk, d.begin, d.part, c.stack))
  }

  /** The chunks after the first cut of a text. */
  function AfterCut(c: Chunks, maxLen: int, raw: string): (r: Chunks)
    requires 0 < Available(c, maxLen) < |raw|
  {
    Flush(c.(current := c.current + [Text(raw[..Cut(raw, Available(c, maxLen))])]))
  }

  lemma FirstCutEndsWell(c: Chunks, maxLen: int, raw: string)
    requires 0 < Available(c, maxLen) < |raw|
    ensures var cut, flushed := Cut(raw, Available(c, maxLen)), AfterCut(c, maxLen, raw);
      && |flushed.done| == |c.done| + 1 && flushed.stack == c.stack && flushed.current == OpeningTags(c.stack)
      && EndsWell(c, maxLen, raw, flushed.done[|c.done|], Division(c.current, "", raw[..cut], raw[cut..]))
  {
    var cut, flushed := Cut(raw, Available(c, maxLen)), AfterCut(c, maxLen, raw);
    CutIsLate(raw, Available(c, maxLen));
    SizeOfEnd(flushed.done[|c.done|], c.current, raw[..cut], c.stack);
    assert raw == "" + raw[..cut] + raw[cut..];
  }

  /** What ends well in the rest of a text ends well in the text. */
  lemma RestEndsWell(c: Chunks, flushed: Chunks, maxLen: int, head: string, tail: string, chunk: Tokens, d: Division)
    requires flushed.stack == c.stack && flushed.current == OpeningTags(c.stack)
    requires Available(flushed, maxLen) > 0 && EndsWell(flushed, maxLen, tail, chunk, d)
    ensures EndsWell(c, maxLen, head + tail, chunk, Division(OpeningTags(c.stack), head + d.before, d.part, d.rest))
  {
    assert head + (d.before + d.part + d.rest) == (head + d.before) + d.part + d.rest;
  }

  /** One round of the loop: the text fits, or a message is finished first. */
  lemma OneRound(c: Chunks, maxLen: int, raw: string, after: Chunks)
    requires AddText(c, maxLen, Text(raw), false) == Some(after) && |after.done| > |c.done|
    ensures raw != "" && |raw| > Available(c, maxLen)
    ensures Available(c, maxLen) <= 0 ==>
      Available(Flush(c), maxLen) > 0 && AddText(Flush(c), maxLen, Text(raw), false) == Some(after)
  {
  }

  lemma CutRound(c: Chunks, maxLen: int, raw: string, after: Chunks) returns (flushed: Chunks, head: string, tail: string)
    requires AddText(c, maxLen, Text(raw), false) == Some(after) && |after.done| > |c.done| && Available(c, maxLen) > 0
    ensures raw == head + tail && |tail| < |raw| && AddText(flushed, maxLen, Text(tail), false) == Some(after)
    ensures flushed.stack == c.stack && flushed.current == OpeningTags(c.stack) && Available(flushed, maxLen) > 0
    ensures |flushed.done| == |c.done| + 1
    ensures EndsWell(c, maxLen, raw, after.done[|c.done|], Division(c.current, "", head, tail))
  {
    var cut := Cut(raw, Available(c, maxLen));
    flushed, head, tail := AfterCut(c, maxLen, raw), raw[..cut], raw[cut..];
    FirstCutEndsWell(c, maxLen, raw);
    DoneIsPrefix(flushed, maxLen, Text(tail), after);
    RoomIsLeft(flushed, maxLen, Text(tail));
  }

  lemma FlushedEndsWell(c: Chunks, maxLen: int, raw: string, chunk: Tokens, d: Division)
    requires Available(Flush(c), maxLen) > 0 && EndsWell(Flush(c), maxLen, raw, chunk, d)
    ensures EndsWell(c, maxLen, raw, chunk, d)
  {
  }

  lemma NoRoomEndsWell(c: Chunks, maxLen: int, raw: string, after: Chunks, i: nat, d: Division)
    requires Available(c, maxLen) <= 0 && Flush(c).done <= after.done && |c.done| <= i < |Flush(c).done|
    ensures EndsWell(c, maxLen, raw, after.done[i], d)
  {
  }

  /** Every message that adding a text finishes either ends before the text, which
      had no room left in it, or ends in a part of the text that is cut as late as
      the limit allows. */
  lemma {:induction false} TextIsCutLate(c: Chunks, maxLen: int, raw: string, after: Chunks, i: nat) returns (d: Division)
    requires AddText(c, maxLen, Text(raw), false) == Some(after) && |c.done| <= i < |after.done|
    ensures EndsWell(c, maxLen, raw, after.done[i], d)
    decreases |raw|, if Available(c, maxLen) <= 0 then 1 else 0
  {
    OneRound(c, maxLen, raw, after);
    if Available(c, maxLen) <= 0 {
      DoneIsPrefix(Flush(c), maxLen, Text(raw), after);
      if i < |Flush(c).done| {
        d := Division([], "", "", "");
        NoRoomEndsWell(c, maxLen, raw, after, i, d);
      } else {
        d := TextIsCutLate(Flush(c), maxLen, raw, after, i);
        FlushedEndsWell(c, maxLen, raw, after.done[i], d);
      }
    } else {
      var flushed, head, tail := CutRound(c, maxLen, raw, after);
      if i == |c.done| {
        d := Division(c.current, "", head, tail);
      } else {
        var later := TextIsCutLate(flushed, maxLen, tail, after, i);
        RestEndsWell(c, flushed, maxLen, head, tail, after.done[i], later);
        d := Division(OpeningTags(c.stack), head + later.before, later.part, later.rest);
      }
    }
  }

  /** A text is taken only if a fresh message has room for some of it. */
  lemma RoomIsLeft(c: Chunks, maxLen: int, t: Token)
    requires c.current == OpeningTags(c.stack) && t.raw != "" && AddText(c, maxLen, t, false).Some?
    ensures Available(c, maxLen) > 0
  {
  }

  /** Messages once finished stay. */
  lemma {:induction false} DoneIsPrefix(c: Chunks, maxLen: int, t: Token, after: Chunks)
    requires AddText(c, maxLen, t, false) == Some(after)
    ensures c.done <= after.done
    decreases |t.raw|, if Available(c, maxLen) <= 0 then 1 else 0
  {
    if t.raw != "" && |t.raw| > Available(c, maxLen) {
      if Available(c, maxLen) <= 0 {
        DoneIsPrefix(Flush(c), maxLen, t, after);
      } else {
        var cut := Cut(t.raw, Available(c, maxLen));
        DoneIsPrefix(Flush(c.(current := c.current + [Text(t.raw[..cut])])), maxLen, Text(t.raw[cut..]), after);
      }
    }
  }

  // The literal fallback.

  lemma {:induction false} EscapedBegins(done: seq<string>, current: string, text: string, maxLen: int)
    ensures done <= EscapedFrom(done, current, text, maxLen)
    ensures current != "" ==>
      |EscapedFrom(done, current, text, maxLen)| > |done| && current <= EscapedFrom(done, current, text, maxLen)[|done|]
    decreases |text|
  {
    if text != "" {
      var encoded := Encode(text[0]);
      if |current| + |encoded| > maxLen {
        EscapedBegins(done + [current], encoded, text[1..], maxLen);
      } else {
        EscapedBegins(done, current + encoded, text[1..], maxLen);
      }
    }
  }

  /** A literal part ends only because the next character did not fit in it. */
  lemma {:induction false} LiteralPartsAreFull(done: seq<string>, current: string, text: string, maxLen: int, i: nat)
    returns (next: char)
    requires |done| <= i < |EscapedFrom(done, current, text, maxLen)| - 1
    ensures var parts := EscapedFrom(done, current, text, maxLen);
      Encode(next) <= parts[i + 1] && |parts[i]| + |Encode(next)| > maxLen
    decreases |text|
  {
    next := text[0];
    var encoded := Encode(next);
    if |current| + |encoded| <= maxLen {
      next := LiteralPartsAreFull(done, current + encoded, text[1..], maxLen, i);
    } else if i > |done| {
      next := LiteralPartsAreFull(done + [current], encoded, text[1..], maxLen, i);
    } else {
      EscapedBegins(done + [current], encoded, text[1..], maxLen);
    }
  }
}
