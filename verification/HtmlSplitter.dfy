/** The chunker object and the splitting functions as they run, proved against
    the functions of Formatters. */
module HtmlSplitter {
  import opened Common
  import opened Outcomes
  import opened Formatters
  import opened FormatterProofs

  class HtmlChunker {
    const maxLen: int
    var chunks: seq<Tokens>
    var current: Tokens
    var stack: Stack

    function Contents(): Chunks
      reads this
    {
      Chunks(chunks, current, stack)
    }

    constructor (maxLen: int)
      ensures this.maxLen == maxLen && Contents() == START
    {
      this.maxLen, chunks, current, stack := maxLen, [], [], [];
    }

    method Flush()
      modifies this
      ensures Contents() == Formatters.Flush(old(Contents()))
    {
      if current != [] {
        chunks := chunks + [current + ClosingTags(stack)];
        current := OpeningTags(stack);
      }
    }

    /** Pop the innermost open tag of this name, wherever it is. */
    method Pop(name: string)
      modifies this`stack
      ensures stack == Unwind(old(stack), name)
    {
      var index := |stack|;
      assert stack[..index] == stack && stack[index..] == [];
      while index > 0
        invariant 0 <= index <= |stack| && stack == old(stack)
        invariant Unwind(stack, name) == Unwind(stack[..index], name) + stack[index..]
      {
        index := index - 1;
        UnwindStep(stack, index, name);
        if stack[index].name == name {
          stack := stack[..index] + stack[index + 1..];
          return;
        }
      }
    }

    method AddTag(t: Token)
      requires t.Open? || t.Close?
      modifies this
      ensures Contents() == Formatters.AddTag(old(Contents()), maxLen, t)
    {
      if Size(current) + |t.raw| + Size(ClosingTags(stack)) > maxLen {
        Flush();
      }
      current := current + [t];
      if t.Open? {
        stack := stack + [Tag(t.name, t.raw)];
      } else {
        Pop(t.name);
      }
    }

    /** Send the current chunk out with as much of the text as fits. */
    method CutText(raw: string) returns (tail: Token)
      requires 0 < Available(Contents(), maxLen) < |raw|
      modifies this
      ensures var cut := Cut(raw, Available(old(Contents()), maxLen));
        && tail == Text(raw[cut..])
        && Contents() == Formatters.Flush(old(Contents()).(current := old(current) + [Text(raw[..cut])]))
    {
      var cut := Cut(raw, maxLen - Size(current) - Size(ClosingTags(stack)));
      current := current + [Text(raw[..cut])];
      tail := Text(raw[cut..]);
      Flush();
    }

    /** False stands for the overflow exception. */
    method AddText(t: Token) returns (ok: bool)
      requires !(t.Open? || t.Close?)
      modifies this
      ensures ok <==> Formatters.Add(old(Contents()), maxLen, t).Some?
      ensures ok ==> Contents() == Formatters.Add(old(Contents()), maxLen, t).value
    {
      var whole := Indivisible(t.raw);
      var remaining := t;
      while remaining.raw != ""
        invariant Formatters.AddText(Contents(), maxLen, remaining, whole) == Formatters.AddText(old(Contents()), maxLen, t, whole)
        decreases |remaining.raw|, if Available(Contents(), maxLen) <= 0 then 1 else 0
      {
        var available := maxLen - Size(current) - Size(ClosingTags(stack));
        if |remaining.raw| <= available {
          current := current + [remaining];
          return true;
        }
        if whole {
          Flush();
          current := current + [remaining];
          return true;
        }
        if available <= 0 {
          Flush();
          if maxLen - Size(current) - Size(ClosingTags(stack)) <= 0 { return false; }
        } else {
          remaining := CutText(remaining.raw);
        }
      }
      return true;
    }

    method Finish() returns (r: seq<Tokens>)
      modifies this
      ensures r == Formatters.Finish(old(Contents())) && r == chunks
    {
      if current != [] {
        chunks := chunks + [current + ClosingTags(stack)];
      }
      return chunks;
    }
  }

  lemma UnwindStep(stack: Stack, index: nat, name: string)
    requires index < |stack|
    ensures Unwind(stack[..index + 1], name) + stack[index + 1..] ==
            if stack[index].name == name then stack[..index] + stack[index + 1..]
            else Unwind(stack[..index], name) + stack[index..]
  {
    var upper := stack[..index + 1];
    assert upper[..index] == stack[..index] && upper[index] == stack[index];
    if stack[index].name != name {
      Associate(Unwind(stack[..index], name), [stack[index]], stack[index + 1..]);
      assert [stack[index]] + stack[index + 1..] == stack[index..];
    }
  }

  /** `_escaped_chunks` */
  method EscapedChunks(text: string, maxLen: int) returns (chunks: seq<string>)
    ensures chunks == EscapedFrom([], "", text, maxLen)
  {
    chunks := [];
    var current := "";
    for i := 0 to |text|
      invariant EscapedFrom(chunks, current, text[i..], maxLen) == EscapedFrom([], "", text, maxLen)
    {
      assert text[i..][1..] == text[i + 1..];
      var encoded := Encode(text[i]);
      if |current| + |encoded| > maxLen {
        chunks := chunks + [current];
        current := "";
        assert "" + encoded == encoded;
      }
      current := current + encoded;
    }
    if current != "" {
      chunks := chunks + [current];
    }
  }

  /** `split_html_message` */
  method SplitHtmlMessage(tokens: Tokens, maxLen: int) returns (r: Outcome<Split>)
    ensures r == SplitHtml(tokens, maxLen)
  {
    if maxLen < 5 { return Raised; }
    SizeIsLength(tokens);
    if |Raw(tokens)| <= maxLen { return Returned(Kept([tokens])); }
    var chunker := new HtmlChunker(maxLen);
    for i := 0 to |tokens|
      invariant fresh(chunker) && chunker.maxLen == maxLen
      invariant AddAll(chunker.Contents(), maxLen, tokens[i..]) == AddAll(START, maxLen, tokens)
    {
      assert tokens[i..][1..] == tokens[i + 1..];
      var ok := true;
      if tokens[i].Open? || tokens[i].Close? {
        chunker.AddTag(tokens[i]);
      } else {
        ok := chunker.AddText(tokens[i]);
      }
      if !ok {
        var literal := EscapedChunks(Raw(tokens), maxLen);
        return Returned(Literal(literal));
      }
    }
    var parts := chunker.Finish();
    if !AllFit(parts, maxLen) {
      var literal := EscapedChunks(Raw(tokens), maxLen);
      return Returned(Literal(literal));
    }
    return Returned(Kept(parts));
  }
}
