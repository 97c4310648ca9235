/** What splitting keeps. */
module FormatterProofs {
  import opened Common
  import opened Outcomes
  import opened Formatters

  // Concatenation.

  lemma {:induction false} StackAfterAppend(a: Tokens, b: Tokens, stack: Stack)
    ensures StackAfter(a + b, stack) == StackAfter(b, StackAfter(a, stack))
    decreases |a|
  {
    if a == [] {
      assert a + b == b;
    } else {
      assert (a + b)[0] == a[0] && (a + b)[1..] == a[1..] + b;
      StackAfterAppend(a[1..], b, Apply(stack, a[0]));
    }
  }

  lemma {:induction false} CharsAppend(a: Tokens, b: Tokens, stack: Stack)
    ensures Render(a + b, stack) == Render(a, stack) + Render(b, StackAfter(a, stack))
    decreases |a|
  {
    if a == [] {
      assert a + b == b;
    } else {
      assert (a + b)[0] == a[0] && (a + b)[1..] == a[1..] + b;
      CharsAppend(a[1..], b, Apply(stack, a[0]));
    }
  }

  lemma {:induction false} NestingAppend(a: Tokens, b: Tokens, stack: Stack)
    ensures WellNested(a + b, stack) == (WellNested(a, stack) && WellNested(b, StackAfter(a, stack)))
    decreases |a|
  {
    if a == [] {
      assert a + b == b;
    } else {
      assert (a + b)[0] == a[0] && (a + b)[1..] == a[1..] + b;
      NestingAppend(a[1..], b, Apply(stack, a[0]));
    }
  }

  lemma RenderAppend(a: Tokens, b: Tokens, stack: Stack)
    ensures StackAfter(a + b, stack) == StackAfter(b, StackAfter(a, stack))
    ensures Render(a + b, stack) == Render(a, stack) + Render(b, StackAfter(a, stack))
    ensures WellNested(a + b, stack) == (WellNested(a, stack) && WellNested(b, StackAfter(a, stack)))
  {
    StackAfterAppend(a, b, stack);
    CharsAppend(a, b, stack);
    NestingAppend(a, b, stack);
  }

  lemma {:induction false} SizeAppend(a: Tokens, b: Tokens)
    ensures Size(a + b) == Size(a) + Size(b)
    ensures Raw(a + b) == Raw(a) + Raw(b)
  {
    if a == [] {
      assert a + b == b;
    } else {
      assert (a + b)[1..] == a[1..] + b;
      SizeAppend(a[1..], b);
    }
  }

  lemma {:induction false} SizeIsLength(tokens: Tokens)
    ensures Size(tokens) == |Raw(tokens)|
  {
    if tokens != [] {
      SizeIsLength(tokens[1..]);
    }
  }

  lemma {:induction false} ShowAppend(a: string, b: string, stack: Stack)
    ensures ShowText(a + b, stack) == ShowText(a, stack) + ShowText(b, stack)
  {
    if a == "" {
      assert a + b == b;
    } else {
      assert (a + b)[1..] == a[1..] + b;
      ShowAppend(a[1..], b, stack);
    }
  }

  // Closing and reopening.

  lemma {:induction false} ClosingEmptiesTheStack(stack: Stack)
    ensures StackAfter(ClosingTags(stack), stack) == []
    ensures Render(ClosingTags(stack), stack) == []
    ensures WellNested(ClosingTags(stack), stack)
  {
    if stack != [] {
      var below := stack[..|stack| - 1];
      ClosingEmptiesTheStack(below);
      assert ClosingTags(stack)[1..] == ClosingTags(below);
    }
  }

  lemma {:induction false} OpeningRestoresTheStack(stack: Stack)
    ensures StackAfter(OpeningTags(stack), []) == stack
    ensures Render(OpeningTags(stack), []) == []
    ensures WellNested(OpeningTags(stack), [])
  {
    if stack != [] {
      var below, top := stack[..|stack| - 1], stack[|stack| - 1];
      OpeningRestoresTheStack(below);
      RenderAppend(OpeningTags(below), [Open(top.name, top.raw)], []);
      OneOpening(top, below);
      assert below + [top] == stack;
    }
  }

  lemma OneOpening(tag: Tag, below: Stack)
    ensures var tokens := [Open(tag.name, tag.raw)];
      StackAfter(tokens, below) == below + [tag] && Render(tokens, below) == [] && WellNested(tokens, below)
  {
    assert [Open(tag.name, tag.raw)][1..] == [];
  }

  // The chunker, step by step.

  /** Everything shown by the chunks finished and the one in progress. */
  function Displayed(c: Chunks): seq<Shown> {
    RenderAll(c.done) + Render(c.current, [])
  }

  /** The stack is the one the current chunk opens, and finished chunks close
      all their tags; `nested` adds that they do so innermost first. */
  predicate Consistent(c: Chunks, nested: bool) {
    && StackAfter(c.current, []) == c.stack
    && (nested ==> WellNested(c.current, []))
    && (forall i :: 0 <= i < |c.done| ==> Closed(c.done[i], nested))
  }

  predicate Closed(chunk: Tokens, nested: bool) {
    StackAfter(chunk, []) == [] && (nested ==> WellNested(chunk, []))
  }

  lemma CloseChunk(current: Tokens, stack: Stack, nested: bool)
    requires StackAfter(current, []) == stack && (nested ==> WellNested(current, []))
    ensures Closed(current + ClosingTags(stack), nested)
    ensures Render(current + ClosingTags(stack), []) == Render(current, [])
  {
    RenderAppend(current, ClosingTags(stack), []);
    ClosingEmptiesTheStack(stack);
  }

  lemma FlushKeeps(c: Chunks, nested: bool)
    requires Consistent(c, nested)
    ensures Consistent(Flush(c), nested)
    ensures Displayed(Flush(c)) == Displayed(c) && Flush(c).stack == c.stack
  {
    if c.current != [] {
      CloseChunk(c.current, c.stack, nested);
      OpeningRestoresTheStack(c.stack);
      var chunk := c.current + ClosingTags(c.stack);
      assert (c.done + [chunk])[..|c.done|] == c.done;
    }
  }

  /** Appending a token to the current chunk shows exactly that token. */
  lemma AppendKeeps(c: Chunks, t: Token, nested: bool)
    requires Consistent(c, nested)
    requires nested ==> WellNested([t], c.stack)
    ensures var after := c.(current := c.current + [t], stack := Apply(c.stack, t));
      Consistent(after, nested) && Displayed(after) == Displayed(c) + ShowToken(t, c.stack)
  {
    RenderAppend(c.current, [t], []);
    assert Render([t], c.stack) == ShowToken(t, c.stack);
    assert StackAfter([t], c.stack) == Apply(c.stack, t);
  }

  lemma AddTagKeeps(c: Chunks, maxLen: int, t: Token, nested: bool)
    requires Consistent(c, nested) && (t.Open? || t.Close?)
    requires nested ==> WellNested([t], c.stack)
    ensures Consistent(AddTag(c, maxLen, t), nested)
    ensures Displayed(AddTag(c, maxLen, t)) == Displayed(c) + ShowToken(t, c.stack)
    ensures AddTag(c, maxLen, t).stack == Apply(c.stack, t)
  {
    FlushKeeps(c, nested);
    AppendKeeps(if |t.raw| > Available(c, maxLen) then Flush(c) else c, t, nested);
  }

  /** One cut: the head goes out with the current chunk, the tail is left. */
  lemma CutKeeps(c: Chunks, raw: string, cut: nat, nested: bool)
    requires Consistent(c, nested) && cut <= |raw|
    ensures var after := Flush(c.(current := c.current + [Text(raw[..cut])]));
      && Consistent(after, nested) && after.stack == c.stack
      && Displayed(after) == Displayed(c) + ShowText(raw[..cut], c.stack)
  {
    AppendKeeps(c, Text(raw[..cut]), nested);
    FlushKeeps(c.(current := c.current + [Text(raw[..cut])]), nested);
  }

  lemma ShowCut(raw: string, cut: nat, stack: Stack)
    requires cut <= |raw|
    ensures ShowText(raw, stack) == ShowText(raw[..cut], stack) + ShowText(raw[cut..], stack)
  {
    ShowAppend(raw[..cut], raw[cut..], stack);
    assert raw == raw[..cut] + raw[cut..];
  }

  /** What adding one token must do to what is shown. */
  predicate Adds(c: Chunks, after: Chunks, t: Token, nested: bool) {
    && Consistent(after, nested)
    && Displayed(after) == Displayed(c) + ShowToken(t, c.stack)
    && after.stack == Apply(c.stack, t)
  }

  lemma {:induction false} AddTextKeeps(c: Chunks, maxLen: int, t: Token, whole: bool, nested: bool)
    requires Consistent(c, nested) && (t.Text? || (t.Entity? && whole && t.raw != ""))
    requires AddText(c, maxLen, t, whole).Some?
    ensures Adds(c, AddText(c, maxLen, t, whole).value, t, nested)
    decreases |t.raw|, if Available(c, maxLen) <= 0 then 1 else 0
  {
    if t.raw == "" {
    } else if |t.raw| <= Available(c, maxLen) {
      AppendKeeps(c, t, nested);
    } else if whole {
      FlushKeeps(c, nested);
      AppendKeeps(Flush(c), t, nested);
    } else if Available(c, maxLen) <= 0 {
      FlushKeeps(c, nested);
      AddTextKeeps(Flush(c), maxLen, t, whole, nested);
    } else {
      var cut := Cut(t.raw, Available(c, maxLen));
      CutKeeps(c, t.raw, cut, nested);
      var next := Flush(c.(current := c.current + [Text(t.raw[..cut])]));
      AddTextKeeps(next, maxLen, Text(t.raw[cut..]), whole, nested);
      ShowCut(t.raw, cut, c.stack);
      Associate(Displayed(c), ShowText(t.raw[..cut], c.stack), ShowText(t.raw[cut..], c.stack));
    }
  }

  lemma AddKeeps(c: Chunks, maxLen: int, t: Token, nested: bool)
    requires Consistent(c, nested) && (t.Entity? ==> Indivisible(t.raw))
    requires nested ==> WellNested([t], c.stack)
    requires Add(c, maxLen, t).Some?
    ensures Adds(c, Add(c, maxLen, t).value, t, nested)
  {
    if t.Open? || t.Close? {
      AddTagKeeps(c, maxLen, t, nested);
    } else {
      AddTextKeeps(c, maxLen, t, Indivisible(t.raw), nested);
    }
  }

  lemma {:induction false} AddAllKeeps(c: Chunks, maxLen: int, tokens: Tokens, nested: bool)
    requires Consistent(c, nested) && Lexed(tokens)
    requires nested ==> WellNested(tokens, c.stack)
    requires AddAll(c, maxLen, tokens).Some?
    ensures Consistent(AddAll(c, maxLen, tokens).value, nested)
    ensures Displayed(AddAll(c, maxLen, tokens).value) == Displayed(c) + Render(tokens, c.stack)
    decreases |tokens|
  {
    if tokens != [] {
      var t := tokens[0];
      assert t in tokens;
      assert nested ==> WellNested([t], c.stack);
      AddKeeps(c, maxLen, t, nested);
      var next := Add(c, maxLen, t).value;
      AddAllKeeps(next, maxLen, tokens[1..], nested);
      Associate(Displayed(c), ShowToken(t, c.stack), Render(tokens[1..], next.stack));
    }
  }

  lemma FinishKeeps(c: Chunks, nested: bool)
    requires Consistent(c, nested)
    ensures RenderAll(Finish(c)) == Displayed(c)
    ensures forall i :: 0 <= i < |Finish(c)| ==> Closed(Finish(c)[i], nested)
  {
    if c.current != [] {
      CloseChunk(c.current, c.stack, nested);
      assert Finish(c)[..|c.done|] == c.done;
    }
  }

  // The literal fallback.

  lemma {:induction false} UnescapeUndoesEscape(text: string)
    ensures Unescape(Escape(text)) == text
  {
    if text != "" {
      UnescapeUndoesEscape(text[1..]);
      var rest := Escape(text[1..]);
      var escaped := Escape(text);
      if text[0] == '&' {
        assert "&amp;" <= escaped && escaped[5..] == rest;
      } else if text[0] == '<' {
        assert escaped[1] == 'l' && "&lt;" <= escaped && escaped[4..] == rest;
      } else if text[0] == '>' {
        assert escaped[1] == 'g' && "&gt;" <= escaped && escaped[4..] == rest;
      } else {
        assert escaped[0] == text[0] && escaped[1..] == rest;
      }
    }
  }

  /** The escaped chunks fit, and together they are the escaped text. */
  lemma {:induction false} EscapedFromKeeps(done: seq<string>, current: string, text: string, maxLen: int)
    requires maxLen >= 5 && |current| <= maxLen && forall p :: p in done ==> |p| <= maxLen
    ensures forall p :: p in EscapedFrom(done, current, text, maxLen) ==> |p| <= maxLen
    ensures Concat(EscapedFrom(done, current, text, maxLen)) == Concat(done) + current + Escape(text)
    decreases |text|
  {
    if text == "" {
      assert (done + [current])[..|done|] == done;
    } else {
      var encoded := Encode(text[0]);
      if |current| + |encoded| > maxLen {
        EscapedFromKeeps(done + [current], encoded, text[1..], maxLen);
        assert (done + [current])[..|done|] == done;
        Associate(Concat(done) + current, encoded, Escape(text[1..]));
      } else {
        EscapedFromKeeps(done, current + encoded, text[1..], maxLen);
        Associate(Concat(done), current, encoded);
        Associate(Concat(done) + current, encoded, Escape(text[1..]));
      }
    }
  }

  // The promises of `split_html_message`.

  /** Kept markup: every glyph is shown once, in order, inside the same tags,
      and each chunk is a complete message of its own. */
  lemma SplitKeepsRendering(tokens: Tokens, maxLen: int)
    requires Lexed(tokens) && SplitHtml(tokens, maxLen).Returned? && SplitHtml(tokens, maxLen).value.Kept?
    ensures var chunks := SplitHtml(tokens, maxLen).value.chunks;
      && RenderAll(chunks) == Render(tokens, [])
      && (Size(tokens) > maxLen || StackAfter(tokens, []) == [] ==>
            forall i :: 0 <= i < |chunks| ==> StackAfter(chunks[i], []) == [])
      && (WellNested(tokens, []) ==> forall i :: 0 <= i < |chunks| ==> WellNested(chunks[i], []))
  {
    if Size(tokens) <= maxLen {
      assert RenderAll([tokens]) == RenderAll([]) + Render(tokens, []);
    } else {
      FinishedKeepsRendering(tokens, maxLen);
    }
  }

  lemma FinishedKeepsRendering(tokens: Tokens, maxLen: int)
    requires Lexed(tokens) && AddAll(START, maxLen, tokens).Some?
    ensures var chunks := Finish(AddAll(START, maxLen, tokens).value);
      && RenderAll(chunks) == Render(tokens, [])
      && (forall i :: 0 <= i < |chunks| ==> StackAfter(chunks[i], []) == [])
      && (WellNested(tokens, []) ==> forall i :: 0 <= i < |chunks| ==> WellNested(chunks[i], []))
  {
    var c := AddAll(START, maxLen, tokens).value;
    var nested := WellNested(tokens, []);
    AddAllKeeps(START, maxLen, tokens, nested);
    FinishKeeps(c, nested);
    forall i | 0 <= i < |Finish(c)| ensures StackAfter(Finish(c)[i], []) == [] && (nested ==> WellNested(Finish(c)[i], [])) {
      assert Closed(Finish(c)[i], nested);
    }
  }

  lemma KeptPartsFit(chunks: seq<Tokens>, maxLen: int)
    requires AllFit(chunks, maxLen)
    ensures forall p :: p in Kept(chunks).Parts() ==> |p| <= maxLen
  {
    forall p | p in Kept(chunks).Parts() ensures |p| <= maxLen {
      var i :| 0 <= i < |chunks| && p == Kept(chunks).Parts()[i];
      SizeIsLength(chunks[i]);
      assert chunks[i] in chunks;
    }
  }

  /** Every part fits whatever the input, and a limit of 5 always suffices. */
  lemma SplitFits(tokens: Tokens, maxLen: int)
    ensures SplitHtml(tokens, maxLen).Returned? <==> maxLen >= 5
    ensures SplitHtml(tokens, maxLen).Returned? ==>
      forall p :: p in SplitHtml(tokens, maxLen).value.Parts() ==> |p| <= maxLen
  {
    if maxLen >= 5 {
      match SplitHtml(tokens, maxLen).value
      case Kept(chunks) => KeptPartsFit(chunks, maxLen);
      case Literal(_) => EscapedFromKeeps([], "", Raw(tokens), maxLen);
    }
  }

  /** The fallback gives back the source text character for character. */
  lemma FallbackKeepsText(tokens: Tokens, maxLen: int)
    requires SplitHtml(tokens, maxLen).Returned? && SplitHtml(tokens, maxLen).value.Literal?
    ensures Unescape(Concat(SplitHtml(tokens, maxLen).value.parts)) == Raw(tokens)
  {
    EscapedFromKeeps([], "", Raw(tokens), maxLen);
    UnescapeUndoesEscape(Raw(tokens));
    assert Concat([]) + "" + Escape(Raw(tokens)) == Escape(Raw(tokens));
  }

  // When the fallback is taken.

  lemma AppendSize(c: Chunks, maxLen: int, t: Token)
    ensures Size(c.current + [t]) == Size(c.current) + |t.raw|
  {
    SizeAppend(c.current, [t]);
    assert Size([t]) == |t.raw| + Size([]);
  }

  lemma SizeOfOne(t: Token)
    ensures Size([t]) == |t.raw|
  {
    assert Size([t]) == |t.raw| + Size([]);
  }

  lemma {:induction false} AddTextKeepsDone(c: Chunks, maxLen: int, t: Token, whole: bool, chunk: Tokens)
    requires chunk in c.done && AddText(c, maxLen, t, whole).Some?
    ensures chunk in AddText(c, maxLen, t, whole).value.done
    decreases |t.raw|, if Available(c, maxLen) <= 0 then 1 else 0
  {
    if t.raw != "" && |t.raw| > Available(c, maxLen) && !whole {
      if Available(c, maxLen) <= 0 {
        AddTextKeepsDone(Flush(c), maxLen, t, whole, chunk);
      } else {
        var cut := Cut(t.raw, Available(c, maxLen));
        var next := Flush(c.(current := c.current + [Text(t.raw[..cut])]));
        AddTextKeepsDone(next, maxLen, Text(t.raw[cut..]), whole, chunk);
      }
    }
  }

  /** A finished chunk stays, so one that is too long forces the fallback. */
  lemma {:induction false} AddAllKeepsDone(c: Chunks, maxLen: int, tokens: Tokens, chunk: Tokens)
    requires chunk in c.done && AddAll(c, maxLen, tokens).Some?
    ensures chunk in AddAll(c, maxLen, tokens).value.done
    decreases |tokens|
  {
    if tokens != [] {
      if !(tokens[0].Open? || tokens[0].Close?) {
        AddTextKeepsDone(c, maxLen, tokens[0], Indivisible(tokens[0].raw), chunk);
      }
      AddAllKeepsDone(Add(c, maxLen, tokens[0]).value, maxLen, tokens[1..], chunk);
    }
  }

  /** After these tokens the chunker gave up, or it has begun a chunk that it
      cannot close within the limit. */
  predicate CannotClose(prefix: Tokens, maxLen: int) {
    var c := AddAll(START, maxLen, prefix);
    c.None? || Available(c.value, maxLen) < 0
  }

  /** Tags are reopened into the current chunk, so an empty one has none. */
  predicate Begun(c: Chunks) {
    c.current == [] ==> c.stack == []
  }

  lemma FlushBegins(c: Chunks, maxLen: int)
    requires Begun(c)
    ensures Begun(Flush(c)) && Available(Flush(Flush(c)), maxLen) == Available(Flush(c), maxLen)
  {
  }

  lemma {:induction false} TextBegins(c: Chunks, maxLen: int, t: Token, whole: bool)
    requires Begun(c) && AddText(c, maxLen, t, whole).Some?
    ensures Begun(AddText(c, maxLen, t, whole).value)
    decreases |t.raw|, if Available(c, maxLen) <= 0 then 1 else 0
  {
    if t.raw != "" && |t.raw| > Available(c, maxLen) && !whole {
      if Available(c, maxLen) <= 0 {
        TextBegins(Flush(c), maxLen, t, whole);
      } else {
        var cut := Cut(t.raw, Available(c, maxLen));
        var next := Flush(c.(current := c.current + [Text(t.raw[..cut])]));
        TextBegins(next, maxLen, Text(t.raw[cut..]), whole);
      }
    }
  }

  lemma {:induction false} AllBegin(c: Chunks, maxLen: int, tokens: Tokens)
    requires Begun(c) && AddAll(c, maxLen, tokens).Some?
    ensures Begun(AddAll(c, maxLen, tokens).value)
    decreases |tokens|
  {
    if tokens != [] {
      if !(tokens[0].Open? || tokens[0].Close?) {
        TextBegins(c, maxLen, tokens[0], Indivisible(tokens[0].raw));
      }
      AllBegin(Add(c, maxLen, tokens[0]).value, maxLen, tokens[1..]);
    }
  }

  /** A flushed chunk has exactly the length that the limit left for it. */
  lemma FlushedSize(c: Chunks, maxLen: int)
    ensures Size(c.current + ClosingTags(c.stack)) == maxLen - Available(c, maxLen)
  {
    SizeAppend(c.current, ClosingTags(c.stack));
  }

  lemma FlushFits(c: Chunks, maxLen: int)
    requires AllFit(c.done, maxLen) && Available(c, maxLen) >= 0
    ensures AllFit(Flush(c).done, maxLen) && AllFit(Finish(c), maxLen)
  {
    FlushedSize(c, maxLen);
  }

  /** The chunker gives up only when the open tags alone fill a chunk. */
  lemma {:induction false} GivingUpMeansMarkup(c: Chunks, maxLen: int, t: Token, whole: bool)
    requires Begun(c) && AddText(c, maxLen, t, whole).None?
    ensures Size(OpeningTags(c.stack)) + Size(ClosingTags(c.stack)) >= maxLen
    decreases |t.raw|, if Available(c, maxLen) <= 0 then 1 else 0
  {
    FlushBegins(c, maxLen);
    if Available(c, maxLen) <= 0 {
      if Available(Flush(c), maxLen) > 0 {
        GivingUpMeansMarkup(Flush(c), maxLen, t, whole);
      }
    } else {
      var cut := Cut(t.raw, Available(c, maxLen));
      var next := Flush(c.(current := c.current + [Text(t.raw[..cut])]));
      GivingUpMeansMarkup(next, maxLen, Text(t.raw[cut..]), whole);
    }
  }

  /** Text that is taken leaves only chunks that fit, if the one begun could be
      closed. */
  lemma {:induction false} TextLeavesFitting(c: Chunks, maxLen: int, t: Token, whole: bool)
    requires Begun(c) && AllFit(c.done, maxLen) && Available(c, maxLen) >= 0 && AddText(c, maxLen, t, whole).Some?
    ensures AllFit(AddText(c, maxLen, t, whole).value.done, maxLen)
    decreases |t.raw|, if Available(c, maxLen) <= 0 then 1 else 0
  {
    FlushFits(c, maxLen);
    FlushBegins(c, maxLen);
    if t.raw == "" || |t.raw| <= Available(c, maxLen) || whole {
    } else if Available(c, maxLen) <= 0 {
      TextLeavesFitting(Flush(c), maxLen, t, whole);
    } else {
      CutLeavesFitting(c, maxLen, t);
      var cut := Cut(t.raw, Available(c, maxLen));
      var next := Flush(c.(current := c.current + [Text(t.raw[..cut])]));
      var tail := Text(t.raw[cut..]);
      if Available(next, maxLen) >= 0 {
        TextLeavesFitting(next, maxLen, tail, whole);
      } else {
        FlushBegins(c.(current := c.current + [Text(t.raw[..cut])]), maxLen);
      }
    }
  }

  lemma CutLeavesFitting(c: Chunks, maxLen: int, t: Token)
    requires AllFit(c.done, maxLen) && 0 < Available(c, maxLen) < |t.raw|
    ensures var longer := c.(current := c.current + [Text(t.raw[..Cut(t.raw, Available(c, maxLen))])]);
      Begun(longer) && Begun(Flush(longer)) && AllFit(Flush(longer).done, maxLen)
  {
    var head := Text(t.raw[..Cut(t.raw, Available(c, maxLen))]);
    AppendSize(c, maxLen, head);
    FlushFits(c.(current := c.current + [head]), maxLen);
  }

  lemma AddLeavesFitting(c: Chunks, maxLen: int, t: Token)
    requires Begun(c) && AllFit(c.done, maxLen) && Available(c, maxLen) >= 0 && Add(c, maxLen, t).Some?
    ensures AllFit(Add(c, maxLen, t).value.done, maxLen)
  {
    FlushFits(c, maxLen);
    if !(t.Open? || t.Close?) {
      TextLeavesFitting(c, maxLen, t, Indivisible(t.raw));
    }
  }

  lemma {:induction false} AddAllAppend(c: Chunks, maxLen: int, a: Tokens, b: Tokens)
    ensures AddAll(c, maxLen, a + b)
         == if AddAll(c, maxLen, a).None? then None else AddAll(AddAll(c, maxLen, a).value, maxLen, b)
    decreases |a|
  {
    if a == [] {
      assert a + b == b;
    } else {
      assert (a + b)[0] == a[0] && (a + b)[1..] == a[1..] + b;
      if Add(c, maxLen, a[0]).Some? {
        AddAllAppend(Add(c, maxLen, a[0]).value, maxLen, a[1..], b);
      }
    }
  }

  /** All chunks finished after these tokens fit. */
  predicate FinishedFit(prefix: Tokens, maxLen: int) {
    var c := AddAll(START, maxLen, prefix);
    c.Some? && AllFit(c.value.done, maxLen)
  }

  lemma OneMoreFits(prefix: Tokens, maxLen: int, t: Token)
    requires !CannotClose(prefix, maxLen) && !CannotClose(prefix + [t], maxLen) && FinishedFit(prefix, maxLen)
    ensures FinishedFit(prefix + [t], maxLen)
  {
    var c := AddAll(START, maxLen, prefix).value;
    AddAllAppend(START, maxLen, prefix, [t]);
    OneToken(c, maxLen, t);
    AllBegin(START, maxLen, prefix);
    AddLeavesFitting(c, maxLen, t);
  }

  lemma NothingFits(maxLen: int)
    ensures FinishedFit([], maxLen)
  {
  }

  /** If every prefix can be closed, all finished chunks fit. */
  lemma {:induction false} ClosablePrefixesFit(tokens: Tokens, maxLen: int, n: nat)
    requires n <= |tokens|
    requires forall k :: 0 <= k <= n ==> !CannotClose(tokens[..k], maxLen)
    ensures FinishedFit(tokens[..n], maxLen)
  {
    if n == 0 {
      assert tokens[..0] == [];
      NothingFits(maxLen);
    } else {
      ClosablePrefixesFit(tokens, maxLen, n - 1);
      assert tokens[..n] == tokens[..n - 1] + [tokens[n - 1]];
      OneMoreFits(tokens[..n - 1], maxLen, tokens[n - 1]);
    }
  }

  lemma OneToken(c: Chunks, maxLen: int, t: Token)
    ensures AddAll(c, maxLen, [t]) == Add(c, maxLen, t)
  {
    assert [t][1..] == [];
  }

  /** A chunk that cannot be closed goes out too long, whatever follows. */
  lemma {:induction false} UnclosableStaysLong(c: Chunks, maxLen: int, tokens: Tokens)
    requires Begun(c) && maxLen >= 0 && Available(c, maxLen) < 0 && AddAll(c, maxLen, tokens).Some?
    ensures !AllFit(Finish(AddAll(c, maxLen, tokens).value), maxLen)
    decreases |tokens|
  {
    FlushedSize(c, maxLen);
    var chunk := c.current + ClosingTags(c.stack);
    if tokens == [] {
      assert chunk in Finish(c);
    } else {
      var t := tokens[0];
      if t.raw == "" && !(t.Open? || t.Close?) {
        UnclosableStaysLong(c, maxLen, tokens[1..]);
      } else {
        UnclosableIsFlushed(c, maxLen, t, chunk);
        AddAllKeepsDone(Add(c, maxLen, t).value, maxLen, tokens[1..], chunk);
        assert chunk in Finish(AddAll(c, maxLen, tokens).value);
      }
    }
  }

  lemma UnclosableIsFlushed(c: Chunks, maxLen: int, t: Token, chunk: Tokens)
    requires c.current != [] && Available(c, maxLen) < 0 && chunk == c.current + ClosingTags(c.stack)
    requires (t.raw != "" || t.Open? || t.Close?) && Add(c, maxLen, t).Some?
    ensures chunk in Add(c, maxLen, t).value.done
  {
    assert chunk in Flush(c).done;
    if !(t.Open? || t.Close?) && !Indivisible(t.raw) {
      AddTextKeepsDone(Flush(c), maxLen, t, false, chunk);
    }
  }

  lemma PrefixForcesFallback(tokens: Tokens, maxLen: int, n: nat)
    requires maxLen >= 5 && Size(tokens) > maxLen && n <= |tokens| && CannotClose(tokens[..n], maxLen)
    ensures SplitHtml(tokens, maxLen).value.Literal?
  {
    assert tokens[..n] + tokens[n..] == tokens;
    AddAllAppend(START, maxLen, tokens[..n], tokens[n..]);
    var c := AddAll(START, maxLen, tokens[..n]);
    if c.Some? && AddAll(START, maxLen, tokens).Some? {
      AllBegin(START, maxLen, tokens[..n]);
      UnclosableStaysLong(c.value, maxLen, tokens[n..]);
    }
  }

  /** For any tokens: a message longer than the limit loses its markup exactly
      when some part of it, read from the start, leaves the chunker without a
      chunk that it can close within the limit. */
  lemma {:induction false} FallbackExactly(tokens: Tokens, maxLen: int)
    requires maxLen >= 5 && Size(tokens) > maxLen
    ensures SplitHtml(tokens, maxLen).value.Literal?
       <==> exists n :: 0 <= n <= |tokens| && CannotClose(tokens[..n], maxLen)
  {
    if n :| 0 <= n <= |tokens| && CannotClose(tokens[..n], maxLen) {
      PrefixForcesFallback(tokens, maxLen, n);
    } else {
      assert tokens[..|tokens|] == tokens;
      assert !CannotClose(tokens[..|tokens|], maxLen);
      ClosablePrefixesFit(tokens, maxLen, |tokens|);
      FlushFits(AddAll(START, maxLen, tokens).value, maxLen);
    }
  }

  // The condition token by token.

  /** What a fresh chunk has left once these tags are reopened in it. */
  function FreshRoom(stack: Stack, maxLen: int): int {
    maxLen - Size(OpeningTags(stack)) - Size(ClosingTags(stack))
  }

  /** Whether a token cannot be placed: a tag for which the chunk it lands in, this
      one or a fresh one, has no room together with the closing tags due after it;
      text that may not be cut and fits neither chunk; and other text that does not
      fit this chunk when the reopened tags fill a fresh one. */
  predicate Misfits(c: Chunks, maxLen: int, t: Token) {
    if t.Open? || t.Close? then
      var room := if |t.raw| <= Available(c, maxLen) then Available(c, maxLen) else FreshRoom(c.stack, maxLen);
      room + Size(ClosingTags(c.stack)) < |t.raw| + Size(ClosingTags(Apply(c.stack, t)))
    else if Indivisible(t.raw) then
      |t.raw| > Available(c, maxLen) && |t.raw| > FreshRoom(c.stack, maxLen)
    else
      |t.raw| > Available(c, maxLen) && FreshRoom(c.stack, maxLen) <= 0
  }

  lemma FlushLeavesFreshRoom(c: Chunks, maxLen: int)
    requires Begun(c)
    ensures Available(Flush(c), maxLen) == FreshRoom(c.stack, maxLen) && Flush(c).stack == c.stack
  {
  }

  /** An opening tag needs room for itself and its closing tag. */
  lemma OpeningMisfitsExactly(c: Chunks, maxLen: int, t: Token)
    requires t.Open?
    ensures var room := if |t.raw| <= Available(c, maxLen) then Available(c, maxLen) else FreshRoom(c.stack, maxLen);
      Misfits(c, maxLen, t) <==> room < |t.raw| + |t.name| + 3
  {
    var stack := Apply(c.stack, t);
    assert stack[..|stack| - 1] == c.stack;
    assert ClosingTags(stack)[0].raw == "</" + t.name + ">" && ClosingTags(stack)[1..] == ClosingTags(c.stack);
  }

  lemma {:induction false} CuttableMisfitsExactly(c: Chunks, maxLen: int, t: Token)
    requires Begun(c) && Available(c, maxLen) >= 0 && t.raw != ""
    ensures var r := AddText(c, maxLen, t, false);
      (r.None? || Available(r.value, maxLen) < 0) <==> |t.raw| > Available(c, maxLen) && FreshRoom(c.stack, maxLen) <= 0
    decreases |t.raw|, if Available(c, maxLen) <= 0 then 1 else 0
  {
    AppendSize(c, maxLen, t);
    FlushLeavesFreshRoom(c, maxLen);
    FlushBegins(c, maxLen);
    if |t.raw| <= Available(c, maxLen) {
    } else if Available(c, maxLen) <= 0 {
      if FreshRoom(c.stack, maxLen) > 0 {
        CuttableMisfitsExactly(Flush(c), maxLen, t);
      }
    } else {
      var cut := Cut(t.raw, Available(c, maxLen));
      var longer := c.(current := c.current + [Text(t.raw[..cut])]);
      FlushLeavesFreshRoom(longer, maxLen);
      FlushBegins(longer, maxLen);
      if FreshRoom(c.stack, maxLen) > 0 {
        CuttableMisfitsExactly(Flush(longer), maxLen, Text(t.raw[cut..]));
      }
    }
  }

  /** Adding a token to a chunk that can be closed fails, or leaves one that cannot,
      exactly when the token misfits. */
  lemma MisfitsExactly(c: Chunks, maxLen: int, t: Token)
    requires Begun(c) && Available(c, maxLen) >= 0
    ensures var r := Add(c, maxLen, t);
      (r.None? || Available(r.value, maxLen) < 0) <==> Misfits(c, maxLen, t)
  {
    AppendSize(c, maxLen, t);
    AppendSize(Flush(c), maxLen, t);
    FlushLeavesFreshRoom(c, maxLen);
    if !(t.Open? || t.Close?) && !Indivisible(t.raw) && t.raw != "" {
      CuttableMisfitsExactly(c, maxLen, t);
    }
  }

  /** The n-th token is the first that cannot be placed. */
  predicate FirstMisfit(tokens: Tokens, maxLen: int, n: nat)
    requires n < |tokens|
  {
    var c := AddAll(START, maxLen, tokens[..n]);
    c.Some? && Available(c.value, maxLen) >= 0 && Misfits(c.value, maxLen, tokens[n])
  }

  lemma MisfitCannotClose(tokens: Tokens, maxLen: int, n: nat)
    requires n < |tokens| && !CannotClose(tokens[..n], maxLen)
    ensures CannotClose(tokens[..n + 1], maxLen) <==> FirstMisfit(tokens, maxLen, n)
  {
    assert tokens[..n + 1] == tokens[..n] + [tokens[n]];
    AddAllAppend(START, maxLen, tokens[..n], [tokens[n]]);
    AllBegin(START, maxLen, tokens[..n]);
    OneToken(AddAll(START, maxLen, tokens[..n]).value, maxLen, tokens[n]);
    MisfitsExactly(AddAll(START, maxLen, tokens[..n]).value, maxLen, tokens[n]);
  }

  lemma {:induction false} SomeTokenMisfits(tokens: Tokens, maxLen: int, n: nat) returns (k: nat)
    requires maxLen >= 0 && n <= |tokens| && CannotClose(tokens[..n], maxLen)
    ensures k < n && FirstMisfit(tokens, maxLen, k)
  {
    assert tokens[..0] == [] && AddAll(START, maxLen, []) == Some(START);
    k := n - 1;
    if CannotClose(tokens[..n - 1], maxLen) {
      k := SomeTokenMisfits(tokens, maxLen, n - 1);
    } else {
      MisfitCannotClose(tokens, maxLen, n - 1);
    }
  }

  /** A message longer than the limit loses its markup exactly when some token of
      it cannot be placed. */
  lemma {:induction false} FallbackByToken(tokens: Tokens, maxLen: int)
    requires maxLen >= 5 && Size(tokens) > maxLen
    ensures SplitHtml(tokens, maxLen).value.Literal? <==> exists n :: 0 <= n < |tokens| && FirstMisfit(tokens, maxLen, n)
  {
    FallbackExactly(tokens, maxLen);
    if n :| 0 <= n <= |tokens| && CannotClose(tokens[..n], maxLen) {
      var k := SomeTokenMisfits(tokens, maxLen, n);
    } else {
      forall n | 0 <= n < |tokens| ensures !FirstMisfit(tokens, maxLen, n) {
        assert !CannotClose(tokens[..n + 1], maxLen) && !CannotClose(tokens[..n], maxLen);
        MisfitCannotClose(tokens, maxLen, n);
      }
    }
  }

  // Two special cases.

  predicate Plain(tokens: Tokens) {
    forall t :: t in tokens ==> t.Text? || t.Entity?
  }

  predicate Fits(c: Chunks, maxLen: int) {
    AllFit(c.done, maxLen) && Size(c.current) <= maxLen
  }

  lemma PlainFlush(c: Chunks, maxLen: int)
    requires c.stack == [] && maxLen > 0
    ensures Flush(c).stack == [] && Flush(c).current == []
    ensures Fits(Flush(c), maxLen) == Fits(c, maxLen)
  {
    if c.current != [] {
      assert c.current + ClosingTags([]) == c.current;
      assert Flush(c).done == c.done + [c.current];
      assert forall x :: x in Flush(c).done <==> x in c.done || x == c.current;
    }
  }

  /** Without open tags, text always fits unless it cannot be cut. */
  lemma {:induction false} PlainText(c: Chunks, maxLen: int, t: Token, whole: bool)
    requires c.stack == [] && maxLen > 0 && t.raw != ""
    ensures AddText(c, maxLen, t, whole).Some? && AddText(c, maxLen, t, whole).value.stack == []
    ensures Fits(AddText(c, maxLen, t, whole).value, maxLen) <==> Fits(c, maxLen) && !(whole && |t.raw| > maxLen)
    decreases |t.raw|, if Available(c, maxLen) <= 0 then 1 else 0
  {
    PlainFlush(c, maxLen);
    AppendSize(c, maxLen, t);
    AppendSize(Flush(c), maxLen, t);
    if |t.raw| <= Available(c, maxLen) {
    } else if whole {
    } else if Available(c, maxLen) <= 0 {
      PlainText(Flush(c), maxLen, t, whole);
    } else {
      var cut := Cut(t.raw, Available(c, maxLen));
      var head, tail := Text(t.raw[..cut]), Text(t.raw[cut..]);
      var longer := c.(current := c.current + [head]);
      AppendSize(c, maxLen, head);
      PlainFlush(longer, maxLen);
      PlainText(Flush(longer), maxLen, tail, whole);
    }
  }

  /** Text that may not be cut and does not fit into a chunk of its own. */
  predicate TooLong(t: Token, maxLen: int) {
    Indivisible(t.raw) && |t.raw| > maxLen
  }

  lemma {:induction false} PlainAll(c: Chunks, maxLen: int, tokens: Tokens)
    requires c.stack == [] && maxLen > 0 && Lexed(tokens) && Plain(tokens)
    ensures AddAll(c, maxLen, tokens).Some? && AddAll(c, maxLen, tokens).value.stack == []
    ensures Fits(AddAll(c, maxLen, tokens).value, maxLen) <==>
            Fits(c, maxLen) && forall t :: t in tokens ==> !TooLong(t, maxLen)
    decreases |tokens|
  {
    if tokens != [] {
      var t := tokens[0];
      assert t in tokens;
      PlainText(c, maxLen, t, Indivisible(t.raw));
      PlainAll(AddText(c, maxLen, t, Indivisible(t.raw)).value, maxLen, tokens[1..]);
      assert forall u :: u in tokens <==> u == t || u in tokens[1..];
    }
  }

  /** On input without supported tags the fallback is taken exactly when some
      uncuttable token is longer than a chunk. */
  lemma PlainFallbackExactly(tokens: Tokens, maxLen: int)
    requires maxLen >= 5 && Lexed(tokens) && Plain(tokens) && Size(tokens) > maxLen
    ensures SplitHtml(tokens, maxLen).value.Literal? <==> exists t :: t in tokens && TooLong(t, maxLen)
  {
    FallbackExactly(tokens, maxLen);
    if n :| 0 <= n <= |tokens| && CannotClose(tokens[..n], maxLen) {
      PlainAll(START, maxLen, tokens[..n]);
      var t :| t in tokens[..n] && TooLong(t, maxLen);
      assert t in tokens;
    } else {
      forall i | 0 <= i < |tokens| ensures !TooLong(tokens[i], maxLen) {
        LongTokenCannotClose(tokens, maxLen, i);
      }
    }
  }

  lemma LongTokenCannotClose(tokens: Tokens, maxLen: int, i: nat)
    requires maxLen > 0 && Lexed(tokens) && Plain(tokens) && i < |tokens| && !CannotClose(tokens[..i + 1], maxLen)
    ensures !TooLong(tokens[i], maxLen)
  {
    var t := tokens[i];
    assert tokens[..i + 1] == tokens[..i] + [t];
    AddAllAppend(START, maxLen, tokens[..i], [t]);
    PlainAll(START, maxLen, tokens[..i]);
    var c := AddAll(START, maxLen, tokens[..i]).value;
    OneToken(c, maxLen, t);
    PlainFlush(c, maxLen);
    AppendSize(Flush(c), maxLen, t);
  }

  /** The fallback is not only for markup that fills the budget: text and an
      opening tag that leave no room for the closing tag are enough, whatever
      follows. */
  lemma FallbackAtAnEdge(text: Token, tag: Token, rest: Tokens, maxLen: int)
    requires tag.Open? && text.Text? && text.raw != "" && maxLen >= 5
    requires |text.raw| + |tag.raw| <= maxLen < |text.raw| + |tag.raw| + |tag.name| + 3
    requires Size([text, tag] + rest) > maxLen
    ensures SplitHtml([text, tag] + rest, maxLen).value.Literal?
  {
    EdgeCannotClose(text, tag, maxLen);
    assert ([text, tag] + rest)[..2] == [text, tag];
    FallbackExactly([text, tag] + rest, maxLen);
  }

  lemma EdgeCannotClose(text: Token, tag: Token, maxLen: int)
    requires tag.Open? && text.Text? && text.raw != ""
    requires |text.raw| + |tag.raw| <= maxLen < |text.raw| + |tag.raw| + |tag.name| + 3
    ensures CannotClose([text, tag], maxLen)
  {
    var begun := Chunks([], [text], []);
    FirstTextIsTaken(text, maxLen);
    assert [text] + [tag] == [text, tag];
    OneToken(START, maxLen, text);
    AddAllAppend(START, maxLen, [text], [tag]);
    OneToken(begun, maxLen, tag);
    SizeOfOne(text);
    AppendSize(begun, maxLen, tag);
    var stack := [Tag(tag.name, tag.raw)];
    assert AddTag(begun, maxLen, tag) == Chunks([], [text, tag], stack);
    assert stack[..0] == [] && ClosingTags(stack) == [Close(tag.name, "</" + tag.name + ">")];
    SizeOfOne(ClosingTags(stack)[0]);
  }

  lemma FirstTextIsTaken(text: Token, maxLen: int)
    requires text.Text? && text.raw != "" && |text.raw| <= maxLen
    ensures Add(START, maxLen, text) == Some(Chunks([], [text], []))
  {
    assert START.current + [text] == [text] && Available(START, maxLen) == maxLen;
  }
}
