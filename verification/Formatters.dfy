/** Splitting Telegram messages: bot/formatters/__init__.py, from lexed tokens. */
module Formatters {
  import opened Outcomes

  /** What the token pattern of the splitter yields: supported tags with their
      source text, entities, and everything else as text. */
  datatype Token =
    | Open(name: string, raw: string)
    | Close(name: string, raw: string)
    | Entity(raw: string)
    | Text(raw: string)

  type Tokens = seq<Token>

  /** An open tag on the stack: its name and its source text. */
  datatype Tag = Tag(name: string, raw: string)
  type Stack = seq<Tag>

  /** Names and texts as the patterns produce them. */
  predicate Lexed(tokens: Tokens) {
    forall t :: t in tokens ==> t.raw != "" && (t.Entity? ==> Indivisible(t.raw))
  }

  /** The chunker's own test for something it must not cut. */
  predicate Indivisible(raw: string) {
    raw != "" && raw[0] == '&' && raw[|raw| - 1] == ';'
  }

  function Raw(tokens: Tokens): string {
    if tokens == [] then "" else tokens[0].raw + Raw(tokens[1..])
  }

  function Size(tokens: Tokens): nat {
    if tokens == [] then 0 else |tokens[0].raw| + Size(tokens[1..])
  }

  // What a client shows.

  /** One visible element: a character, or an entity that must stay whole. */
  datatype Glyph = Char(c: char) | Whole(raw: string)

  /** A glyph with the open tags around it, attributes included. */
  datatype Shown = Shown(glyph: Glyph, tags: Stack)

  /** A closing tag ends the innermost open tag of its name, if there is one. */
  function Unwind(stack: Stack, name: string): Stack {
    if stack == [] then []
    else if stack[|stack| - 1].name == name then stack[..|stack| - 1]
    else Unwind(stack[..|stack| - 1], name) + [stack[|stack| - 1]]
  }

  function Apply(stack: Stack, t: Token): Stack {
    match t
    case Open(name, raw) => stack + [Tag(name, raw)]
    case Close(name, _) => Unwind(stack, name)
    case _ => stack
  }

  function StackAfter(tokens: Tokens, stack: Stack): Stack {
    if tokens == [] then stack else StackAfter(tokens[1..], Apply(stack, tokens[0]))
  }

  function ShowText(raw: string, stack: Stack): seq<Shown> {
    if raw == "" then [] else [Shown(Char(raw[0]), stack)] + ShowText(raw[1..], stack)
  }

  function ShowToken(t: Token, stack: Stack): seq<Shown> {
    match t
    case Entity(raw) => [Shown(Whole(raw), stack)]
    case Text(raw) => ShowText(raw, stack)
    case _ => []
  }

  function Render(tokens: Tokens, stack: Stack): seq<Shown> {
    if tokens == [] then []
    else ShowToken(tokens[0], stack) + Render(tokens[1..], Apply(stack, tokens[0]))
  }

  /** Chunks are separate messages: each starts with no open tag. */
  function RenderAll(chunks: seq<Tokens>): seq<Shown> {
    if chunks == [] then [] else RenderAll(chunks[..|chunks| - 1]) + Render(chunks[|chunks| - 1], [])
  }

  /** Every closing tag meets the tag opened last. */
  predicate WellNested(tokens: Tokens, stack: Stack) {
    tokens != [] ==>
    && (tokens[0].Close? ==> stack != [] && stack[|stack| - 1].name == tokens[0].name)
    && WellNested(tokens[1..], Apply(stack, tokens[0]))
  }

  // The chunker.

  datatype Chunks = Chunks(done: seq<Tokens>, current: Tokens, stack: Stack)

  const START := Chunks([], [], [])

  function ClosingTags(stack: Stack): Tokens {
    if stack == [] then []
    else [Close(stack[|stack| - 1].name, "</" + stack[|stack| - 1].name + ">")] + ClosingTags(stack[..|stack| - 1])
  }

  function OpeningTags(stack: Stack): Tokens {
    if stack == [] then []
    else OpeningTags(stack[..|stack| - 1]) + [Open(stack[|stack| - 1].name, stack[|stack| - 1].raw)]
  }

  function Available(c: Chunks, maxLen: int): int {
    maxLen - Size(c.current) - Size(ClosingTags(c.stack))
  }

  function Flush(c: Chunks): Chunks {
    if c.current == [] then c
    else Chunks(c.done + [c.current + ClosingTags(c.stack)], OpeningTags(c.stack), c.stack)
  }

  function AddTag(c: Chunks, maxLen: int, t: Token): Chunks {
    var base := if |t.raw| > Available(c, maxLen) then Flush(c) else c;
    base.(current := base.current + [t], stack := Apply(base.stack, t))
  }

  /** The last space or line break before `cut`, or -1. */
  function LastBreak(raw: string, cut: nat): (r: int)
    requires cut <= |raw|
    ensures -1 <= r < cut
  {
    if cut == 0 then -1
    else if raw[cut - 1] == '\n' || raw[cut - 1] == ' ' then cut - 1
    else LastBreak(raw, cut - 1)
  }

  function Cut(raw: string, available: int): (r: nat)
    requires 0 < available < |raw|
    ensures 0 < r <= available
  {
    var preferred := LastBreak(raw, available);
    if preferred > 0 then preferred + 1 else available
  }

  /** None when the markup alone fills a chunk. `whole`, decided once for the
      token, forbids cutting it. */
  function AddText(c: Chunks, maxLen: int, t: Token, whole: bool): Option<Chunks>
    decreases |t.raw|, if Available(c, maxLen) <= 0 then 1 else 0
  {
    if t.raw == "" then Some(c)
    else if |t.raw| <= Available(c, maxLen) then Some(c.(current := c.current + [t]))
    else if whole then
      var flushed := Flush(c);
      Some(flushed.(current := flushed.current + [t]))
    else if Available(c, maxLen) <= 0 then
      if Available(Flush(c), maxLen) <= 0 then None else AddText(Flush(c), maxLen, t, whole)
    else
      var cut := Cut(t.raw, Available(c, maxLen));
      AddText(Flush(c.(current := c.current + [Text(t.raw[..cut])])), maxLen, Text(t.raw[cut..]), whole)
  }

  function Add(c: Chunks, maxLen: int, t: Token): Option<Chunks> {
    if t.Open? || t.Close? then Some(AddTag(c, maxLen, t)) else AddText(c, maxLen, t, Indivisible(t.raw))
  }

  function AddAll(c: Chunks, maxLen: int, tokens: Tokens): Option<Chunks>
    decreases |tokens|
  {
    if tokens == [] then Some(c)
    else match Add(c, maxLen, tokens[0])
      case None => None
      case Some(next) => AddAll(next, maxLen, tokens[1..])
  }

  function Finish(c: Chunks): seq<Tokens> {
    if c.current == [] then c.done else c.done + [c.current + ClosingTags(c.stack)]
  }

  // The literal fallback.

  function Encode(c: char): (r: string)
    ensures 1 <= |r| <= 5
  {
    if c == '&' then "&amp;" else if c == '<' then "&lt;" else if c == '>' then "&gt;" else [c]
  }

  function Escape(text: string): string {
    if text == "" then "" else Encode(text[0]) + Escape(text[1..])
  }

  function Unescape(text: string): string {
    if text == "" then ""
    else if "&amp;" <= text then "&" + Unescape(text[5..])
    else if "&lt;" <= text then "<" + Unescape(text[4..])
    else if "&gt;" <= text then ">" + Unescape(text[4..])
    else [text[0]] + Unescape(text[1..])
  }

  function Concat(parts: seq<string>): string {
    if parts == [] then "" else Concat(parts[..|parts| - 1]) + parts[|parts| - 1]
  }

  /** Chunks of escaped text: `text` from here on, with `current` begun. */
  function EscapedFrom(done: seq<string>, current: string, text: string, maxLen: int): seq<string>
    decreases |text|
  {
    if text == "" then (if current == "" then done else done + [current])
    else
      var encoded := Encode(text[0]);
      if |current| + |encoded| > maxLen then EscapedFrom(done + [current], encoded, text[1..], maxLen)
      else EscapedFrom(done, current + encoded, text[1..], maxLen)
  }

  // `split_html_message`

  /** Either chunks of tokens or literal text. */
  datatype Split = Kept(chunks: seq<Tokens>) | Literal(parts: seq<string>) {

    function Parts(): seq<string> {
      if Literal? then parts else seq(|chunks|, i requires 0 <= i < |chunks| => Raw(chunks[i]))
    }
  }

  predicate AllFit(chunks: seq<Tokens>, maxLen: int) {
    forall c :: c in chunks ==> Size(c) <= maxLen
  }

  function SplitHtml(tokens: Tokens, maxLen: int): Outcome<Split> {
    if maxLen < 5 then Raised
    else if Size(tokens) <= maxLen then Returned(Kept([tokens]))
    else
      var literal := Literal(EscapedFrom([], "", Raw(tokens), maxLen));
      match AddAll(START, maxLen, tokens)
      case None => Returned(literal)
      case Some(c) => Returned(if AllFit(Finish(c), maxLen) then Kept(Finish(c)) else literal)
  }
}
