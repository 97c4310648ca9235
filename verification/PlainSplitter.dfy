/** Splitting plain text: `split_message` of bot/formatters/__init__.py. */
module PlainSplitter {
  import opened Common
  import opened Outcomes

  function LastLineBreak(text: string, cut: nat): (r: int)
    requires cut <= |text|
    ensures -1 <= r < cut
    ensures r >= 0 ==> text[r] == '\n'
    ensures forall i :: r < i < cut ==> text[i] != '\n'
  {
    if cut == 0 then -1 else if text[cut - 1] == '\n' then cut - 1 else LastLineBreak(text, cut - 1)
  }

  function StripBreaks(text: string): (r: string)
    ensures |r| <= |text|
    ensures r != "" ==> r[0] != '\n'
  {
    if text != "" && text[0] == '\n' then StripBreaks(text[1..]) else text
  }

  /** Where a text longer than a message is cut. */
  function CutAt(text: string, maxLen: nat): (r: nat)
    requires 0 < maxLen < |text|
    ensures 0 < r <= maxLen
  {
    var preferred := LastLineBreak(text, maxLen);
    if preferred > 0 then preferred else maxLen
  }

  function Pieces(text: string, maxLen: nat): seq<string>
    requires maxLen > 0
    decreases |text|
  {
    if text == "" then []
    else if |text| <= maxLen then [text]
    else [text[..CutAt(text, maxLen)]] + Pieces(StripBreaks(text[CutAt(text, maxLen)..]), maxLen)
  }

  /** `split_message` */
  method SplitMessage(text: string, maxLen: int) returns (r: Outcome<seq<string>>)
    ensures maxLen <= 0 ==> r.Raised?
    ensures maxLen > 0 ==> r == Returned(if text == "" then [""] else Pieces(text, maxLen))
  {
    if maxLen <= 0 { return Raised; }
    if |text| <= maxLen { return Returned([text]); }
    var parts: seq<string> := [];
    var rest := text;
    while rest != ""
      invariant parts + Pieces(rest, maxLen) == Pieces(text, maxLen)
      decreases |rest|
    {
      if |rest| <= maxLen {
        assert Pieces(rest, maxLen) == [rest];
        return Returned(parts + [rest]);
      }
      var cut := LastLineBreak(rest, maxLen);
      if cut <= 0 {
        cut := maxLen;
      }
      Associate(parts, [rest[..cut]], Pieces(StripBreaks(rest[cut..]), maxLen));
      parts := parts + [rest[..cut]];
      rest := StripBreaks(rest[cut..]);
    }
    assert parts + Pieces("", maxLen) == parts;
    return Returned(parts);
  }

  // Nothing but line breaks is lost.

  function Unbroken(text: string): string {
    if text == "" then "" else (if text[0] == '\n' then "" else [text[0]]) + Unbroken(text[1..])
  }

  function UnbrokenParts(parts: seq<string>): string {
    if parts == [] then "" else Unbroken(parts[0]) + UnbrokenParts(parts[1..])
  }

  lemma {:induction false} UnbrokenAppend(a: string, b: string)
    ensures Unbroken(a + b) == Unbroken(a) + Unbroken(b)
  {
    if a == "" {
      assert a + b == b;
    } else {
      assert (a + b)[1..] == a[1..] + b;
      UnbrokenAppend(a[1..], b);
    }
  }

  lemma {:induction false} StrippedUnbroken(text: string)
    ensures Unbroken(StripBreaks(text)) == Unbroken(text)
  {
    if text != "" && text[0] == '\n' {
      StrippedUnbroken(text[1..]);
    }
  }

  /** All parts fit and none is empty. */
  lemma {:induction false} PiecesFit(text: string, maxLen: nat)
    requires maxLen > 0
    ensures forall p :: p in Pieces(text, maxLen) ==> 0 < |p| <= maxLen
    decreases |text|
  {
    if |text| > maxLen {
      PiecesFit(StripBreaks(text[CutAt(text, maxLen)..]), maxLen);
    }
  }

  /** Together the parts show every character but line breaks, in order. */
  lemma {:induction false} PiecesKeepText(text: string, maxLen: nat)
    requires maxLen > 0
    ensures UnbrokenParts(Pieces(text, maxLen)) == Unbroken(text)
    decreases |text|
  {
    if |text| > maxLen {
      var cut := CutAt(text, maxLen);
      PiecesKeepText(StripBreaks(text[cut..]), maxLen);
      StrippedUnbroken(text[cut..]);
      UnbrokenAppend(text[..cut], text[cut..]);
      assert text[..cut] + text[cut..] == text;
      FirstOfParts(text[..cut], Pieces(StripBreaks(text[cut..]), maxLen));
    } else if text != "" {
      FirstOfParts(text, []);
    }
  }

  lemma FirstOfParts(part: string, parts: seq<string>)
    ensures UnbrokenParts([part] + parts) == Unbroken(part) + UnbrokenParts(parts)
    ensures UnbrokenParts([part]) == Unbroken(part)
  {
    assert ([part] + parts)[1..] == parts;
    assert [part][1..] == [];
  }

  // Lines stay whole.

  function LineEnd(text: string): (n: nat)
    ensures n <= |text|
    ensures forall i :: 0 <= i < n ==> text[i] != '\n'
    ensures n < |text| ==> text[n] == '\n'
  {
    if text == "" || text[0] == '\n' then 0 else 1 + LineEnd(text[1..])
  }

  /** The lines of a text that are not empty. */
  function LinesOf(text: string): seq<string>
    decreases |text|
  {
    if text == "" then []
    else if text[0] == '\n' then LinesOf(text[1..])
    else [text[..LineEnd(text)]] + LinesOf(text[LineEnd(text)..])
  }

  function LinesOfParts(parts: seq<string>): seq<string> {
    if parts == [] then [] else LinesOf(parts[0]) + LinesOfParts(parts[1..])
  }

  lemma {:induction false} LinesAppend(a: string, b: string)
    requires b == "" || b[0] == '\n'
    ensures LinesOf(a + b) == LinesOf(a) + LinesOf(b)
    decreases |a|
  {
    if a == "" {
      assert a + b == b;
    } else if a[0] == '\n' {
      assert (a + b)[1..] == a[1..] + b;
      LinesAppend(a[1..], b);
    } else {
      var n := LineEnd(a);
      SameLineEnd(a, b);
      assert (a + b)[n..] == a[n..] + b && (a + b)[..n] == a[..n];
      LinesAppend(a[n..], b);
    }
  }

  lemma {:induction false} SameLineEnd(a: string, b: string)
    requires b == "" || b[0] == '\n'
    ensures LineEnd(a + b) == LineEnd(a)
    decreases |a|
  {
    if a == "" {
      assert a + b == b;
    } else {
      assert (a + b)[1..] == a[1..] + b;
      SameLineEnd(a[1..], b);
    }
  }

  lemma {:induction false} StrippedLines(text: string)
    ensures LinesOf(StripBreaks(text)) == LinesOf(text)
  {
    if text != "" && text[0] == '\n' {
      StrippedLines(text[1..]);
    }
  }

  lemma FirstLineIsShort(text: string, limit: nat)
    requires text != "" && limit > 0 && forall line :: line in LinesOf(text) ==> |line| < limit
    ensures LineEnd(text) < limit
  {
    if text[0] != '\n' {
      assert LinesOf(text)[0] == text[..LineEnd(text)];
    }
  }

  /** Among short lines every cut is at a line break. */
  lemma CutsAtBreaks(text: string, maxLen: nat)
    requires 0 < maxLen < |text| && forall line :: line in LinesOf(text) ==> |line| < maxLen
    ensures text[CutAt(text, maxLen)] == '\n'
  {
    var skipped := if text[0] == '\n' then 1 else 0;
    FirstLineIsShort(text[skipped..], maxLen);
    var end := skipped + LineEnd(text[skipped..]);
    assert end < |text| ==> text[end] == '\n';
  }

  /** A line shorter than a message is never broken: the lines of the parts are
      the lines of the text. */
  lemma {:induction false} LinesStayWhole(text: string, maxLen: nat)
    requires maxLen > 0 && forall line :: line in LinesOf(text) ==> |line| < maxLen
    ensures LinesOfParts(Pieces(text, maxLen)) == LinesOf(text)
    decreases |text|
  {
    if |text| > maxLen {
      var cut := CutAt(text, maxLen);
      CutsAtBreaks(text, maxLen);
      LinesAppend(text[..cut], text[cut..]);
      assert text[..cut] + text[cut..] == text;
      StrippedLines(text[cut..]);
      LinesStayWhole(StripBreaks(text[cut..]), maxLen);
    } else if text != "" {
      assert Pieces(text, maxLen)[1..] == [];
    }
  }

  // Parts are as long as possible.

  lemma {:induction false} PrefixLineEnd(text: string, n: nat)
    requires n <= |text|
    ensures LineEnd(text[..n]) == if LineEnd(text) <= n then LineEnd(text) else n
  {
    if n > 0 && text[0] != '\n' {
      assert text[..n][1..] == text[1..][..n - 1];
      PrefixLineEnd(text[1..], n - 1);
    }
  }

  lemma OneBreakIsStripped(text: string)
    requires |text| > 1 && text[0] == '\n' && text[1] != '\n'
    ensures StripBreaks(text) == text[1..]
  {
    var rest := text[1..];
    assert rest[0] != '\n';
    assert StripBreaks(rest) == rest;
  }

  predicate OneLine(text: string) {
    forall i :: 0 <= i < |text| ==> text[i] != '\n'
  }

  /** A part and the next one: either the part fills the message and has no line
      break after its first character to end at, or the next line would not have
      fitted behind it. */
  predicate Full(part: string, next: string, maxLen: nat) {
    || (|part| == maxLen > 0 && OneLine(part[1..]))
    || |part| + 1 + LineEnd(next) >= maxLen
  }

  lemma FirstIsFull(text: string, maxLen: nat)
    requires 0 < maxLen < |text|
    ensures var rest := StripBreaks(text[CutAt(text, maxLen)..]);
      rest != "" ==> Full(text[..CutAt(text, maxLen)], Pieces(rest, maxLen)[0], maxLen)
  {
    var cut := CutAt(text, maxLen);
    var rest := StripBreaks(text[cut..]);
    if LastLineBreak(text, maxLen) > 0 && cut + 1 < maxLen {
      assert text[cut..][1..] == text[cut + 1..];
      OneBreakIsStripped(text[cut..]);
      assert LineEnd(rest) >= maxLen - cut - 1;
      PrefixLineEnd(rest, if |rest| <= maxLen then |rest| else CutAt(rest, maxLen));
      if |rest| <= maxLen {
        assert rest[..|rest|] == rest;
      }
    }
  }

  /** No part could have held its next line too, and no line is broken early. */
  lemma {:induction false} PartsAreFull(text: string, maxLen: nat, i: nat)
    requires maxLen > 0 && i + 1 < |Pieces(text, maxLen)|
    ensures Full(Pieces(text, maxLen)[i], Pieces(text, maxLen)[i + 1], maxLen)
    decreases |text|
  {
    var rest := StripBreaks(text[CutAt(text, maxLen)..]);
    if i == 0 {
      FirstIsFull(text, maxLen);
    } else {
      PartsAreFull(rest, maxLen, i - 1);
    }
  }
}
