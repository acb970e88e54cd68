/** Spans over a source text (src/lexing/span.ts) and the spans of whole
    lines (src/lexing/line.span.ts), which exclude their line break.

    The source text's line and column lookup and its token index are not
    part of this model: they appear as given functions and as the index
    the caller supplies. */
module LexingSpan {
  import opened Common
  import opened LexingLexer

  /** The parts of a source text that spans read. */
  datatype SourceText = SourceText(text: string, lineNumber: nat -> nat, columnNumber: nat -> nat)

  datatype Span = Span(start: nat, end: nat)

  /** `Span.text`: the covered text, or "" for a span that is empty or
      reversed. */
  function SpanText(source: SourceText, span: Span): (r: string)
    ensures span.start < span.end <= |source.text| ==> r == source.text[span.start..span.end]
    ensures span.end <= span.start ==> r == ""
    ensures |r| <= |source.text|
  {
    if span.start < span.end then Substring(source.text, span.start, span.end) else ""
  }

  /** `line`: the source text's line number of the span's start. */
  function Line(source: SourceText, span: Span): nat
  {
    source.lineNumber(span.start)
  }

  /** `column`: the source text's column number of the span's start. */
  function Column(source: SourceText, span: Span): nat
  {
    source.columnNumber(span.start)
  }

  /** Line and column are determined by where the span starts alone. */
  lemma LineAndColumnFollowStart(source: SourceText, a: Span, b: Span)
    requires a.start == b.start
    ensures Line(source, a) == Line(source, b) && Column(source, a) == Column(source, b)
  {
  }

  /** A line: `[start, end)` includes the line break, whose length is
      `lineBreakLength`. */
  datatype LineSpan = LineSpan(start: nat, end: nat, lineBreakLength: nat)

  /** `LineSpan.text`: JavaScript `substring(start, end - lineBreakLength)`. */
  function LineText(source: SourceText, line: LineSpan): (r: string)
    ensures line.start <= line.end - line.lineBreakLength <= |source.text| ==>
      r == source.text[line.start..line.end - line.lineBreakLength]
  {
    Substring(source.text, line.start, line.end - line.lineBreakLength)
  }

  /** `LineSpan.length`: what the line covers less its line break, never
      negative when the break fits in the line. */
  function LineLength(line: LineSpan): (r: int)
    ensures r + line.lineBreakLength == line.end - line.start
    ensures line.start + line.lineBreakLength <= line.end ==> 0 <= r <= line.end - line.start
  {
    line.end - line.start - line.lineBreakLength
  }

  /** The length of a line is the length of its text, which leaves the
      line break out. */
  lemma LineLengthIsTextLength(source: SourceText, line: LineSpan)
    requires line.start <= line.end - line.lineBreakLength <= |source.text|
    ensures |LineText(source, line)| == LineLength(line)
    ensures LineLength(line) + line.lineBreakLength == line.end - line.start
  {
  }

  /** The token `getTokens` yields for `t`: unchanged when it lies within
      the line, otherwise clipped to the line without its break. */
  function Clip(line: LineSpan, t: Token): (r: Token)
    requires line.lineBreakLength <= line.end
    ensures r.kind == t.kind
    ensures line.start <= t.start && t.end <= line.end ==> r == t
    ensures !(line.start <= t.start && t.end <= line.end) ==>
      r.start == Max(line.start, t.start) && r.end == Min(line.end - line.lineBreakLength, t.end)
  {
    if line.start <= t.start && t.end <= line.end then t
    else Token(t.kind, Max(line.start, t.start), Min(line.end - line.lineBreakLength, t.end))
  }

  function Max(a: nat, b: nat): nat { if a < b then b else a }
  function Min(a: nat, b: nat): nat { if a < b then a else b }

  predicate EndsLine(t: Token) { t.kind == LineBreakTrivia || t.kind == EndOfFileToken }

  /** The tokens of a line, from the token at `index` up to the first line
      break or end-of-file token, or the end of the array. */
  function LineTokens(line: LineSpan, tokens: seq<Token>, index: nat): seq<Token>
    requires index < |tokens| && line.lineBreakLength <= line.end
    decreases |tokens| - index
  {
    if EndsLine(tokens[index]) then []
    else [Clip(line, tokens[index])] + if index + 1 < |tokens| then LineTokens(line, tokens, index + 1) else []
  }

  /** `r` is what the walk yields from `rest`, the tokens from its starting
      index on: the `i`-th element comes from the `i`-th token, and none of
      those tokens ends the line. */
  predicate YieldedFrom(line: LineSpan, rest: seq<Token>, r: seq<Token>)
    requires line.lineBreakLength <= line.end
  {
    && |r| <= |rest|
    && forall i | 0 <= i < |r| :: !EndsLine(rest[i]) && r[i] == Clip(line, rest[i])
  }

  /** What `getTokens` yields, token by token, and that the walk stops at
      the first token that ends the line. */
  lemma {:induction false} LineTokensWalk(line: LineSpan, tokens: seq<Token>, index: nat)
    requires index < |tokens| && line.lineBreakLength <= line.end
    ensures YieldedFrom(line, tokens[index..], LineTokens(line, tokens, index))
    ensures index + |LineTokens(line, tokens, index)| < |tokens| ==>
      EndsLine(tokens[index + |LineTokens(line, tokens, index)|])
    decreases |tokens| - index
  {
    var r := LineTokens(line, tokens, index);
    if !EndsLine(tokens[index]) && index + 1 < |tokens| {
      LineTokensWalk(line, tokens, index + 1);
      var rest := LineTokens(line, tokens, index + 1);
      assert r == [Clip(line, tokens[index])] + rest;
      assert tokens[index..] == [tokens[index]] + tokens[index + 1..];
    }
  }

  /** `LineSpan.getTokens`: the `do`/`while` walk from the token index of
      the line's start. */
  method GetTokens(line: LineSpan, tokens: seq<Token>, index: nat) returns (yielded: seq<Token>)
    requires index < |tokens| && line.lineBreakLength <= line.end
    ensures yielded == LineTokens(line, tokens, index)
  {
    var i := index;
    yielded := [];
    while true
      invariant index <= i < |tokens|
      invariant yielded + LineTokens(line, tokens, i) == LineTokens(line, tokens, index)
      decreases |tokens| - i
    {
      var token := tokens[i];
      if EndsLine(token) {
        break;
      }
      ghost var rest := if i + 1 < |tokens| then LineTokens(line, tokens, i + 1) else [];
      assert LineTokens(line, tokens, i) == [Clip(line, token)] + rest;
      AppendAssociative(yielded, [Clip(line, token)], rest);
      yielded := yielded + [Clip(line, token)];
      i := i + 1;
      if !(i < |tokens|) {
        break;
      }
    }
  }
}
