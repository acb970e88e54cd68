/** The lexer of src/analysis/lexer.ts.

    Like the lexer of src/CodeAnalysis/Parser/Lexer.ts it classifies the
    current character through a table, but it folds three composite tokens
    (`->`, `>>`, `::`), ends `#` comments at a line break, and gives every
    token the span `[Start, End)`; each call starts where the previous one
    ended.

    The `SyntaxFacts` tables are not part of this model: they are the
    parameter `Facts`, of which the lexer needs only that the empty string
    (what `charAt` returns past the end) is classified as end of file. The
    kinds the lexer never names itself are `Other` kinds of the table. */
module AnalysisLexer {
  import opened Common

  datatype Kind =
    | EndOfFileToken | BadToken | HashToken | MinusToken | GreaterToken | ColonToken
    | DotToken | LineBreakTrivia | CommentTrivia | SpaceTrivia | NumberToken
    | PointerToken | GreaterGreaterToken | ColonColonToken
    | Other(name: string)

  /** `SyntaxFacts.SyntaxKind` and `SyntaxFacts.KeywordOrIdentifer`. */
  datatype Facts = Facts(kind: string -> Kind, keywordOrIdentifier: string -> Kind)

  predicate Agrees(facts: Facts)
  {
    facts.kind("") == EndOfFileToken
  }

  datatype SyntaxToken = SyntaxToken(kind: Kind, text: string, start: nat, end: nat)

  datatype Diagnostic = BadTokenFound(character: string) | BadFloatingPointNumber

  predicate IsLetter(c: string) { |c| > 0 && c[0] in Letters }
  predicate IsDigit(c: string) { |c| > 0 && c[0] in Digits }
  predicate IsSpace(c: string) { c == " " || c == "\t" || c == "\r" }

  predicate IsLetterChar(c: char) { c in Letters }
  predicate IsDigitChar(c: char) { c in Digits }
  predicate IsSpaceChar(c: char) { c in Spaces }

  /** `Match(k1, …, kn)` at `p`. */
  predicate MatchesAt(facts: Facts, text: string, p: nat, kinds: seq<Kind>)
    decreases |kinds|
  {
    kinds == [] || (facts.kind(CharAt(text, p)) == kinds[0] && MatchesAt(facts, text, p + 1, kinds[1..]))
  }

  lemma MatchesOne(facts: Facts, text: string, p: nat, k: Kind)
    ensures MatchesAt(facts, text, p, [k]) <==> facts.kind(CharAt(text, p)) == k
  {
    assert [k][1..] == [];
  }

  /** The first position from `p` on whose character is a line break or the
      end of the input. */
  function CommentEnd(facts: Facts, text: string, p: nat): (e: nat)
    requires Agrees(facts) && 0 < p <= |text|
    ensures p <= e <= |text|
    decreases |text| - p
  {
    if facts.kind(CharAt(text, p)) in {LineBreakTrivia, EndOfFileToken} then p
    else CommentEnd(facts, text, p + 1)
  }

  /** One step of `CommentEnd`. */
  lemma CommentEndAt(facts: Facts, text: string, p: nat)
    requires Agrees(facts) && 0 < p <= |text|
    ensures facts.kind(CharAt(text, p)) in {LineBreakTrivia, EndOfFileToken} ==> CommentEnd(facts, text, p) == p
    ensures facts.kind(CharAt(text, p)) !in {LineBreakTrivia, EndOfFileToken} ==>
      p < |text| && CommentEnd(facts, text, p) == CommentEnd(facts, text, p + 1)
  {
  }

  /** A comment stops at the first line break or end of input after its
      `#`, and at nothing before it. */
  lemma {:induction false} CommentEndStops(facts: Facts, text: string, p: nat)
    requires Agrees(facts) && 0 < p <= |text|
    ensures var e := CommentEnd(facts, text, p);
      && facts.kind(CharAt(text, e)) in {LineBreakTrivia, EndOfFileToken}
      && forall i | p <= i < e :: facts.kind(CharAt(text, i)) !in {LineBreakTrivia, EndOfFileToken}
    decreases |text| - p
  {
    if facts.kind(CharAt(text, p)) !in {LineBreakTrivia, EndOfFileToken} {
      CommentEndStops(facts, text, p + 1);
    }
  }

  function NumberEnd(facts: Facts, text: string, s: nat): (r: (nat, bool))
    requires s < |text| && IsDigitChar(text[s])
    ensures s < r.0 <= |text|
  {
    var d := RunEnd(text, s, Digits);
    if facts.kind(CharAt(text, d)) == DotToken && d < |text| then
      (RunEnd(text, d + 1, Digits), !IsDigit(CharAt(text, d + 1)))
    else (d, false)
  }

  /** One call of `Lex` from `Start == s`: the token's kind, the final `End`,
      the diagnostics, and the final value of the `Kind` field. */
  datatype Step = Step(kind: Kind, next: nat, diagnostics: seq<Diagnostic>, kindField: Kind)

  /** `LexBadToken`: a character the table does not recognise. */
  function UnclassifiedStep(facts: Facts, text: string, s: nat): (r: Step)
    requires Agrees(facts) && facts.kind(CharAt(text, s)) == BadToken
    ensures s < r.next <= |text| && r.kindField == BadToken
  {
    var c := CharAt(text, s);
    if IsLetter(c) then
      var e := RunEnd(text, s, Letters);
      Step(facts.keywordOrIdentifier(text[s..e]), e, [], BadToken)
    else if IsDigit(c) then
      var (e, bad) := NumberEnd(facts, text, s);
      Step(NumberToken, e, if bad then [BadFloatingPointNumber] else [], BadToken)
    else if IsSpace(c) then
      Step(SpaceTrivia, RunEnd(text, s, Spaces), [], BadToken)
    else Step(BadToken, s + 1, [BadTokenFound(c)], BadToken)
  }

  /** `LexMinusToken`, `LexGreaterGreaterToken` and `LexColonColonToken`:
      `single` followed by a character of kind `second` folds into
      `composite`. */
  function CompositeStep(facts: Facts, text: string, s: nat, single: Kind, second: Kind, composite: Kind): (r: Step)
    ensures r.kind == r.kindField && r.diagnostics == []
  {
    if facts.kind(CharAt(text, s + 1)) == second then Step(composite, s + 2, [], composite)
    else Step(single, s + 1, [], single)
  }

  function Scan(facts: Facts, text: string, s: nat): (r: Step)
    requires Agrees(facts)
    ensures s < r.next
    ensures s < |text| ==> r.next <= |text|
    ensures s >= |text| ==> r == Step(EndOfFileToken, s + 1, [], EndOfFileToken)
  {
    var k := facts.kind(CharAt(text, s));
    match k
    case BadToken => UnclassifiedStep(facts, text, s)
    case HashToken => Step(CommentTrivia, CommentEnd(facts, text, s + 1), [], k)
    case MinusToken => CompositeStep(facts, text, s, MinusToken, GreaterToken, PointerToken)
    case GreaterToken => CompositeStep(facts, text, s, GreaterToken, GreaterToken, GreaterGreaterToken)
    case ColonToken => CompositeStep(facts, text, s, ColonToken, ColonToken, ColonColonToken)
    case _ => Step(k, s + 1, [], k)
  }

  function TokenAt(facts: Facts, text: string, s: nat): SyntaxToken
    requires Agrees(facts)
  {
    var step := Scan(facts, text, s);
    SyntaxToken(step.kind, Substring(text, s, step.next), s, step.next)
  }

  /** `->`, `>>` and `::` are single tokens of width two; their first
      character alone is a token of width one. */
  lemma ScanComposite(facts: Facts, text: string, s: nat)
    requires Agrees(facts)
    ensures var k := facts.kind(CharAt(text, s)); var k2 := facts.kind(CharAt(text, s + 1));
      var t := TokenAt(facts, text, s);
      && (k == MinusToken ==> t.kind == (if k2 == GreaterToken then PointerToken else MinusToken))
      && (k == GreaterToken ==> t.kind == (if k2 == GreaterToken then GreaterGreaterToken else GreaterToken))
      && (k == ColonToken ==> t.kind == (if k2 == ColonToken then ColonColonToken else ColonToken))
      && (k in {MinusToken, GreaterToken, ColonToken} ==>
            t.end == (if t.kind in {PointerToken, GreaterGreaterToken, ColonColonToken} then s + 2 else s + 1)
            && t.text == text[s..t.end])
  {
  }

  /** A comment takes at least one character and stops before the first
      line break or at the end of the input. */
  lemma ScanComment(facts: Facts, text: string, s: nat)
    requires Agrees(facts) && facts.kind(CharAt(text, s)) == HashToken
    ensures s < |text|
    ensures var t := TokenAt(facts, text, s);
      && t.kind == CommentTrivia && s < t.end <= |text| && t.text == text[s..t.end]
      && facts.kind(CharAt(text, t.end)) in {LineBreakTrivia, EndOfFileToken}
      && forall i | s < i < t.end :: facts.kind(CharAt(text, i)) !in {LineBreakTrivia, EndOfFileToken}
  {
    assert CharAt(text, s) != "";
    CommentEndStops(facts, text, s + 1);
  }

  /** A character the table does not recognise is tried as a letter, a
      digit and a space, in that order; anything else is reported and
      becomes a one-character bad token. */
  lemma ScanUnclassified(facts: Facts, text: string, s: nat)
    requires Agrees(facts) && facts.kind(CharAt(text, s)) == BadToken
    ensures s < |text|
    ensures var c := CharAt(text, s); var step := Scan(facts, text, s);
      && (IsLetter(c) ==>
            && (forall i | s <= i < step.next :: IsLetterChar(text[i]))
            && (step.next == |text| || !IsLetterChar(text[step.next]))
            && step.kind == facts.keywordOrIdentifier(text[s..step.next]))
      && (!IsLetter(c) && IsDigit(c) ==> step.kind == NumberToken)
      && (!IsLetter(c) && !IsDigit(c) && IsSpace(c) ==>
            && step.kind == SpaceTrivia
            && (forall i | s <= i < step.next :: IsSpaceChar(text[i]))
            && (step.next == |text| || !IsSpaceChar(text[step.next])))
      && (!IsLetter(c) && !IsDigit(c) && !IsSpace(c) ==>
            step == Step(BadToken, s + 1, [BadTokenFound(c)], BadToken))
  {
  }

  /** A number with a dot and no digit after it is reported and is still a
      number token that includes the dot. */
  lemma ScanNumber(facts: Facts, text: string, s: nat)
    requires Agrees(facts) && facts.kind(CharAt(text, s)) == BadToken
    requires !IsLetter(CharAt(text, s)) && IsDigit(CharAt(text, s))
    ensures var step := Scan(facts, text, s); var d := RunEnd(text, s, Digits);
      && step.kind == NumberToken
      && (facts.kind(CharAt(text, d)) == DotToken && d < |text| ==>
            && step.next == RunEnd(text, d + 1, Digits)
            && d + 1 <= step.next
            && (step.diagnostics == [BadFloatingPointNumber] <==> !IsDigit(CharAt(text, d + 1))))
      && (!(facts.kind(CharAt(text, d)) == DotToken && d < |text|) ==> step.next == d && step.diagnostics == [])
  {
  }

  /** Every other kind of the table, end of file included, takes exactly
      one character. */
  lemma ScanOtherKind(facts: Facts, text: string, s: nat)
    requires Agrees(facts)
    requires facts.kind(CharAt(text, s)) !in {BadToken, HashToken, MinusToken, GreaterToken, ColonToken}
    ensures TokenAt(facts, text, s) == SyntaxToken(facts.kind(CharAt(text, s)), Substring(text, s, s + 1), s, s + 1)
  {
  }

  /** The tokens of successive `Lex` calls from `s` up to and including the
      first one that reaches the end of the input. */
  function Tokens(facts: Facts, text: string, s: nat): seq<SyntaxToken>
    requires Agrees(facts) && s <= |text|
    decreases |text| - s
  {
    var step := Scan(facts, text, s);
    if s == |text| then [TokenAt(facts, text, s)]
    else [TokenAt(facts, text, s)] + Tokens(facts, text, step.next)
  }

  /** The tokens tile the input: the first starts at `s`, each starts where
      the previous one ended, every token but the last is non-empty and
      carries exactly the text of its span, and the last is the end-of-file
      token just past the input. */
  lemma {:induction false} TokensTile(facts: Facts, text: string, s: nat)
    requires Agrees(facts) && s <= |text|
    ensures var ts := Tokens(facts, text, s);
      && ts[0].start == s
      && (forall i | 0 <= i < |ts| - 1 :: ts[i].end == ts[i + 1].start)
      && (forall i | 0 <= i < |ts| - 1 :: ts[i].start < ts[i].end <= |text| && ts[i].text == text[ts[i].start..ts[i].end])
      && ts[|ts| - 1] == SyntaxToken(EndOfFileToken, "", |text|, |text| + 1)
    decreases |text| - s
  {
    var ts := Tokens(facts, text, s);
    if s < |text| {
      var next := Scan(facts, text, s).next;
      TokensTile(facts, text, next);
      assert ts[1..] == Tokens(facts, text, next);
    }
  }

  class Lexer {
    const input: string
    const facts: Facts
    var kind: Kind
    var end: nat
    var start: nat
    var diagnostics: seq<Diagnostic>

    ghost predicate Valid()
      reads this
    {
      Agrees(facts) && start <= end
    }

    constructor (source: string, table: Facts, bag: seq<Diagnostic>)
      requires Agrees(table)
      ensures Valid() && input == source && facts == table
      ensures kind == EndOfFileToken && end == 0 && start == 0 && diagnostics == bag
    {
      input, facts := source, table;
      kind := EndOfFileToken;
      end, start := 0, 0;
      diagnostics := bag;
    }

    /** `Peek`: the character `offset` places ahead, or "" past the end. */
    function Peek(offset: nat): (c: string)
      reads this
      ensures c == "" <==> end + offset >= |input|
      ensures c != "" ==> c == [input[end + offset]]
    {
      CharAt(input, end + offset)
    }

    /** `Char`: the current character, or "" at the end. */
    function Char(): (c: string)
      reads this
      ensures c == "" <==> end >= |input|
      ensures c != "" ==> c == [input[end]]
    {
      Peek(0)
    }

    function Text(): string
      reads this
    {
      Substring(input, start, end)
    }

    /** The token for the current span. */
    function Token(k: Kind): SyntaxToken
      reads this
    {
      SyntaxToken(k, Text(), start, end)
    }

    method Match(kinds: seq<Kind>) returns (r: bool)
      ensures r == MatchesAt(facts, input, end, kinds)
    {
      var offset := 0;
      while offset < |kinds|
        invariant 0 <= offset <= |kinds|
        invariant MatchesAt(facts, input, end, kinds) == MatchesAt(facts, input, end + offset, kinds[offset..])
      {
        assert kinds[offset..][1..] == kinds[offset + 1..];
        if kinds[offset] != facts.kind(Peek(offset)) {
          return false;
        }
        offset := offset + 1;
      }
      return true;
    }

    method Lex() returns (t: SyntaxToken)
      requires Valid()
      modifies this
      ensures Valid()
      ensures var step := Scan(facts, input, old(end));
        && t == TokenAt(facts, input, old(end))
        && start == old(end) && end == step.next
        && kind == step.kindField
        && diagnostics == old(diagnostics) + step.diagnostics
    {
      start := end;
      kind := facts.kind(Char());
      match kind
      case BadToken => t := LexBadToken(); return;
      case HashToken => t := LexCommentToken(); return;
      case MinusToken => t := LexComposite(MinusToken, GreaterToken, PointerToken); return;
      case GreaterToken => t := LexComposite(GreaterToken, GreaterToken, GreaterGreaterToken); return;
      case ColonToken => t := LexComposite(ColonToken, ColonToken, ColonColonToken); return;
      case _ =>
      end := end + 1;
      t := Token(kind);
    }

    method LexBadToken() returns (t: SyntaxToken)
      requires Valid() && start == end && facts.kind(Char()) == BadToken && kind == BadToken
      modifies this`end, this`diagnostics
      ensures Valid()
      ensures var step := UnclassifiedStep(facts, input, start);
        && end == step.next && diagnostics == old(diagnostics) + step.diagnostics
        && t == Token(step.kind)
    {
      if IsLetter(Char()) {
        t := LexIdentifier();
        return;
      }
      if IsDigit(Char()) {
        t := LexNumberToken();
        return;
      }
      if IsSpace(Char()) {
        t := LexSpaceToken();
        return;
      }
      diagnostics := diagnostics + [BadTokenFound(Char())];
      end := end + 1;
      t := Token(kind);
    }

    method LexCommentToken() returns (t: SyntaxToken)
      requires Valid() && start == end && facts.kind(Char()) == HashToken
      modifies this`end
      ensures Valid() && end == CommentEnd(facts, input, start + 1)
      ensures t == Token(CommentTrivia)
    {
      assert start < |input|;
      end := end + 1;
      var stop := CommentStops();
      while !stop
        invariant start < end <= |input|
        invariant CommentEnd(facts, input, end) == CommentEnd(facts, input, start + 1)
        invariant stop <==> facts.kind(Char()) in {LineBreakTrivia, EndOfFileToken}
        decreases |input| - end
      {
        CommentEndAt(facts, input, end);
        end := end + 1;
        stop := CommentStops();
      }
      CommentEndAt(facts, input, end);
      t := Token(CommentTrivia);
    }

    /** The loop condition of `LexCommentToken`, negated. */
    method CommentStops() returns (r: bool)
      ensures r <==> facts.kind(Char()) in {LineBreakTrivia, EndOfFileToken}
    {
      var lineBreak := Match([LineBreakTrivia]);
      MatchesOne(facts, input, end, LineBreakTrivia);
      if lineBreak {
        return true;
      }
      r := Match([EndOfFileToken]);
      MatchesOne(facts, input, end, EndOfFileToken);
    }

    /** `LexMinusToken`, `LexGreaterGreaterToken` and `LexColonColonToken`,
        which differ only in their kinds. */
    method LexComposite(single: Kind, second: Kind, composite: Kind) returns (t: SyntaxToken)
      requires Valid() && start == end
      modifies this`end, this`kind
      ensures Valid()
      ensures var step := CompositeStep(facts, input, start, single, second, composite);
        end == step.next && kind == step.kindField && t == Token(step.kind)
    {
      end := end + 1;
      kind := single;
      var m := Match([second]);
      if m {
        end := end + 1;
        kind := composite;
      }
      t := Token(kind);
    }

    method LexIdentifier() returns (t: SyntaxToken)
      requires Valid() && start == end && IsLetter(Char())
      modifies this`end
      ensures Valid() && end == RunEnd(input, start, Letters)
      ensures t == Token(facts.keywordOrIdentifier(input[start..end]))
    {
      while IsLetter(Char())
        invariant start <= end <= |input|
        invariant RunEnd(input, end, Letters) == RunEnd(input, start, Letters)
        decreases |input| - end
      {
        end := end + 1;
      }
      t := Token(facts.keywordOrIdentifier(Text()));
    }

    method LexSpaceToken() returns (t: SyntaxToken)
      requires Valid() && start == end && IsSpace(Char())
      modifies this`end
      ensures Valid() && end == RunEnd(input, start, Spaces)
      ensures t == Token(SpaceTrivia)
    {
      while IsSpace(Char())
        invariant start <= end <= |input|
        invariant RunEnd(input, end, Spaces) == RunEnd(input, start, Spaces)
        decreases |input| - end
      {
        end := end + 1;
      }
      t := Token(SpaceTrivia);
    }

    method SkipDigits()
      requires Valid() && end <= |input|
      modifies this`end
      ensures Valid() && end == RunEnd(input, old(end), Digits)
    {
      while IsDigit(Char())
        invariant old(end) <= end <= |input|
        invariant RunEnd(input, end, Digits) == RunEnd(input, old(end), Digits)
        decreases |input| - end
      {
        end := end + 1;
      }
    }

    method LexNumberToken() returns (t: SyntaxToken)
      requires Valid() && start == end && IsDigit(Char())
      modifies this`end, this`diagnostics
      ensures Valid()
      ensures var (e, bad) := NumberEnd(facts, input, start);
        && end == e
        && diagnostics == old(diagnostics) + (if bad then [BadFloatingPointNumber] else [])
        && t == Token(NumberToken)
    {
      SkipDigits();
      var m := Match([DotToken]);
      assert MatchesAt(facts, input, end + 1, []);
      if m {
        end := end + 1;
        if !IsDigit(Char()) {
          diagnostics := diagnostics + [BadFloatingPointNumber];
        }
      }
      SkipDigits();
      t := Token(NumberToken);
    }
  }
}
