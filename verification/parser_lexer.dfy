/** The lexer of src/CodeAnalysis/Parser/Lexer.ts.

    It classifies the current character through the `Facts` table, then
    handles the composite tokens `->` and `>>`, `#` comments that run up to a
    new line, and identifier, number and space runs. Every token carries the
    text between `Start` and `Index`.

    The `Facts` tables are not part of this model. They are a parameter,
    `Facts`, of which the lexer needs only that the empty string (what
    `charAt` returns past the end) is classified as end of file. */
module ParserLexer {
  import opened Common

  datatype SyntaxKind =
    | Program | CloneCell | ReferenceCell | BinaryExpression | UnaryExpression
    | ParenthesizedExpression | RangeReference | CellReference | CommentToken
    | IdentifierToken | NumberToken | NewLineToken | TrueKeyword | FalseKeyword
    | PointerToken | SpaceToken | PlusToken | MinusToken | SlashToken | StarToken
    | ColonToken | OpenParenthesisToken | CloseParenthesisToken | DotToken
    | GreaterToken | HashToken | BadToken | EndOfFileToken | HatToken
    | GreaterGreaterToken

  /** `Facts.Kind` and `Facts.KeywordOrIdentiferTokenKind`. */
  datatype Facts = Facts(kind: string -> SyntaxKind, keywordOrIdentifier: string -> SyntaxKind)

  /** What the lexer relies on: past the end of the input there is only
      end of file. */
  predicate Agrees(facts: Facts)
  {
    facts.kind("") == EndOfFileToken
  }

  datatype SyntaxToken = SyntaxToken(kind: SyntaxKind, text: string)

  datatype Diagnostic = BadTokenFound(character: string) | BadFloatingPointNumber

  /** The character tests work on the character code of the first
      character, so "" satisfies none of them. */
  predicate IsLetter(c: string) { |c| > 0 && c[0] in Letters }
  predicate IsDigit(c: string) { |c| > 0 && c[0] in Digits }
  predicate IsSpace(c: string) { c == " " || c == "\t" || c == "\r" }

  predicate IsLetterChar(c: char) { c in Letters }
  predicate IsDigitChar(c: char) { c in Digits }
  predicate IsSpaceChar(c: char) { c in Spaces }

  /** `Match(k1, …, kn)` at `p`: the characters from `p` on are classified as
      `k1`, …, `kn`. */
  predicate MatchesAt(facts: Facts, text: string, p: nat, kinds: seq<SyntaxKind>)
    decreases |kinds|
  {
    kinds == [] || (facts.kind(CharAt(text, p)) == kinds[0] && MatchesAt(facts, text, p + 1, kinds[1..]))
  }

  lemma {:induction false} MatchesAtMeansEachKind(facts: Facts, text: string, p: nat, kinds: seq<SyntaxKind>)
    ensures MatchesAt(facts, text, p, kinds) <==>
      forall i | 0 <= i < |kinds| :: kinds[i] == facts.kind(CharAt(text, p + i))
    decreases |kinds|
  {
    if kinds != [] {
      MatchesAtMeansEachKind(facts, text, p + 1, kinds[1..]);
      if MatchesAt(facts, text, p, kinds) {
        forall i | 0 <= i < |kinds| ensures kinds[i] == facts.kind(CharAt(text, p + i)) {
          if i > 0 {
            assert kinds[i] == kinds[1..][i - 1];
            assert p + 1 + (i - 1) == p + i;
          }
        }
      } else if facts.kind(CharAt(text, p)) == kinds[0] {
        var j :| 0 <= j < |kinds[1..]| && kinds[1..][j] != facts.kind(CharAt(text, p + 1 + j));
        assert kinds[j + 1] == kinds[1..][j];
      }
    }
  }

  /** Where a `#` comment that starts at `s` ends: the first position after
      `s` whose character is a new line or the end of the input. */
  function CommentEnd(facts: Facts, text: string, p: nat): (e: nat)
    requires Agrees(facts) && 0 < p <= |text|
    ensures p <= e <= |text|
    decreases |text| - p
  {
    if facts.kind(CharAt(text, p)) in {NewLineToken, EndOfFileToken} then p
    else CommentEnd(facts, text, p + 1)
  }

  /** One step of `CommentEnd`. */
  lemma CommentEndAt(facts: Facts, text: string, p: nat)
    requires Agrees(facts) && 0 < p <= |text|
    ensures facts.kind(CharAt(text, p)) in {NewLineToken, EndOfFileToken} ==> CommentEnd(facts, text, p) == p
    ensures facts.kind(CharAt(text, p)) !in {NewLineToken, EndOfFileToken} ==>
      p < |text| && CommentEnd(facts, text, p) == CommentEnd(facts, text, p + 1)
  {
  }

  /** A comment stops at the first line break or end of input after its
      `#`, and at nothing before it. */
  lemma {:induction false} CommentEndStops(facts: Facts, text: string, p: nat)
    requires Agrees(facts) && 0 < p <= |text|
    ensures var e := CommentEnd(facts, text, p);
      && facts.kind(CharAt(text, e)) in {NewLineToken, EndOfFileToken}
      && forall i | p <= i < e :: facts.kind(CharAt(text, i)) !in {NewLineToken, EndOfFileToken}
    decreases |text| - p
  {
    if facts.kind(CharAt(text, p)) !in {NewLineToken, EndOfFileToken} {
      CommentEndStops(facts, text, p + 1);
    }
  }

  /** The end of a number that starts with a digit at `s`, and whether it
      has a dot with no digit after it. */
  function NumberEnd(facts: Facts, text: string, s: nat): (r: (nat, bool))
    requires s < |text| && IsDigitChar(text[s])
    ensures s < r.0 <= |text|
  {
    var d := RunEnd(text, s, Digits);
    if facts.kind(CharAt(text, d)) == DotToken && d < |text| then
      (RunEnd(text, d + 1, Digits), !IsDigit(CharAt(text, d + 1)))
    else (d, false)
  }

  /** One call of `Lex` from `Start == s`: the kind of the token, where
      `Index` ends, the diagnostics, and the final value of the `Kind`
      field. */
  datatype Step = Step(kind: SyntaxKind, next: nat, diagnostics: seq<Diagnostic>, kindField: SyntaxKind)

  /** `Lex` for a character the table classifies as a bad token. */
  function UnclassifiedStep(facts: Facts, text: string, s: nat): (r: Step)
    requires Agrees(facts) && facts.kind(CharAt(text, s)) == BadToken
    ensures s < r.next <= |text| && r.kindField == BadToken
  {
    var c := CharAt(text, s);
    if IsLetter(c) then
      var e := RunEnd(text, s, Letters);
      Step(facts.keywordOrIdentifier(text[s..e]), e, [], BadToken)
    else if IsDigit(c) then
      var (e, bad) := NumberEnd(facts, text, s);
      Step(NumberToken, e, if bad then [BadFloatingPointNumber] else [], BadToken)
    else if IsSpace(c) then
      Step(SpaceToken, RunEnd(text, s, Spaces), [], BadToken)
    else Step(BadToken, s + 1, [BadTokenFound(c)], BadToken)
  }

  function Scan(facts: Facts, text: string, s: nat): (r: Step)
    requires Agrees(facts)
    ensures s < r.next
    ensures s < |text| && r.kind != EndOfFileToken ==> r.next <= |text|
    ensures s >= |text| ==> r == Step(EndOfFileToken, s + 1, [], EndOfFileToken)
  {
    var c := CharAt(text, s);
    var k := facts.kind(c);
    if k == BadToken then UnclassifiedStep(facts, text, s)
    else if k == HashToken then
      Step(CommentToken, CommentEnd(facts, text, s + 1), [], k)
    else if k == MinusToken && MatchesAt(facts, text, s, [MinusToken, GreaterToken]) then
      Step(PointerToken, s + 2, [], PointerToken)
    else if k == GreaterToken && MatchesAt(facts, text, s, [GreaterToken, GreaterToken]) then
      Step(GreaterGreaterToken, s + 2, [], GreaterGreaterToken)
    else Step(k, s + 1, [], k)
  }

  /** The token `Lex` returns from `Start == s`: its text is the input
      between `Start` and the final `Index`. */
  function TokenAt(facts: Facts, text: string, s: nat): SyntaxToken
    requires Agrees(facts)
  {
    var step := Scan(facts, text, s);
    SyntaxToken(step.kind, Substring(text, s, step.next))
  }

  /** `->` is one pointer token; a minus not followed by `>` is a one
      character minus. `>>` and `>` behave alike. */
  lemma ScanComposite(facts: Facts, text: string, s: nat)
    requires Agrees(facts)
    ensures var k := facts.kind(CharAt(text, s));
      && (k == MinusToken && facts.kind(CharAt(text, s + 1)) == GreaterToken ==>
            TokenAt(facts, text, s) == SyntaxToken(PointerToken, text[s..s + 2]))
      && (k == MinusToken && facts.kind(CharAt(text, s + 1)) != GreaterToken ==>
            TokenAt(facts, text, s) == SyntaxToken(MinusToken, text[s..s + 1]))
      && (k == GreaterToken && facts.kind(CharAt(text, s + 1)) == GreaterToken ==>
            TokenAt(facts, text, s) == SyntaxToken(GreaterGreaterToken, text[s..s + 2]))
      && (k == GreaterToken && facts.kind(CharAt(text, s + 1)) != GreaterToken ==>
            TokenAt(facts, text, s) == SyntaxToken(GreaterToken, text[s..s + 1]))
  {
    var k := facts.kind(CharAt(text, s));
    if k == MinusToken || k == GreaterToken {
      assert s < |text|;
      assert [k, GreaterToken][1..] == [GreaterToken] && [GreaterToken][1..] == [];
      assert MatchesAt(facts, text, s, [k, GreaterToken]) <==> facts.kind(CharAt(text, s + 1)) == GreaterToken;
    }
  }

  /** A character the table leaves as a bad token is read as an identifier,
      a number or a space run, in that order, and is otherwise reported and
      skipped as a one-character bad token. */
  lemma ScanUnclassified(facts: Facts, text: string, s: nat)
    requires Agrees(facts) && facts.kind(CharAt(text, s)) == BadToken
    ensures s < |text|
    ensures var c := CharAt(text, s); var step := Scan(facts, text, s);
      && (IsLetter(c) ==>
            && (forall i | s <= i < step.next :: IsLetterChar(text[i]))
            && (step.next == |text| || !IsLetterChar(text[step.next]))
            && step.kind == facts.keywordOrIdentifier(text[s..step.next]))
      && (!IsLetter(c) && IsDigit(c) ==> step.kind == NumberToken)
      && (!IsLetter(c) && !IsDigit(c) && IsSpace(c) ==>
            && step.kind == SpaceToken
            && (forall i | s <= i < step.next :: IsSpaceChar(text[i]))
            && (step.next == |text| || !IsSpaceChar(text[step.next])))
      && (!IsLetter(c) && !IsDigit(c) && !IsSpace(c) ==>
            step == Step(BadToken, s + 1, [BadTokenFound(c)], BadToken))
  {
  }

  /** A number is digits, optionally a dot and digits; a dot without a digit
      after it is reported and kept in the token. */
  lemma ScanNumber(facts: Facts, text: string, s: nat)
    requires Agrees(facts) && facts.kind(CharAt(text, s)) == BadToken
    requires !IsLetter(CharAt(text, s)) && IsDigit(CharAt(text, s))
    ensures var step := Scan(facts, text, s); var d := RunEnd(text, s, Digits);
      && step.kind == NumberToken
      && (facts.kind(CharAt(text, d)) == DotToken && d < |text| ==>
            && step.next == RunEnd(text, d + 1, Digits)
            && (step.diagnostics == [BadFloatingPointNumber] <==> !IsDigit(CharAt(text, d + 1))))
      && (!(facts.kind(CharAt(text, d)) == DotToken && d < |text|) ==> step.next == d && step.diagnostics == [])
  {
  }

  /** A comment takes at least its `#` and stops before the first new line
      or at the end of the input; the new line is left for the next token. */
  lemma ScanComment(facts: Facts, text: string, s: nat)
    requires Agrees(facts) && facts.kind(CharAt(text, s)) == HashToken
    ensures s < |text|
    ensures var step := Scan(facts, text, s);
      && step.kind == CommentToken && s < step.next <= |text|
      && facts.kind(CharAt(text, step.next)) in {NewLineToken, EndOfFileToken}
      && forall i | s < i < step.next :: facts.kind(CharAt(text, i)) !in {NewLineToken, EndOfFileToken}
  {
    assert CharAt(text, s) != "";
    CommentEndStops(facts, text, s + 1);
  }

  /** The tokens `Lex` returns, call after call, until the input is used up. */
  function Tokens(facts: Facts, text: string, s: nat): seq<SyntaxToken>
    requires Agrees(facts) && s <= |text|
    decreases |text| - s
  {
    if s == |text| then [TokenAt(facts, text, s)]
    else
      var step := Scan(facts, text, s);
      if step.kind == EndOfFileToken then [TokenAt(facts, text, s)]
      else [TokenAt(facts, text, s)] + Tokens(facts, text, step.next)
  }

  function ConcatTexts(tokens: seq<SyntaxToken>): string
  {
    if tokens == [] then "" else tokens[0].text + ConcatTexts(tokens[1..])
  }

  /** A character that is not classified as end of file starts a token
      that is not end of file either, and lies within the input. */
  lemma ScanBeforeEnd(facts: Facts, text: string, s: nat)
    requires Agrees(facts) && s < |text| && facts.kind([text[s]]) != EndOfFileToken
    requires forall w :: facts.keywordOrIdentifier(w) != EndOfFileToken
    ensures Scan(facts, text, s).kind != EndOfFileToken && Scan(facts, text, s).next <= |text|
  {
    assert CharAt(text, s) == [text[s]];
  }

  /** Lexing loses nothing: up to the first end-of-file token, the token
      texts put back together are the input. When the table classifies no
      character as end of file, that is the whole input. */
  lemma {:induction false} TokensAreLossless(facts: Facts, text: string, s: nat)
    requires Agrees(facts) && s <= |text|
    requires forall i | s <= i < |text| :: facts.kind([text[i]]) != EndOfFileToken
    requires forall w :: facts.keywordOrIdentifier(w) != EndOfFileToken
    ensures ConcatTexts(Tokens(facts, text, s)) == text[s..]
    decreases |text| - s
  {
    var step := Scan(facts, text, s);
    if s == |text| {
      assert TokenAt(facts, text, s).text == "";
    } else {
      ScanBeforeEnd(facts, text, s);
      TokensAreLossless(facts, text, step.next);
      var t := Tokens(facts, text, s);
      assert t == [TokenAt(facts, text, s)] + Tokens(facts, text, step.next);
      assert t[1..] == Tokens(facts, text, step.next);
      assert text[s..] == text[s..step.next] + text[step.next..];
    }
  }

  class Lexer {
    const input: string
    const facts: Facts
    var index: nat
    var start: nat
    var kind: SyntaxKind
    var diagnostics: seq<Diagnostic>

    ghost predicate Valid()
      reads this
    {
      Agrees(facts) && start <= index
    }

    constructor (source: string, table: Facts)
      requires Agrees(table)
      ensures Valid() && input == source && facts == table
      ensures index == 0 && start == 0 && kind == EndOfFileToken && diagnostics == []
    {
      input, facts := source, table;
      index, start := 0, 0;
      kind := EndOfFileToken;
      diagnostics := [];
    }

    /** `Peek`: the character `offset` places ahead, or "" past the end. */
    function Peek(offset: nat): (c: string)
      reads this
      ensures c == "" <==> index + offset >= |input|
      ensures c != "" ==> c == [input[index + offset]]
    {
      CharAt(input, index + offset)
    }

    /** `Char`: the current character, or "" at the end. */
    function Char(): (c: string)
      reads this
      ensures c == "" <==> index >= |input|
      ensures c != "" ==> c == [input[index]]
    {
      Peek(0)
    }

    function Text(): string
      reads this
    {
      Substring(input, start, index)
    }

    /** `Match(...Kinds)`: compares the classified characters ahead one by
        one, and changes nothing. */
    method Match(kinds: seq<SyntaxKind>) returns (r: bool)
      ensures r == MatchesAt(facts, input, index, kinds)
    {
      var offset := 0;
      while offset < |kinds|
        invariant 0 <= offset <= |kinds|
        invariant MatchesAt(facts, input, index, kinds) == MatchesAt(facts, input, index + offset, kinds[offset..])
      {
        assert kinds[offset..][1..] == kinds[offset + 1..];
        if kinds[offset] != facts.kind(Peek(offset)) {
          return false;
        }
        offset := offset + 1;
      }
      return true;
    }

    method Lex() returns (t: SyntaxToken)
      requires Valid()
      modifies this
      ensures Valid()
      ensures var step := Scan(facts, input, old(index));
        && t == TokenAt(facts, input, old(index))
        && start == old(index) && index == step.next
        && kind == step.kindField
        && diagnostics == old(diagnostics) + step.diagnostics
    {
      start := index;
      kind := facts.kind(Char());
      ghost var step := Scan(facts, input, start);
      if kind == BadToken {
        assert step == UnclassifiedStep(facts, input, start);
        t := LexUnclassified();
      } else if kind == HashToken {
        assert step == Step(CommentToken, CommentEnd(facts, input, start + 1), [], HashToken);
        t := ParseCommentToken();
      } else {
        t := LexSymbol();
      }
      assert t == SyntaxToken(step.kind, Substring(input, start, step.next));
    }

    /** The remaining cases of `Lex`: `->` and `>>` are read as one token,
        every other character as a token of its own kind. */
    method LexSymbol() returns (t: SyntaxToken)
      requires Valid() && start == index && kind == facts.kind(Char())
      requires kind != BadToken && kind != HashToken
      modifies this`index, this`kind
      ensures Valid() && start == old(start)
      ensures var step := Scan(facts, input, start);
        && t == SyntaxToken(step.kind, Substring(input, start, step.next))
        && index == step.next && kind == step.kindField
    {
      if kind == MinusToken {
        var m := Match([MinusToken, GreaterToken]);
        if m {
          index := index + 1;
          kind := PointerToken;
        }
      } else if kind == GreaterToken {
        var m := Match([GreaterToken, GreaterToken]);
        if m {
          index := index + 1;
          kind := GreaterGreaterToken;
        }
      }
      index := index + 1;
      t := SyntaxToken(kind, Text());
    }

    /** The `BadToken` case of `Lex`: a letter, digit or space run, or else
        a reported one-character bad token. */
    method LexUnclassified() returns (t: SyntaxToken)
      requires Valid() && start == index && kind == BadToken && facts.kind(Char()) == BadToken
      modifies this`index, this`diagnostics
      ensures Valid() && start == old(start)
      ensures var step := UnclassifiedStep(facts, input, start);
        && index == step.next
        && diagnostics == old(diagnostics) + step.diagnostics
        && t == SyntaxToken(step.kind, input[start..index])
    {
      if IsLetter(Char()) {
        t := ParseIdentifier();
        return;
      }
      if IsDigit(Char()) {
        t := ParseNumberToken();
        return;
      }
      if IsSpace(Char()) {
        t := ParseSpaceToken();
        return;
      }
      diagnostics := diagnostics + [BadTokenFound(Char())];
      index := index + 1;
      t := SyntaxToken(kind, Text());
    }

    method ParseIdentifier() returns (t: SyntaxToken)
      requires Valid() && start == index && IsLetter(Char())
      modifies this`index
      ensures Valid() && start < index <= |input|
      ensures index == RunEnd(input, start, Letters)
      ensures t == SyntaxToken(facts.keywordOrIdentifier(input[start..index]), input[start..index])
    {
      while IsLetter(Char())
        invariant start <= index <= |input|
        invariant RunEnd(input, index, Letters) == RunEnd(input, start, Letters)
        decreases |input| - index
      {
        index := index + 1;
      }
      t := SyntaxToken(facts.keywordOrIdentifier(Text()), Text());
    }

    method ParseCommentToken() returns (t: SyntaxToken)
      requires Valid() && start == index && facts.kind(Char()) == HashToken
      modifies this`index
      ensures Valid() && index == CommentEnd(facts, input, start + 1)
      ensures t == SyntaxToken(CommentToken, input[start..index])
    {
      SkipComment();
      t := SyntaxToken(CommentToken, Text());
    }

    /** The loop of `ParseCommentToken`: advances at least once, and stops
        at the first new line or end of input. */
    method SkipComment()
      requires Valid() && start == index && facts.kind(Char()) == HashToken
      modifies this`index
      ensures Valid() && index == CommentEnd(facts, input, start + 1)
    {
      assert start < |input|;
      ghost var stop := CommentEnd(facts, input, start + 1);
      while true
        invariant start <= index < stop
        invariant CommentEnd(facts, input, index + 1) == stop
        decreases |input| - index
      {
        index := index + 1;
        CommentEndAt(facts, input, index);
        if facts.kind(CharAt(input, index)) == NewLineToken {
          break;
        }
        if facts.kind(CharAt(input, index)) == EndOfFileToken {
          break;
        }
      }
    }

    method ParseSpaceToken() returns (t: SyntaxToken)
      requires Valid() && start == index && IsSpace(Char())
      modifies this`index
      ensures Valid() && index == RunEnd(input, start, Spaces)
      ensures t == SyntaxToken(SpaceToken, input[start..index])
    {
      while IsSpace(Char())
        invariant start <= index <= |input|
        invariant RunEnd(input, index, Spaces) == RunEnd(input, start, Spaces)
        decreases |input| - index
      {
        index := index + 1;
      }
      t := SyntaxToken(SpaceToken, Text());
    }

    /** Advances over the digit run at `index`. */
    method SkipDigits()
      requires Valid() && index <= |input|
      modifies this`index
      ensures Valid() && index == RunEnd(input, old(index), Digits)
    {
      while IsDigit(Char())
        invariant old(index) <= index <= |input|
        invariant RunEnd(input, index, Digits) == RunEnd(input, old(index), Digits)
        decreases |input| - index
      {
        index := index + 1;
      }
    }

    method ParseNumberToken() returns (t: SyntaxToken)
      requires Valid() && start == index && IsDigit(Char())
      modifies this`index, this`diagnostics
      ensures Valid()
      ensures var (e, bad) := NumberEnd(facts, input, start);
        && index == e
        && diagnostics == old(diagnostics) + (if bad then [BadFloatingPointNumber] else [])
        && t == SyntaxToken(NumberToken, input[start..index])
    {
      SkipDigits();
      var m := Match([DotToken]);
      assert MatchesAt(facts, input, index + 1, []);
      if m {
        index := index + 1;
        if !IsDigit(Char()) {
          diagnostics := diagnostics + [BadFloatingPointNumber];
        }
      }
      SkipDigits();
      t := SyntaxToken(NumberToken, Text());
    }
  }
}
