/** The cursor-driven scanner of src/lexing/lexer.ts.

    A token is a kind and a span `[start, end)` over the source text. The
    scanner keeps two cursors, `start` (where the current token began) and
    `position` (the next character to look at), and reports problems into
    the diagnostics of the source text, modelled here as a sequence the
    lexer appends to. */
module LexingLexer {
  import opened Common

  datatype Kind =
    | EndOfFileToken | PlusToken | MinusToken | StarToken | SlashToken | HatToken
    | OpenParenthesisToken | CloseParenthesisToken | OpenBraceToken | CloseBraceToken
    | DotToken | LineBreakTrivia | CommentTrivia | ColonToken | ColonColonToken
    | IdentifierToken | NumberToken | SpaceTrivia | BadToken

  datatype Token = Token(kind: Kind, start: nat, end: nat)

  /** The three reports of this scanner, each with the span current when it
      was made. */
  datatype Diagnostic =
    | BadCharacterFound(character: string, start: nat, end: nat)
    | BadFloatingPointNumber(start: nat, end: nat)
    | MissingClosingQuote(start: nat, end: nat)

  predicate IsLetter(c: char) { c in Letters }
  predicate IsDigit(c: char) { c in Digits }
  predicate IsSpace(c: char) { c in Spaces }

  /** The characters the switch of `lexNextToken` maps to a token of width one. */
  function SingleCharacterKind(c: char): Option<Kind>
  {
    match c
    case '+' => Some(PlusToken)
    case '-' => Some(MinusToken)
    case '*' => Some(StarToken)
    case '/' => Some(SlashToken)
    case '^' => Some(HatToken)
    case '(' => Some(OpenParenthesisToken)
    case ')' => Some(CloseParenthesisToken)
    case '{' => Some(OpenBraceToken)
    case '}' => Some(CloseBraceToken)
    case '.' => Some(DotToken)
    case '\n' => Some(LineBreakTrivia)
    case _ => None
  }

  /** Index just past the first `"` at or after `q`, if there is one. */
  function QuoteEnd(text: string, q: nat): (r: Option<nat>)
    requires q <= |text|
    ensures r.Some? ==>
      && q < r.value <= |text| && text[r.value - 1] == '"'
      && forall i | q <= i < r.value - 1 :: text[i] != '"'
    ensures r.None? ==> forall i | q <= i < |text| :: text[i] != '"'
    decreases |text| - q
  {
    if q == |text| then None
    else if text[q] == '"' then Some(q + 1)
    else QuoteEnd(text, q + 1)
  }

  /** What one call of `lexNextToken` produces from `pos`: the token, the
      new position and the diagnostics it reports. */
  datatype Step = Step(token: Token, next: nat, diagnostics: seq<Diagnostic>)

  /** The end of a number whose first digit is at `pos`, and whether its dot
      lacks a following digit. */
  function NumberEnd(text: string, pos: nat): (r: (nat, bool))
    requires pos < |text|
    ensures pos < r.0 <= |text|
  {
    var d := RunEnd(text, pos + 1, Digits);
    if d < |text| && text[d] == '.' then
      (RunEnd(text, d + 1, Digits), !(d + 1 < |text| && IsDigit(text[d + 1])))
    else (d, false)
  }

  /** `lexNumberToken` from the first digit at `pos`. */
  function NumberStep(text: string, pos: nat): (s: Step)
    requires pos < |text|
    ensures s.token.start == pos && s.token.end == s.next && pos < s.next <= |text|
  {
    var d := RunEnd(text, pos + 1, Digits);
    var (e, bad) := NumberEnd(text, pos);
    Step(Token(NumberToken, pos, e), e, if bad then [BadFloatingPointNumber(pos, d + 1)] else [])
  }

  /** `lexCommentToken` from the opening quote at `pos`. */
  function CommentStep(text: string, pos: nat): (s: Step)
    requires pos < |text|
    ensures s.token.start == pos && s.token.end == s.next && pos < s.next <= |text|
  {
    match QuoteEnd(text, pos + 1)
    case Some(e) => Step(Token(CommentTrivia, pos, e), e, [])
    case None => Step(Token(CommentTrivia, pos, |text|), |text|, [MissingClosingQuote(pos, |text|)])
  }

  function Scan(text: string, pos: nat): (s: Step)
    requires pos <= |text|
    ensures s.token.start == pos && s.token.end == s.next
    ensures pos < |text| ==> pos < s.next <= |text|
    ensures pos == |text| ==> s.next == pos
    ensures s.token.kind == EndOfFileToken <==> pos == |text|
  {
    if pos == |text| then Step(Token(EndOfFileToken, pos, pos), pos, [])
    else
      var c := text[pos];
      if SingleCharacterKind(c).Some? then
        Step(Token(SingleCharacterKind(c).value, pos, pos + 1), pos + 1, [])
      else if c == '"' then CommentStep(text, pos)
      else if c == ':' then
        if pos + 1 < |text| && text[pos + 1] == ':' then Step(Token(ColonColonToken, pos, pos + 2), pos + 2, [])
        else Step(Token(ColonToken, pos, pos + 1), pos + 1, [])
      else if IsLetter(c) then
        var e := RunEnd(text, pos + 1, Letters);
        Step(Token(IdentifierToken, pos, e), e, [])
      else if IsDigit(c) then NumberStep(text, pos)
      else if IsSpace(c) then
        var e := RunEnd(text, pos + 1, Spaces);
        Step(Token(SpaceTrivia, pos, e), e, [])
      else
        Step(Token(BadToken, pos, pos + 1), pos + 1, [BadCharacterFound([c], pos, pos)])
  }

  /** All tokens and diagnostics of `lex` from `pos`. */
  datatype Run = Run(tokens: seq<Token>, diagnostics: seq<Diagnostic>)

  function Tokenize(text: string, pos: nat): (r: Run)
    requires pos <= |text|
    ensures 1 <= |r.tokens| <= |text| - pos + 1
    ensures r.tokens[0].start == pos
    ensures r.tokens[|r.tokens| - 1] == Token(EndOfFileToken, |text|, |text|)
    ensures forall i | 0 <= i < |r.tokens| - 1 :: r.tokens[i].end == r.tokens[i + 1].start
    ensures forall i | 0 <= i < |r.tokens| - 1 ::
      r.tokens[i].start < r.tokens[i].end && r.tokens[i].kind != EndOfFileToken
    decreases |text| - pos
  {
    var s := Scan(text, pos);
    if pos < |text| then
      var rest := Tokenize(text, s.next);
      Run([s.token] + rest.tokens, s.diagnostics + rest.diagnostics)
    else Run([s.token], s.diagnostics)
  }

  /** One step of `Tokenize`, for proofs that walk it token by token. */
  lemma TokenizeStep(text: string, pos: nat)
    requires pos < |text|
    ensures var s := Scan(text, pos); var rest := Tokenize(text, s.next);
      Tokenize(text, pos) == Run([s.token] + rest.tokens, s.diagnostics + rest.diagnostics)
  {
  }

  /** An identifier is the maximal run of ASCII letters at `pos`; a digit
      right after it is left for the next token. */
  lemma ScanIdentifier(text: string, pos: nat)
    requires pos < |text| && IsLetter(text[pos])
    ensures var s := Scan(text, pos);
      && s.token.kind == IdentifierToken && s.diagnostics == []
      && (forall i | pos <= i < s.next :: IsLetter(text[i]))
      && (s.next == |text| || !IsLetter(text[s.next]))
  {
  }

  /** A number is digits, then optionally a dot and digits. A dot with no
      digit after it is reported, and the token still includes the dot. */
  lemma ScanNumber(text: string, pos: nat)
    requires pos < |text| && IsDigit(text[pos])
    ensures var s := Scan(text, pos);
      var d := RunEnd(text, pos, Digits);
      && s.token.kind == NumberToken
      && (d < |text| && text[d] == '.' ==>
            s.next == RunEnd(text, d + 1, Digits)
            && (s.diagnostics != [] <==> !(d + 1 < |text| && IsDigit(text[d + 1])))
            && (s.diagnostics != [] ==> s.diagnostics == [BadFloatingPointNumber(pos, d + 1)]))
      && (!(d < |text| && text[d] == '.') ==> s.next == d && s.diagnostics == [])
  {
    RunEndFrom(text, pos, pos + 1, Digits);
  }

  /** `::` is one token of width two; a lone `:` is a token of width one. */
  lemma ScanColon(text: string, pos: nat)
    requires pos < |text| && text[pos] == ':'
    ensures var s := Scan(text, pos);
      && (pos + 1 < |text| && text[pos + 1] == ':' ==> s.token == Token(ColonColonToken, pos, pos + 2))
      && (!(pos + 1 < |text| && text[pos + 1] == ':') ==> s.token == Token(ColonToken, pos, pos + 1))
      && s.diagnostics == []
  {
  }

  /** A `"` comment runs through the next `"`; unterminated, it is reported
      and runs to the end of the input. */
  lemma ScanComment(text: string, pos: nat)
    requires pos < |text| && text[pos] == '"'
    ensures var s := Scan(text, pos);
      && s.token.kind == CommentTrivia
      && (s.diagnostics == [] ==>
            && text[s.next - 1] == '"' && pos + 1 < s.next
            && forall i | pos < i < s.next - 1 :: text[i] != '"')
      && (s.diagnostics != [] ==>
            && s.next == |text| && s.diagnostics == [MissingClosingQuote(pos, |text|)]
            && forall i | pos < i < |text| :: text[i] != '"')
  {
  }

  /** Any other character is reported and skipped as a bad token of width one. */
  lemma ScanBadCharacter(text: string, pos: nat)
    requires pos < |text|
    requires var c := text[pos];
      SingleCharacterKind(c).None? && c != '"' && c != ':' && !IsLetter(c) && !IsDigit(c) && !IsSpace(c)
    ensures Scan(text, pos) == Step(Token(BadToken, pos, pos + 1), pos + 1, [BadCharacterFound([text[pos]], pos, pos)])
  {
  }

  class Lexer {
    const text: string
    var start: nat
    var position: nat
    var diagnostics: seq<Diagnostic>

    ghost predicate Valid()
      reads this
    {
      start <= position <= |text|
    }

    constructor CreateFrom(source: string)
      ensures Valid() && text == source
      ensures start == 0 && position == 0 && diagnostics == []
    {
      text := source;
      start, position := 0, 0;
      diagnostics := [];
    }

    /** `hasNext`: input remains exactly when `char()` is not "". */
    predicate HasNext()
      reads this
      ensures HasNext() <==> Char() != ""
    {
      position < |text|
    }

    /** `char()`, that is `peek(0)`: the current character, or "" at the
        end of the input. */
    function Char(): (c: string)
      reads this
      ensures |c| <= 1
      ensures c == "" <==> position >= |text|
      ensures c != "" ==> c[0] == text[position]
    {
      if position < |text| then [text[position]] else ""
    }

    /** `isLetter`, `isDigit`, `isSpace`: the class of `char()`; "" at the
        end of the input is in none of them. */
    predicate AtLetter()
      reads this
      ensures AtLetter() <==> Char() != "" && IsLetter(Char()[0])
    {
      position < |text| && IsLetter(text[position])
    }

    predicate AtDigit()
      reads this
      ensures AtDigit() <==> Char() != "" && IsDigit(Char()[0])
    {
      position < |text| && IsDigit(text[position])
    }

    predicate AtSpace()
      reads this
      ensures AtSpace() <==> Char() != "" && IsSpace(Char()[0])
    {
      position < |text| && IsSpace(text[position])
    }

    method LexNextToken() returns (t: Token)
      requires Valid()
      modifies this
      ensures Valid()
      ensures var s := Scan(text, old(position));
        t == s.token && position == s.next && diagnostics == old(diagnostics) + s.diagnostics
      ensures start == old(position)
    {
      start := position;
      if !HasNext() {
        t := Token(EndOfFileToken, start, position);
        return;
      }
      var c := text[position];
      if SingleCharacterKind(c).Some? {
        t := AdvanceAndCreateNewToken(SingleCharacterKind(c).value);
      } else if c == '"' {
        t := LexCommentToken();
      } else if c == ':' {
        t := LexColonColonToken();
      } else if AtLetter() {
        t := LexIdentifier();
      } else if AtDigit() {
        t := LexNumberToken();
      } else if AtSpace() {
        t := LexSpaceToken();
      } else {
        t := LexBadToken();
      }
    }

    method LexBadToken() returns (t: Token)
      requires Valid() && start == position < |text|
      modifies this
      ensures Valid() && start == old(start) && position == old(position) + 1
      ensures t == Token(BadToken, start, position)
      ensures diagnostics == old(diagnostics) + [BadCharacterFound([text[start]], start, start)]
    {
      diagnostics := diagnostics + [BadCharacterFound(Char(), start, position)];
      position := position + 1;
      t := Token(BadToken, start, position);
    }

    method AdvanceAndCreateNewToken(kind: Kind) returns (t: Token)
      requires Valid() && start == position < |text|
      modifies this`position
      ensures Valid() && position == old(position) + 1
      ensures t == Token(kind, start, position)
    {
      position := position + 1;
      t := Token(kind, start, position);
    }

    method LexIdentifier() returns (t: Token)
      requires Valid() && start == position && AtLetter()
      modifies this`position
      ensures Valid() && position == RunEnd(text, start + 1, Letters)
      ensures t == Token(IdentifierToken, start, position)
    {
      position := position + 1;
      while AtLetter()
        invariant start < position <= |text|
        invariant RunEnd(text, position, Letters) == RunEnd(text, start + 1, Letters)
        decreases |text| - position
      {
        position := position + 1;
      }
      t := Token(IdentifierToken, start, position);
    }

    method LexSpaceToken() returns (t: Token)
      requires Valid() && start == position && AtSpace()
      modifies this`position
      ensures Valid() && position == RunEnd(text, start + 1, Spaces)
      ensures t == Token(SpaceTrivia, start, position)
    {
      position := position + 1;
      while AtSpace()
        invariant start < position <= |text|
        invariant RunEnd(text, position, Spaces) == RunEnd(text, start + 1, Spaces)
        decreases |text| - position
      {
        position := position + 1;
      }
      t := Token(SpaceTrivia, start, position);
    }

    /** Advances over the digit run at `position`. */
    method SkipDigits()
      requires Valid()
      modifies this`position
      ensures Valid() && start == old(start)
      ensures position == RunEnd(text, old(position), Digits)
    {
      while AtDigit()
        invariant old(position) <= position <= |text|
        invariant RunEnd(text, position, Digits) == RunEnd(text, old(position), Digits)
        decreases |text| - position
      {
        position := position + 1;
      }
    }

    method LexNumberToken() returns (t: Token)
      requires Valid() && start == position && AtDigit()
      modifies this
      ensures Valid() && start == old(start)
      ensures var s := NumberStep(text, start);
        t == s.token && position == s.next && diagnostics == old(diagnostics) + s.diagnostics
    {
      position := position + 1;
      SkipDigits();
      ghost var d := position;
      if position < |text| && text[position] == '.' {
        position := position + 1;
        if !AtDigit() {
          diagnostics := diagnostics + [BadFloatingPointNumber(start, position)];
        }
      }
      SkipDigits();
      if d < |text| && text[d] == '.' {
      } else {
        assert RunEnd(text, d, Digits) == d;
      }
      t := Token(NumberToken, start, position);
    }

    method LexCommentToken() returns (t: Token)
      requires Valid() && start == position < |text| && text[position] == '"'
      modifies this
      ensures Valid() && start == old(start)
      ensures var s := CommentStep(text, start);
        t == s.token && position == s.next && diagnostics == old(diagnostics) + s.diagnostics
    {
      position := position + 1;
      while HasNext()
        invariant start == old(start) && start < position <= |text|
        invariant QuoteEnd(text, position) == QuoteEnd(text, start + 1)
        invariant diagnostics == old(diagnostics)
        decreases |text| - position
      {
        if text[position] == '"' {
          position := position + 1;
          t := Token(CommentTrivia, start, position);
          return;
        }
        position := position + 1;
      }
      diagnostics := diagnostics + [MissingClosingQuote(start, position)];
      t := Token(CommentTrivia, start, position);
    }

    method LexColonColonToken() returns (t: Token)
      requires Valid() && start == position < |text| && text[position] == ':'
      modifies this`position
      ensures Valid()
      ensures t == Scan(text, start).token && position == Scan(text, start).next
    {
      position := position + 1;
      if position < |text| && text[position] == ':' {
        position := position + 1;
        t := Token(ColonColonToken, start, position);
        return;
      }
      t := Token(ColonToken, start, position);
    }

    /** The generator `lex`: a token per step while input remains, then the
        end-of-file token. */
    method Lex() returns (tokens: seq<Token>)
      requires Valid()
      modifies this
      ensures Valid() && position == |text|
      ensures var r := Tokenize(text, old(position));
        tokens == r.tokens && diagnostics == old(diagnostics) + r.diagnostics
    {
      tokens := [];
      ghost var whole := Tokenize(text, position);
      ghost var found := old(diagnostics);
      while HasNext()
        invariant Valid()
        invariant tokens + Tokenize(text, position).tokens == whole.tokens
        invariant diagnostics == found
        invariant found + Tokenize(text, position).diagnostics == old(diagnostics) + whole.diagnostics
        decreases |text| - position
      {
        ghost var before := position;
        ghost var rest := Tokenize(text, before);
        var t := LexNextToken();
        TokenizeStep(text, before);
        ghost var s := Scan(text, before);
        assert rest.tokens == [t] + Tokenize(text, position).tokens;
        assert rest.diagnostics == s.diagnostics + Tokenize(text, position).diagnostics;
        ghost var after := Tokenize(text, position);
        AppendAssociative(tokens, [t], after.tokens);
        AppendAssociative(found, s.diagnostics, after.diagnostics);
        tokens := tokens + [t];
        found := found + s.diagnostics;
      }
      assert Tokenize(text, position) == Run([Token(EndOfFileToken, position, position)], []);
      var t := LexNextToken();
      tokens := tokens + [t];
    }
  }
}
