/** The lexer of lexer.ts at the root of the repository.

    It reads digits, whitespace and letters as runs and every other
    character as a token of its own, and skips whitespace unless told to
    keep it. Every token records the text it was read from (`raw`) and its
    span `[from, to)`. At the end of the input it returns an end-of-file
    token whose span is empty, yet `position` still moves on by one.
    Lookahead saves and restores `position`. */
module RootLexer {
  import opened Common

  datatype Kind =
    | Number | Space | Identifier | OpenParenthesis | ClosingParenthesis
    | ExclamationMark | QuestionMark | Quote | LessThan | GreaterThan | Equals
    | Addition | Substraction | Multiplication | Division | Exponentiation
    | UnknownCharacter | EOF

  datatype Token = Token(kind: Kind, raw: string, from: nat, to: nat)

  predicate IsDigit(c: char) { c in Digits }
  predicate IsLetter(c: char) { c in Letters }

  /** The characters the regular expression `\s` matches in JavaScript. */
  predicate IsWhitespace(c: char) { c in Whitespace }

  /** `/re/.test(c)` on the one-character string `c`: "" matches nothing. */
  predicate Tests(c: string, re: set<char>) { |c| == 1 && c[0] in re }

  /** The single characters that have a token class of their own. */
  function SingleKind(c: string): Option<Kind>
  {
    if c == "(" then Some(OpenParenthesis)
    else if c == ")" then Some(ClosingParenthesis)
    else if c == "!" then Some(ExclamationMark)
    else if c == "?" then Some(QuestionMark)
    else if c == "\"" then Some(Quote)
    else if c == "<" then Some(LessThan)
    else if c == ">" then Some(GreaterThan)
    else if c == "=" then Some(Equals)
    else if c == "+" then Some(Addition)
    else if c == "-" then Some(Substraction)
    else if c == "*" then Some(Multiplication)
    else if c == "/" then Some(Division)
    else if c == "^" then Some(Exponentiation)
    else None
  }

  /** `getNextToken` from `p`: the token and the new `position`. */
  function NextToken(input: string, p: nat, space: bool): (r: (Token, nat))
    ensures p < r.1
    ensures r.0.from >= p && (r.0.kind != EOF ==> r.0.to == r.1 <= |input|)
    decreases |input| - p
  {
    var c := CharAt(input, p);
    if Tests(c, Digits) then
      var e := RunEnd(input, p, Digits);
      (Token(Number, input[p..e], p, e), e)
    else if Tests(c, Whitespace) then
      var e := RunEnd(input, p, Whitespace);
      if space then (Token(Space, input[p..e], p, e), e)
      else NextToken(input, e, space)
    else if Tests(c, Letters) then
      var e := RunEnd(input, p, Letters);
      (Token(Identifier, input[p..e], p, e), e)
    else if SingleKind(c).Some? then
      (Token(SingleKind(c).value, c, p, p + 1), p + 1)
    else if c != "" then
      (Token(UnknownCharacter, c, p, p + 1), p + 1)
    else
      (Token(EOF, "", p, p), p + 1)
  }

  /** Numbers and identifiers are maximal runs of digits or letters, and
      every token other than end of file carries the text of its span;
      single characters take exactly one. */
  lemma {:induction false} TokenShape(input: string, p: nat, space: bool)
    ensures var t := NextToken(input, p, space).0;
      && (t.kind != EOF ==> t.from < t.to <= |input| && t.raw == input[t.from..t.to])
      && (t.kind == Number ==> (forall i | t.from <= i < t.to :: IsDigit(input[i])) && (t.to == |input| || !IsDigit(input[t.to])))
      && (t.kind == Identifier ==> (forall i | t.from <= i < t.to :: IsLetter(input[i])) && (t.to == |input| || !IsLetter(input[t.to])))
      && (t.kind == Space ==> space && (forall i | t.from <= i < t.to :: IsWhitespace(input[i])) && (t.to == |input| || !IsWhitespace(input[t.to])))
      && (t.kind !in {Number, Identifier, Space, EOF} ==> t.to == t.from + 1)
    decreases |input| - p
  {
    var c := CharAt(input, p);
    if !Tests(c, Digits) && Tests(c, Whitespace) && !space {
      TokenShape(input, RunEnd(input, p, Whitespace), space);
    }
  }

  /** Whitespace before the token is skipped unless spaces are kept; the
      token starts at the first other character. */
  lemma {:induction false} SkipsOnlyWhitespace(input: string, p: nat, space: bool)
    ensures var t := NextToken(input, p, space).0;
      && (space ==> t.from == p)
      && (forall i | p <= i < t.from :: i < |input| && IsWhitespace(input[i]))
      && (t.from < |input| ==> space || !IsWhitespace(input[t.from]))
    decreases |input| - p
  {
    var c := CharAt(input, p);
    if !Tests(c, Digits) && Tests(c, Whitespace) && !space {
      SkipsOnlyWhitespace(input, RunEnd(input, p, Whitespace), space);
    }
  }

  /** The end-of-file token comes exactly when nothing but skipped
      whitespace is left; its span is empty and `position` still moves on
      by one. */
  lemma {:induction false} EndOfFile(input: string, p: nat, space: bool)
    ensures var (t, q) := NextToken(input, p, space);
      && (t.kind == EOF <==> p >= |input| || (!space && forall i | p <= i < |input| :: IsWhitespace(input[i])))
      && (t.kind == EOF ==> t.from == t.to && q == t.from + 1 && t.from == (if p >= |input| then p else |input|))
    decreases |input| - p
  {
    var c := CharAt(input, p);
    if Tests(c, Digits) {
      assert !IsWhitespace(input[p]);
    } else if Tests(c, Whitespace) {
      if !space {
        var e := RunEnd(input, p, Whitespace);
        EndOfFile(input, e, space);
        if e < |input| {
          assert !IsWhitespace(input[e]);
        }
      }
    } else if p < |input| {
      assert !IsWhitespace(input[p]);
    }
  }

  class Lexer {
    var space: bool
    var position: nat
    const input: string

    constructor (source: string)
      ensures input == source && position == 0 && !space
    {
      input := source;
      position := 0;
      space := false;
    }

    /** `getCharacter`: the character at `position`, or "" past the end. */
    function GetCharacter(): (c: string)
      reads this
      ensures c == "" <==> position >= |input|
      ensures c != "" ==> c == [input[position]]
    {
      CharAt(input, position)
    }

    method GetNextCharacter() returns (c: string)
      modifies this`position
      ensures c == CharAt(input, old(position)) && position == old(position) + 1
    {
      c := GetCharacter();
      position := position + 1;
    }

    method KeepSpace()
      modifies this`space
      ensures space
    {
      space := true;
    }

    method IgnoreSpace()
      modifies this`space
      ensures !space
    {
      space := false;
    }

    /** The `raw +=` loop shared by `getIdentifier`, `getNumber` and
        `getSpace`: reads the run of `run` characters at `position`. */
    method ReadRun(run: set<char>) returns (raw: string)
      requires position <= |input|
      modifies this`position
      ensures position == RunEnd(input, old(position), run)
      ensures raw == input[old(position)..position]
    {
      raw := "";
      while Tests(GetCharacter(), run)
        invariant old(position) <= position <= |input|
        invariant RunEnd(input, position, run) == RunEnd(input, old(position), run)
        invariant raw == input[old(position)..position]
        decreases |input| - position
      {
        var c := GetNextCharacter();
        raw := raw + c;
      }
    }

    method GetIdentifier() returns (t: Token)
      requires position < |input| && IsLetter(input[position])
      modifies this`position
      ensures (t, position) == NextToken(input, old(position), space)
    {
      var startsAt := position;
      assert CharAt(input, position) == [input[position]];
      assert !IsDigit(input[position]) && !IsWhitespace(input[position]);
      var raw := ReadRun(Letters);
      t := Token(Identifier, raw, startsAt, position);
    }

    method GetNumber() returns (t: Token)
      requires position < |input| && IsDigit(input[position])
      modifies this`position
      ensures (t, position) == NextToken(input, old(position), space)
    {
      var startsAt := position;
      var raw := ReadRun(Digits);
      t := Token(Number, raw, startsAt, position);
    }

    method GetSpace() returns (t: Token)
      requires position < |input| && IsWhitespace(input[position]) && !IsDigit(input[position])
      modifies this`position
      ensures (t, position) == NextToken(input, old(position), space)
      decreases |input| - position, 0
    {
      var startsAt := position;
      var raw := ReadRun(Whitespace);
      if space {
        t := Token(Space, raw, startsAt, position);
        return;
      }
      t := GetNextToken();
    }

    method GetNextToken() returns (t: Token)
      modifies this`position
      ensures (t, position) == NextToken(input, old(position), space)
      decreases if position < |input| then |input| - position else 0, 1
    {
      var character := GetCharacter();
      if Tests(character, Digits) {
        t := GetNumber();
        return;
      }
      if Tests(character, Whitespace) {
        t := GetSpace();
        return;
      }
      if Tests(character, Letters) {
        t := GetIdentifier();
        return;
      }
      var from := position;
      var next := GetNextCharacter();
      var to := position;
      if SingleKind(character).Some? {
        t := Token(SingleKind(character).value, next, from, to);
      } else if next != "" {
        t := Token(UnknownCharacter, next, from, to);
      } else {
        t := Token(EOF, "", from, from);
      }
    }

    /** `peekToken`: the token `getNextToken` would return, with `position`
        restored. */
    method PeekToken() returns (t: Token)
      modifies this`position
      ensures t == NextToken(input, position, space).0
      ensures position == old(position)
    {
      var startsAt := position;
      t := GetNextToken();
      position := startsAt;
    }

    method Backtrack(token: Token)
      modifies this`position
      ensures position == token.from
    {
      position := token.from;
    }

    method HasMoreTokens() returns (r: bool)
      modifies this`position
      ensures r <==> NextToken(input, position, space).0.kind != EOF
      ensures position == old(position)
    {
      var t := PeekToken();
      r := t.kind != EOF;
    }
  }
}
