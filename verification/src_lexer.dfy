/** The lexer of src/Lexer.ts.

    It reads whitespace, letter and digit runs and single punctuation
    characters, and keeps a line and column position as it goes: every
    consumed character other than `\r` and `\n` moves the column on by one,
    and a `\n` inside whitespace starts a new line at column 1. Whitespace is
    skipped unless the lexer was told to keep it. At the end of the input
    it returns end of file without moving. */
module SrcLexer {
  import opened Common

  datatype Kind =
    | Comma | SemiColon | Colon | OpenParenthesis | CloseParenthesis
    | ExclamationMark | QuestionMark | Quote | LessThan | GreaterThan | Equals
    | Underline | BackSlash | Plus | Minus | Product | Slash | Power
    | Number | Identifier | Space | Illegal | EOF

  datatype Token = Token(kind: Kind, view: string)

  /** Where the lexer is: the index of the next character, and the line and
      column it reports. */
  datatype Cursor = Cursor(pointer: nat, line: nat, column: nat)

  predicate IsDigit(c: char) { c in Digits }
  predicate IsLetter(c: char) { c in Letters }

  /** The characters the regular expression `\s` matches in JavaScript. */
  predicate IsWhitespace(c: char) { c in Whitespace }

  predicate Tests(c: string, re: set<char>) { |c| == 1 && c[0] in re }

  function SingleKind(c: string): Option<Kind>
  {
    if c == "," then Some(Comma)
    else if c == ";" then Some(SemiColon)
    else if c == ":" then Some(Colon)
    else if c == "(" then Some(OpenParenthesis)
    else if c == ")" then Some(CloseParenthesis)
    else if c == "!" then Some(ExclamationMark)
    else if c == "?" then Some(QuestionMark)
    else if c == "\"" then Some(Quote)
    else if c == "<" then Some(LessThan)
    else if c == ">" then Some(GreaterThan)
    else if c == "=" then Some(Equals)
    else if c == "_" then Some(Underline)
    else if c == "\\" then Some(BackSlash)
    else if c == "+" then Some(Plus)
    else if c == "-" then Some(Minus)
    else if c == "*" then Some(Product)
    else if c == "/" then Some(Slash)
    else if c == "^" then Some(Power)
    else None
  }

  /** `getNext` on the cursor: one character is consumed when one remains,
      and it moves the column unless it is a line break character. */
  function Advance(input: string, c: Cursor): (r: Cursor)
    ensures c.pointer < |input| ==> r.pointer == c.pointer + 1 && r.line == c.line
    ensures c.pointer >= |input| ==> r == c
  {
    if c.pointer < |input| then
      var ch := input[c.pointer];
      Cursor(c.pointer + 1, c.line, if ch != '\r' && ch != '\n' then c.column + 1 else c.column)
    else c
  }

  /** The cursor after the run `[c.pointer, e)`. In a whitespace run
      (`lines`) a `\n` first moves to the next line and column 1. */
  function Walk(input: string, c: Cursor, e: nat, lines: bool): (r: Cursor)
    requires c.pointer <= e <= |input|
    ensures r.pointer == e
    decreases e - c.pointer
  {
    if c.pointer == e then c
    else
      var d := if lines && input[c.pointer] == '\n' then Cursor(c.pointer, c.line + 1, 1) else c;
      Walk(input, Advance(input, d), e, lines)
  }

  /** A walk one character further is the walk followed by one more step. */
  lemma {:induction false} WalkExtends(input: string, c: Cursor, e: nat, lines: bool)
    requires c.pointer <= e < |input|
    ensures var w := Walk(input, c, e, lines);
      Walk(input, c, e + 1, lines) == Advance(input, if lines && input[e] == '\n' then Cursor(e, w.line + 1, 1) else w)
    decreases e - c.pointer
  {
    if c.pointer < e {
      var d := if lines && input[c.pointer] == '\n' then Cursor(c.pointer, c.line + 1, 1) else c;
      WalkExtends(input, Advance(input, d), e, lines);
    }
  }

  lemma SliceExtends(s: string, i: nat, j: nat)
    requires i <= j < |s|
    ensures s[i..j + 1] == s[i..j] + [s[j]]
  {
  }

  function CountNewLines(s: string): nat
  {
    if s == [] then 0 else (if s[0] == '\n' then 1 else 0) + CountNewLines(s[1..])
  }

  /** The number of characters that move the column. */
  function CountColumns(s: string): nat
  {
    if s == [] then 0 else (if s[0] != '\r' && s[0] != '\n' then 1 else 0) + CountColumns(s[1..])
  }

  /** Across a whitespace run the line grows by the number of `\n` in it;
      outside whitespace it does not change. */
  lemma {:induction false} WalkCountsLines(input: string, c: Cursor, e: nat, lines: bool)
    requires c.pointer <= e <= |input|
    ensures Walk(input, c, e, lines).line == c.line + (if lines then CountNewLines(input[c.pointer..e]) else 0)
    decreases e - c.pointer
  {
    if c.pointer < e {
      var d := if lines && input[c.pointer] == '\n' then Cursor(c.pointer, c.line + 1, 1) else c;
      WalkCountsLines(input, Advance(input, d), e, lines);
      assert input[c.pointer..e][1..] == input[c.pointer + 1..e];
    }
  }

  /** Without a `\n` in the run, or outside whitespace, the column grows by
      one per character other than `\r` and `\n`. */
  lemma {:induction false} WalkCountsColumns(input: string, c: Cursor, e: nat, lines: bool)
    requires c.pointer <= e <= |input|
    requires lines ==> '\n' !in input[c.pointer..e]
    ensures Walk(input, c, e, lines).column == c.column + CountColumns(input[c.pointer..e])
    decreases e - c.pointer
  {
    if c.pointer < e {
      assert input[c.pointer..e][1..] == input[c.pointer + 1..e];
      assert input[c.pointer] == input[c.pointer..e][0];
      WalkCountsColumns(input, Advance(input, c), e, lines);
    }
  }

  /** `getNextToken` from cursor `c`: the token and the new cursor. */
  function NextToken(input: string, c: Cursor, space: bool): (r: (Token, Cursor))
    ensures c.pointer <= r.1.pointer <= |input| || r.1 == c
    decreases |input| - c.pointer
  {
    var p := c.pointer;
    var ch := CharAt(input, p);
    if Tests(ch, Whitespace) then
      var e := RunEnd(input, p, Whitespace);
      var after := Walk(input, c, e, true);
      if space then (Token(Space, input[p..e]), after)
      else NextToken(input, after, space)
    else if Tests(ch, Letters) then
      var e := RunEnd(input, p, Letters);
      (Token(Identifier, input[p..e]), Walk(input, c, e, false))
    else if Tests(ch, Digits) then
      var e := RunEnd(input, p, Digits);
      (Token(Number, input[p..e]), Walk(input, c, e, false))
    else if SingleKind(ch).Some? then
      (Token(SingleKind(ch).value, ch), Advance(input, c))
    else if ch != "" then
      (Token(Illegal, ch), Advance(input, c))
    else
      (Token(EOF, ""), c)
  }

  /** Every token but end of file consumes its own text, so the lexer makes
      progress; end of file comes exactly when only skipped whitespace is
      left, and leaves the cursor where it is. */
  lemma {:induction false} NextTokenProgress(input: string, c: Cursor, space: bool)
    ensures ProgressOf(input, c, space, NextToken(input, c, space))
    decreases |input| - c.pointer, 1
  {
    if Tests(CharAt(input, c.pointer), Whitespace) {
      WhitespaceProgress(input, c, space);
    } else {
      OtherProgress(input, c, space);
    }
  }

  /** The three facts of `NextTokenProgress` about one result. */
  predicate ProgressOf(input: string, c: Cursor, space: bool, r: (Token, Cursor))
  {
    var (t, d) := r;
    && (t.kind == EOF <==> c.pointer >= |input| || (!space && forall i | c.pointer <= i < |input| :: IsWhitespace(input[i])))
    && (t.kind != EOF ==> c.pointer < d.pointer <= |input| && 0 < |t.view| <= d.pointer - c.pointer
                           && t.view == input[d.pointer - |t.view|..d.pointer])
    && (t.kind == EOF && c.pointer >= |input| ==> d == c)
  }

  lemma {:induction false} WhitespaceProgress(input: string, c: Cursor, space: bool)
    requires Tests(CharAt(input, c.pointer), Whitespace)
    ensures ProgressOf(input, c, space, NextToken(input, c, space))
    decreases |input| - c.pointer, 0
  {
    var p := c.pointer;
    var e := RunEnd(input, p, Whitespace);
    if !space {
      var after := Walk(input, c, e, true);
      assert NextToken(input, c, space) == NextToken(input, after, space);
      NextTokenProgress(input, after, space);
      if e < |input| {
        assert !IsWhitespace(input[e]);
      }
    }
  }

  lemma OtherProgress(input: string, c: Cursor, space: bool)
    requires !Tests(CharAt(input, c.pointer), Whitespace)
    ensures ProgressOf(input, c, space, NextToken(input, c, space))
  {
    if c.pointer < |input| {
      assert !IsWhitespace(input[c.pointer]);
    }
  }

  /** Identifiers and numbers are maximal letter and digit runs; a number
      has no decimal point. */
  lemma IdentifierAndNumberRuns(input: string, c: Cursor, space: bool)
    requires c.pointer < |input| && !IsWhitespace(input[c.pointer])
    ensures var (t, d) := NextToken(input, c, space);
      && (t.kind == Identifier <==> IsLetter(input[c.pointer]))
      && (t.kind == Number <==> IsDigit(input[c.pointer]))
      && (t.kind == Identifier ==> (forall i | c.pointer <= i < d.pointer :: IsLetter(input[i])) && (d.pointer == |input| || !IsLetter(input[d.pointer])))
      && (t.kind == Number ==> (forall i | c.pointer <= i < d.pointer :: IsDigit(input[i])) && (d.pointer == |input| || !IsDigit(input[d.pointer])))
      && (t.kind in {Identifier, Number} ==> d.line == c.line && d.column == c.column + (d.pointer - c.pointer))
  {
    var p := c.pointer;
    if IsLetter(input[p]) {
      var e := RunEnd(input, p, Letters);
      WalkCountsColumns(input, c, e, false);
      WalkCountsLines(input, c, e, false);
      RunColumns(input[p..e]);
    } else if IsDigit(input[p]) {
      var e := RunEnd(input, p, Digits);
      WalkCountsColumns(input, c, e, false);
      WalkCountsLines(input, c, e, false);
      RunColumns(input[p..e]);
    }
  }

  /** A character that starts no run is a token of one character: a listed
      punctuation or operator character gets its own kind, any other is
      illegal; either way the cursor moves past it on the same line. */
  lemma SingleCharacters(input: string, c: Cursor, space: bool)
    requires c.pointer < |input|
    requires !IsWhitespace(input[c.pointer]) && !IsLetter(input[c.pointer]) && !IsDigit(input[c.pointer])
    ensures var (t, d) := NextToken(input, c, space);
      && t.view == [input[c.pointer]] && d.pointer == c.pointer + 1 && d.line == c.line
      && (SingleKind([input[c.pointer]]).Some? ==> t.kind == SingleKind([input[c.pointer]]).value)
      && (SingleKind([input[c.pointer]]).None? ==> t.kind == Illegal)
  {
  }

  /** A run without line break characters moves the column once per character. */
  lemma {:induction false} RunColumns(s: string)
    requires forall i | 0 <= i < |s| :: s[i] != '\r' && s[i] != '\n'
    ensures CountColumns(s) == |s|
  {
    if s != [] {
      RunColumns(s[1..]);
    }
  }

  class Lexer {
    var space: bool
    var pointer: nat
    var line: nat
    var column: nat
    const input: string

    constructor (source: string)
      ensures input == source && !space && pointer == 0 && line == 1 && column == 1
    {
      input := source;
      space := false;
      pointer, line, column := 0, 1, 1;
    }

    function Cur(): Cursor
      reads this
    {
      Cursor(pointer, line, column)
    }

    /** `peek`: the character at the pointer, or "" at the end. */
    function Peek(): (c: string)
      reads this
      ensures c == "" <==> pointer >= |input|
      ensures c != "" ==> c == [input[pointer]]
    {
      CharAt(input, pointer)
    }

    method KeepSpace()
      modifies this`space
      ensures space
    {
      space := true;
    }

    method IgnoreSpace()
      modifies this`space
      ensures !space
    {
      space := false;
    }

    method GetNext() returns (character: string)
      modifies this`pointer, this`column
      ensures character == CharAt(input, old(pointer))
      ensures Cur() == Advance(input, old(Cur()))
    {
      character := Peek();
      if character != "" {
        pointer := pointer + 1;
        if character != "\r" && character != "\n" {
          column := column + 1;
        }
      }
    }

    method GetNumber() returns (t: Token)
      requires pointer < |input| && IsDigit(input[pointer])
      modifies this`pointer, this`column
      ensures var e := RunEnd(input, old(pointer), Digits);
        t == Token(Number, input[old(pointer)..e]) && Cur() == Walk(input, old(Cur()), e, false)
    {
      var view := "";
      while Tests(Peek(), Digits)
        invariant old(pointer) <= pointer <= |input|
        invariant line == old(line)
        invariant RunEnd(input, pointer, Digits) == RunEnd(input, old(pointer), Digits)
        invariant Walk(input, old(Cur()), RunEnd(input, old(pointer), Digits), false)
          == Walk(input, Cur(), RunEnd(input, old(pointer), Digits), false)
        invariant view == input[old(pointer)..pointer]
        decreases |input| - pointer
      {
        var next := GetNext();
        view := view + next;
      }
      t := Token(Number, view);
    }

    method GetIdentifier() returns (t: Token)
      requires pointer < |input| && IsLetter(input[pointer])
      modifies this`pointer, this`column
      ensures var e := RunEnd(input, old(pointer), Letters);
        t == Token(Identifier, input[old(pointer)..e]) && Cur() == Walk(input, old(Cur()), e, false)
    {
      var view := "";
      while Tests(Peek(), Letters)
        invariant old(pointer) <= pointer <= |input|
        invariant line == old(line)
        invariant RunEnd(input, pointer, Letters) == RunEnd(input, old(pointer), Letters)
        invariant Walk(input, old(Cur()), RunEnd(input, old(pointer), Letters), false)
          == Walk(input, Cur(), RunEnd(input, old(pointer), Letters), false)
        invariant view == input[old(pointer)..pointer]
        decreases |input| - pointer
      {
        var next := GetNext();
        view := view + next;
      }
      t := Token(Identifier, view);
    }

    /** The loop of `getSpace`: consumes the whitespace run, moving to a
        new line at every `\n`. */
    method SkipWhitespace() returns (view: string)
      requires pointer <= |input|
      modifies this`pointer, this`line, this`column
      ensures var e := RunEnd(input, old(pointer), Whitespace);
        view == input[old(pointer)..e] && Cur() == Walk(input, old(Cur()), e, true)
    {
      ghost var e := RunEnd(input, pointer, Whitespace);
      ghost var start := Cur();
      view := "";
      while Tests(Peek(), Whitespace)
        invariant start.pointer <= pointer <= e <= |input|
        invariant RunEnd(input, pointer, Whitespace) == e
        invariant Cur() == Walk(input, start, pointer, true)
        invariant view == input[start.pointer..pointer]
        decreases |input| - pointer
      {
        view := SkipOneWhitespace(view, start, e);
      }
    }

    /** One character of the whitespace run: a `\n` first starts a new
        line at column 1; the character is appended to `view`. */
    method SkipOneWhitespace(view: string, ghost start: Cursor, ghost e: nat) returns (extended: string)
      requires Tests(Peek(), Whitespace)
      requires start.pointer <= pointer <= e <= |input| && RunEnd(input, pointer, Whitespace) == e
      requires Cur() == Walk(input, start, pointer, true) && view == input[start.pointer..pointer]
      modifies this`pointer, this`line, this`column
      ensures pointer == old(pointer) + 1
      ensures start.pointer <= pointer <= e && RunEnd(input, pointer, Whitespace) == e
      ensures Cur() == Walk(input, start, pointer, true) && extended == input[start.pointer..pointer]
    {
      WalkExtends(input, start, pointer, true);
      SliceExtends(input, start.pointer, pointer);
      if Peek() == "\n" {
        line := line + 1;
        column := 1;
      }
      var next := GetNext();
      extended := view + next;
    }

    method GetSpace() returns (t: Token)
      requires pointer < |input| && IsWhitespace(input[pointer])
      modifies this`pointer, this`line, this`column
      ensures (t, Cur()) == NextToken(input, old(Cur()), space)
      decreases |input| - pointer, 0
    {
      var view := SkipWhitespace();
      if space {
        t := Token(Space, view);
        return;
      }
      t := GetNextToken();
    }

    method GetNextToken() returns (t: Token)
      modifies this`pointer, this`line, this`column
      ensures (t, Cur()) == NextToken(input, old(Cur()), space)
      decreases if pointer < |input| then |input| - pointer else 0, 1
    {
      var character := Peek();
      if Tests(character, Whitespace) {
        t := GetSpace();
        return;
      }
      if Tests(character, Letters) {
        t := GetIdentifier();
        return;
      }
      if Tests(character, Digits) {
        t := GetNumber();
        return;
      }
      var next := GetNext();
      if SingleKind(character).Some? {
        t := Token(SingleKind(character).value, next);
      } else if character != "" {
        t := Token(Illegal, next);
      } else {
        t := Token(EOF, "");
      }
    }
  }
}
